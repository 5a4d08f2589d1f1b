/**
 * Dataset post-processing of `DataLoader` (src/data/loader.py): the BMI category column
 * added in place, and the join-key check on both tables.
 *
 * A table is a class: its ordered column names and, per name, a column of cells. Reading
 * the CSV files is not part of the model.
 */
module Loader {
  import opened Wrappers

  datatype BmiCategory = Underweight | Normal | Overweight | Obese

  /** A table cell: a number, a missing value (NaN), text, or a category label. */
  datatype Cell = Number(x: real) | Missing | Text(s: string) | Category(c: BmiCategory)

  const BmiColumn := "BMI"
  const BmiCategoryColumn := "BMI_Category"

  /** The bin edges of `pd.cut` and the labels of the bins between them. */
  const BmiBins: seq<real> := [0.0, 18.5, 25.0, 30.0, 100.0]
  const BmiLabels: seq<BmiCategory> := [Underweight, Normal, Overweight, Obese]

  predicate StrictlyIncreasing(edges: seq<real>) {
    forall i, j :: 0 <= i < j < |edges| ==> edges[i] < edges[j]
  }

  /** `pd.cut` with right-closed bins for one value: the index of the bin `(edges[i], edges[i+1]]` holding `x`. */
  function Cut(edges: seq<real>, x: real): (r: Option<nat>)
    requires StrictlyIncreasing(edges)
    ensures r.Some? ==> r.value + 1 < |edges| && edges[r.value] < x <= edges[r.value + 1]
    ensures r.None? ==> forall i :: 0 <= i < |edges| - 1 ==> !(edges[i] < x <= edges[i + 1])
    decreases |edges|
  {
    if |edges| < 2 then None
    else if edges[0] < x <= edges[1] then Some(0)
    else
      match Cut(edges[1..], x)
      case Some(k) => Some(k + 1)
      case None => None
  }

  /** The category `pd.cut(bmi, bins, labels)` gives one value, `None` for a missing result. */
  function CategoryOf(x: real): (r: Option<BmiCategory>)
    ensures r.Some? ==> 0.0 < x <= 100.0
  {
    match Cut(BmiBins, x)
    case Some(i) => if i < |BmiLabels| then Some(BmiLabels[i]) else None
    case None => None
  }

  /** The bins written out: `(0, 18.5]`, `(18.5, 25]`, `(25, 30]`, `(30, 100]`, nothing elsewhere. */
  lemma CategoryThresholds(x: real)
    ensures 0.0 < x <= 18.5 ==> CategoryOf(x) == Some(Underweight)
    ensures 18.5 < x <= 25.0 ==> CategoryOf(x) == Some(Normal)
    ensures 25.0 < x <= 30.0 ==> CategoryOf(x) == Some(Overweight)
    ensures 30.0 < x <= 100.0 ==> CategoryOf(x) == Some(Obese)
    ensures x <= 0.0 || x > 100.0 ==> CategoryOf(x) == None
  {
    var r := Cut(BmiBins, x);
    if r.Some? {
      assert BmiBins[r.value] < x <= BmiBins[r.value + 1];
    } else {
      assert forall i :: 0 <= i < 4 ==> !(BmiBins[i] < x <= BmiBins[i + 1]);
    }
  }

  /** The edge values fall in the lower bin; a BMI of exactly 30 is Overweight, not Obese. */
  lemma CategoryEdges()
    ensures CategoryOf(18.5) == Some(Underweight)
    ensures CategoryOf(25.0) == Some(Normal)
    ensures CategoryOf(30.0) == Some(Overweight)
    ensures CategoryOf(100.0) == Some(Obese)
    ensures CategoryOf(0.0) == None
  {
    CategoryThresholds(18.5);
    CategoryThresholds(25.0);
    CategoryThresholds(30.0);
    CategoryThresholds(100.0);
    CategoryThresholds(0.0);
  }

  /** The rank of a category, in the order of the labels. */
  function Rank(c: BmiCategory): nat {
    match c
    case Underweight => 0
    case Normal => 1
    case Overweight => 2
    case Obese => 3
  }

  /** Over `(0, 100]` every value has a category, and a larger value never has a lower one. */
  lemma CategoryMonotone(x: real, y: real)
    requires 0.0 < x <= y <= 100.0
    ensures CategoryOf(x).Some? && CategoryOf(y).Some?
    ensures Rank(CategoryOf(x).value) <= Rank(CategoryOf(y).value)
  {
    CategoryThresholds(x);
    CategoryThresholds(y);
  }

  /** The category cell for one BMI cell: a missing or out-of-range BMI gives a missing category. */
  function CategoryCell(bmi: Cell): Cell {
    if bmi.Number? && CategoryOf(bmi.x).Some? then Category(CategoryOf(bmi.x).value) else Missing
  }

  /** The category column for a BMI column, cell by cell. */
  function Categorized(bmi: seq<Cell>): (r: seq<Cell>)
    requires forall i :: 0 <= i < |bmi| ==> bmi[i].Number? || bmi[i].Missing?
    ensures |r| == |bmi|
    ensures forall i :: 0 <= i < |bmi| ==> r[i] == CategoryCell(bmi[i])
  {
    if bmi == [] then [] else [CategoryCell(bmi[0])] + Categorized(bmi[1..])
  }

  /** A table: its column names in order and each column's cells. */
  class Table {
    var names: seq<string>
    var columns: map<string, seq<Cell>>

    constructor (names: seq<string>, columns: map<string, seq<Cell>>)
      requires forall n :: n in columns <==> n in names
      ensures this.names == names && this.columns == columns
      ensures Valid()
    {
      this.names := names;
      this.columns := columns;
    }

    /** Every named column has cells and every column is named. */
    ghost predicate Valid()
      reads this
    {
      forall n :: n in columns <==> n in names
    }

    /** The BMI column is there and holds only numbers and missing values. */
    predicate HasNumericBmi()
      reads this
    {
      BmiColumn in columns && forall i :: 0 <= i < |columns[BmiColumn]| ==>
        columns[BmiColumn][i].Number? || columns[BmiColumn][i].Missing?
    }
  }

  /** `_feature_engineering`: with a BMI column, set the category column in place (appended if new); return the same table. */
  method FeatureEngineering(t: Table) returns (r: Table)
    requires t.Valid()
    requires BmiColumn in t.columns ==> t.HasNumericBmi()
    modifies t
    ensures r == t && t.Valid()
    ensures old(BmiColumn !in t.columns) ==> t.names == old(t.names) && t.columns == old(t.columns)
    ensures old(BmiColumn in t.columns) ==>
      t.columns == old(t.columns)[BmiCategoryColumn := Categorized(old(t.columns[BmiColumn]))]
      && t.names == old(if BmiCategoryColumn in t.names then t.names else t.names + [BmiCategoryColumn])
  {
    if BmiColumn in t.columns {
      var category := Categorized(t.columns[BmiColumn]);
      if BmiCategoryColumn !in t.names {
        t.names := t.names + [BmiCategoryColumn];
      }
      t.columns := t.columns[BmiCategoryColumn := category];
    }
    r := t;
  }

  // ---------------------------------------------------------------------------
  // The join key
  // ---------------------------------------------------------------------------

  const JoinKey := "Patient_Number"

  /** `_validate_structure`: the first table is checked first; a failure is the `ValueError` text. */
  function ValidateStructure(names1: seq<string>, names2: seq<string>): (r: Checked<string>)
    ensures r.Pass? <==> JoinKey in names1 && JoinKey in names2
    ensures JoinKey !in names1 ==> r == Fail("Dataset 1 missing required key: " + JoinKey)
    ensures JoinKey in names1 && JoinKey !in names2 ==> r == Fail("Dataset 2 missing required key: " + JoinKey)
  {
    if JoinKey !in names1 then Fail("Dataset 1 missing required key: " + JoinKey)
    else if JoinKey !in names2 then Fail("Dataset 2 missing required key: " + JoinKey)
    else Pass
  }
}
