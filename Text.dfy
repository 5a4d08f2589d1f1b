/**
 * The few Python `str` operations the core relies on, over `seq<char>`:
 * `isspace`, `strip`, `lower`, `startswith`, substring search (`in`), `split()` and `str(int)`.
 */
module Text {
  import opened Wrappers

  /** Python's `str.isspace()` for one character; also what `\s`, `strip()` and `split()` treat as blank. */
  predicate IsSpace(c: char) {
    ('\t' <= c <= '\r') || ('\U{1C}' <= c <= ' ') || c == '\U{85}' || c == '\U{A0}' || c == '\U{1680}'
    || ('\U{2000}' <= c <= '\U{200A}') || c == '\U{2028}' || c == '\U{2029}' || c == '\U{202F}'
    || c == '\U{205F}' || c == '\U{3000}'
  }

  /** `pat` occurs in `s` starting at index `i`. */
  predicate OccursAt(s: string, pat: string, i: nat) {
    i + |pat| <= |s| && s[i..i + |pat|] == pat
  }

  /** The first index at or after `from` where `pat` occurs (Python's `s.find(pat, from)`). */
  function IndexOf(s: string, pat: string, from: nat): (r: Option<nat>)
    decreases |s| - from
    ensures r.Some? ==> from <= r.value && OccursAt(s, pat, r.value)
    ensures r.Some? ==> forall k: nat :: from <= k < r.value ==> !OccursAt(s, pat, k)
    ensures r.None? ==> forall k: nat :: from <= k ==> !OccursAt(s, pat, k)
  {
    if from + |pat| > |s| then None
    else if s[from..from + |pat|] == pat then Some(from)
    else IndexOf(s, pat, from + 1)
  }

  /** Python's `pat in s`. */
  predicate Contains(s: string, pat: string) {
    IndexOf(s, pat, 0).Some?
  }

  lemma ContainsIff(s: string, pat: string)
    ensures Contains(s, pat) <==> exists i: nat :: OccursAt(s, pat, i)
  {
  }

  /** An occurrence inside a slice is an occurrence in the whole string, shifted by the slice start. */
  lemma OccursInSlice(s: string, pat: string, a: nat, b: nat, p: nat)
    requires a <= b <= |s| && OccursAt(s[a..b], pat, p)
    ensures OccursAt(s, pat, a + p)
  {
    var w := s[a..b][p..p + |pat|];
    assert forall k :: 0 <= k < |pat| ==> w[k] == s[a + p + k];
    assert s[a + p..a + p + |pat|] == w;
  }

  /** A string that contains no `pat` keeps containing none when cut down to a slice. */
  lemma SliceNotContains(s: string, pat: string, a: nat, b: nat)
    requires a <= b <= |s| && !Contains(s, pat)
    ensures !Contains(s[a..b], pat)
  {
    if Contains(s[a..b], pat) {
      var p := IndexOf(s[a..b], pat, 0).value;
      OccursInSlice(s, pat, a, b, p);
      assert false;
    }
  }

  /** `pat` occurs in `a + pat + b`. */
  lemma ContainsMiddle(a: string, pat: string, b: string)
    ensures Contains(a + pat + b, pat)
  {
    assert OccursAt(a + pat + b, pat, |a|) by {
      assert (a + pat + b)[|a|..|a| + |pat|] == pat;
    }
  }

  /** Python's `s.startswith(p)`. */
  predicate StartsWith(s: string, p: string) {
    |p| <= |s| && s[..|p|] == p
  }

  /** true if some string of `pats` occurs in `s` (Python's `any(p in s for p in pats)`). */
  predicate ContainsAny(s: string, pats: seq<string>) {
    exists i :: 0 <= i < |pats| && Contains(s, pats[i])
  }

  /** Python's `str.lower()`, restricted to the ASCII letters. */
  function LowerChar(c: char): (r: char)
    ensures 'A' <= c <= 'Z' ==> 'a' <= r <= 'z'
    ensures !('A' <= c <= 'Z') ==> r == c
  {
    if 'A' <= c <= 'Z' then (c as int - 'A' as int + 'a' as int) as char else c
  }

  function Lower(s: string): (r: string)
    ensures |r| == |s|
    ensures forall i :: 0 <= i < |s| ==> r[i] == LowerChar(s[i])
  {
    if s == [] then [] else [LowerChar(s[0])] + Lower(s[1..])
  }

  /** The number of blank characters at the front of `s`. */
  function LeadingSpaces(s: string): (n: nat)
    ensures n <= |s|
    ensures forall i :: 0 <= i < n ==> IsSpace(s[i])
    ensures n < |s| ==> !IsSpace(s[n])
  {
    if s == [] || !IsSpace(s[0]) then 0 else 1 + LeadingSpaces(s[1..])
  }

  /** The number of blank characters at the back of `s`. */
  function TrailingSpaces(s: string): (n: nat)
    ensures n <= |s|
    ensures forall i :: |s| - n <= i < |s| ==> IsSpace(s[i])
    ensures n < |s| ==> !IsSpace(s[|s| - 1 - n])
  {
    if s == [] || !IsSpace(s[|s| - 1]) then 0 else 1 + TrailingSpaces(s[..|s| - 1])
  }

  /** Python's `s.strip()`: `s` without its leading and trailing blanks. */
  function Strip(s: string): (r: string)
    ensures |r| <= |s|
  {
    var t := s[LeadingSpaces(s)..];
    t[..|t| - TrailingSpaces(t)]
  }

  /** The stripped text is the slice of the input left once the blanks at either end are cut, with
      no blank at either end itself, and it is empty exactly when the input is all blanks. */
  lemma StripSpec(s: string)
    ensures exists a: nat, b: nat :: (a <= b <= |s| && Strip(s) == s[a..b]
      && (forall i :: 0 <= i < a ==> IsSpace(s[i])) && (forall i :: b <= i < |s| ==> IsSpace(s[i])))
    ensures Strip(s) != [] ==> !IsSpace(Strip(s)[0]) && !IsSpace(Strip(s)[|Strip(s)| - 1])
    ensures (forall i :: 0 <= i < |s| ==> IsSpace(s[i])) <==> Strip(s) == []
  {
    var a := LeadingSpaces(s);
    var t := s[a..];
    var b := a + |t| - TrailingSpaces(t);
    assert s[a..b] == t[..|t| - TrailingSpaces(t)];
  }

  /** Blanks in front do not change the stripped text. */
  lemma {:induction false} StripSkipsLeadingSpaces(s: string, n: nat)
    requires n <= |s| && forall i :: 0 <= i < n ==> IsSpace(s[i])
    ensures Strip(s[n..]) == Strip(s)
    decreases n
  {
    if n > 0 {
      var u := s[1..];
      assert u[n - 1..] == s[n..];
      StripSkipsLeadingSpaces(u, n - 1);
      StripDropsSpace(s);
    }
  }

  lemma StripDropsSpace(s: string)
    requires |s| > 0 && IsSpace(s[0])
    ensures Strip(s[1..]) == Strip(s)
  {
    var u := s[1..];
    var a := LeadingSpaces(s);
    assert a == 1 + LeadingSpaces(u);
    assert u[a - 1..] == s[a..];
  }

  lemma StripIdempotent(s: string)
    ensures Strip(Strip(s)) == Strip(s)
  {
    var r := Strip(s);
    StripSpec(s);
    if r != [] {
      assert LeadingSpaces(r) == 0;
      assert TrailingSpaces(r) == 0;
    }
  }

  lemma StripNotContains(s: string, pat: string)
    requires !Contains(s, pat)
    ensures !Contains(Strip(s), pat)
  {
    StripSpec(s);
    var a: nat, b: nat :| a <= b <= |s| && Strip(s) == s[a..b];
    SliceNotContains(s, pat, a, b);
  }

  /** The number of non-blank characters at the front of `s`. */
  function RunLength(s: string): (n: nat)
    ensures n <= |s|
    ensures forall i :: 0 <= i < n ==> !IsSpace(s[i])
    ensures n < |s| ==> IsSpace(s[n])
  {
    if s == [] || IsSpace(s[0]) then 0 else 1 + RunLength(s[1..])
  }

  /** Python's `s.split()` with no separator: the maximal runs of non-blank characters, in order. */
  function Words(s: string): (ws: seq<string>)
    decreases |s|
    ensures forall k :: 0 <= k < |ws| ==> ws[k] != [] && forall i :: 0 <= i < |ws[k]| ==> !IsSpace(ws[k][i])
  {
    if s == [] then []
    else if IsSpace(s[0]) then Words(s[1..])
    else
      var n := RunLength(s);
      [s[..n]] + Words(s[n..])
  }

  /** An independent count of the runs: the non-blank characters followed by a blank or by the end. */
  function RunEnds(s: string): nat {
    if s == [] then 0
    else (if !IsSpace(s[0]) && (|s| == 1 || IsSpace(s[1])) then 1 else 0) + RunEnds(s[1..])
  }

  /** A run of `n` non-blank characters that is followed by a blank or by the end holds one run end. */
  lemma {:induction false} RunEndsOfRun(s: string, n: nat)
    requires 0 < n <= |s|
    requires forall i :: 0 <= i < n ==> !IsSpace(s[i])
    requires n < |s| ==> IsSpace(s[n])
    ensures RunEnds(s) == 1 + RunEnds(s[n..])
  {
    if n > 1 {
      RunEndsOfRun(s[1..], n - 1);
      assert s[1..][n - 1..] == s[n..];
    }
  }

  lemma {:induction false} WordsCountRuns(s: string)
    decreases |s|
    ensures |Words(s)| == RunEnds(s)
  {
    if s == [] {
    } else if IsSpace(s[0]) {
      WordsCountRuns(s[1..]);
    } else {
      var n := RunLength(s);
      RunEndsOfRun(s, n);
      WordsCountRuns(s[n..]);
    }
  }

  function DigitChar(d: nat): char
    requires d < 10
  {
    "0123456789"[d]
  }

  /** Python's `str(n)` for a natural number. */
  function NatToString(n: nat): (r: string)
    ensures r != []
    ensures forall i :: 0 <= i < |r| ==> '0' <= r[i] <= '9'
  {
    if n < 10 then [DigitChar(n)] else NatToString(n / 10) + [DigitChar(n % 10)]
  }

  /** Python's `str(x)` for an optional string: the string itself, or `"None"`. */
  function OptionText(o: Option<string>): (r: string)
    ensures o.Some? ==> r == o.value
    ensures o.None? ==> r == "None"
  {
    match o
    case Some(x) => x
    case None => "None"
  }

  /** Three strings placed between four others all occur in the result. */
  lemma Embeds3(a: string, x: string, b: string, y: string, c: string, z: string, d: string)
    ensures var p := a + x + b + y + c + z + d; Contains(p, x) && Contains(p, y) && Contains(p, z)
  {
    var p := a + x + b + y + c + z + d;
    ContainsMiddle(a, x, b + y + c + z + d);
    assert p == a + x + (b + y + c + z + d);
    ContainsMiddle(a + x + b, y, c + z + d);
    assert p == (a + x + b) + y + (c + z + d);
    ContainsMiddle(a + x + b + y + c, z, d);
  }

  /** Two strings placed between three others both occur in the result. */
  lemma Embeds2(a: string, x: string, b: string, y: string, c: string)
    ensures var p := a + x + b + y + c; Contains(p, x) && Contains(p, y)
  {
    var p := a + x + b + y + c;
    ContainsMiddle(a, x, b + y + c);
    assert p == a + x + (b + y + c);
    ContainsMiddle(a + x + b, y, c);
  }

  /** Python's `str.upper()`, restricted to the ASCII letters. */
  function UpperChar(c: char): (r: char)
    ensures 'a' <= c <= 'z' ==> 'A' <= r <= 'Z'
    ensures !('a' <= c <= 'z') ==> r == c
  {
    if 'a' <= c <= 'z' then (c as int - 'a' as int + 'A' as int) as char else c
  }

  function Upper(s: string): (r: string)
    ensures |r| == |s|
    ensures forall i :: 0 <= i < |s| ==> r[i] == UpperChar(s[i])
  {
    if s == [] then [] else [UpperChar(s[0])] + Upper(s[1..])
  }
}
