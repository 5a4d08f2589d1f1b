/**
 * The policy validator `QueryValidator` (hf-space/src/utils/validator.py): a deny-list
 * check over the syntax tree of the generated code, and the extraction of the code from
 * a markdown-fenced model reply.
 *
 * Parsing (`ast.parse`) is not modelled: it is a parameter `parse` that either fails
 * (a `SyntaxError`) or yields the tree. The tree keeps only the node shapes the checks
 * look at; every other node is `Other` with its child nodes.
 */
module Validator {
  import opened Wrappers
  import opened Text

  datatype Tree =
    | Import(names: seq<string>)                               // import a.b, c
    | ImportFrom(source: Option<string>, names: seq<string>)   // from m import a, b
    | Call(func: Tree, args: seq<Tree>)                        // func(args..., key=args...)
    | Name(id: string)
    | Attribute(value: Tree, attr: string)                     // value.attr
    | Other(children: seq<Tree>)                               // any other node (Module, Assign, ...)

  type Parser = string -> Option<Tree>

  /** The result of `validate`: `(is_safe, reason)`. */
  datatype Verdict = Verdict(isSafe: bool, reason: string)

  const BlockedImports: seq<string> := ["os", "sys", "subprocess", "shutil", "pickle", "importlib"]
  const BlockedCalls: seq<string> := ["open", "eval", "exec", "compile", "input", "exit", "quit"]

  const SyntaxErrorReason := "Syntax Error in generated code"
  const SafeReason := "Code is safe"
  const BlockedImportPrefix := "Blocked import: "
  const BlockedCallPrefix := "Blocked function call: "
  const BlockedAttributePrefix := "Blocked attribute call on: "

  // ---------------------------------------------------------------------------
  // The tree and its breadth-first walk (`ast.walk`)
  // ---------------------------------------------------------------------------

  /** The direct child nodes of `t`, in the order `ast.iter_child_nodes` yields them. */
  function Children(t: Tree): seq<Tree> {
    match t
    case Call(f, args) => [f] + args
    case Attribute(v, _) => [v]
    case Other(cs) => cs
    case _ => []
  }

  function Size(t: Tree): nat
    decreases t
  {
    match t
    case Call(f, args) => 1 + Size(f) + SizeAll(args)
    case Attribute(v, _) => 1 + Size(v)
    case Other(cs) => 1 + SizeAll(cs)
    case _ => 1
  }

  function SizeAll(ts: seq<Tree>): nat
    decreases ts
  {
    if ts == [] then 0 else Size(ts[0]) + SizeAll(ts[1..])
  }

  lemma {:induction false} SizeAllAppend(a: seq<Tree>, b: seq<Tree>)
    ensures SizeAll(a + b) == SizeAll(a) + SizeAll(b)
  {
    if a == [] {
      assert a + b == b;
    } else {
      assert (a + b)[1..] == a[1..] + b;
      SizeAllAppend(a[1..], b);
    }
  }

  lemma SizeChildren(t: Tree)
    ensures Size(t) == 1 + SizeAll(Children(t))
  {
    match t
    case Call(f, args) =>
      SizeAllAppend([f], args);
      assert ([f] + args)[0] == f;
    case Attribute(v, _) =>
    case Other(cs) =>
    case _ =>
  }

  /** `ast.walk`: nodes in breadth-first order, taking them from the front of a queue
      and appending their children at the back. */
  function Walk(todo: seq<Tree>): seq<Tree>
    decreases SizeAll(todo)
  {
    if todo == [] then []
    else
      SizeAllAppend(todo[1..], Children(todo[0]));
      SizeChildren(todo[0]);
      [todo[0]] + Walk(todo[1..] + Children(todo[0]))
  }

  /** The walk yields one entry per node of the queued trees. */
  lemma {:induction false} WalkLength(todo: seq<Tree>)
    ensures |Walk(todo)| == SizeAll(todo)
    decreases SizeAll(todo)
  {
    if todo != [] {
      SizeAllAppend(todo[1..], Children(todo[0]));
      SizeChildren(todo[0]);
      WalkLength(todo[1..] + Children(todo[0]));
    }
  }

  /** `s` is `t` or a node somewhere below it. */
  ghost predicate IsSubtree(s: Tree, t: Tree)
    decreases t
  {
    s == t ||
    match t
    case Call(f, args) => IsSubtree(s, f) || exists a :: a in args && IsSubtree(s, a)
    case Attribute(v, _) => IsSubtree(s, v)
    case Other(cs) => exists c :: c in cs && IsSubtree(s, c)
    case _ => false
  }

  lemma ChildSubtree(s: Tree, t: Tree, c: Tree)
    requires c in Children(t) && IsSubtree(s, c)
    ensures IsSubtree(s, t)
  {
    match t
    case Call(f, args) =>
      if c != f { assert c in args; }
    case Attribute(v, _) =>
    case Other(cs) =>
    case _ =>
  }

  lemma SubtreeChild(s: Tree, t: Tree)
    requires IsSubtree(s, t) && s != t
    ensures exists c :: c in Children(t) && IsSubtree(s, c)
  {
    match t
    case Call(f, args) =>
      if IsSubtree(s, f) {
        assert f in Children(t);
      } else {
        var a :| a in args && IsSubtree(s, a);
        assert a in Children(t);
      }
    case Attribute(v, _) =>
      assert v in Children(t);
    case Other(cs) =>
    case _ =>
  }

  /** The walk visits every node below every queued tree. */
  lemma {:induction false} WalkComplete(todo: seq<Tree>, t: Tree, s: Tree)
    requires t in todo && IsSubtree(s, t)
    ensures s in Walk(todo)
    decreases SizeAll(todo)
  {
    var rest := todo[1..] + Children(todo[0]);
    SizeAllAppend(todo[1..], Children(todo[0]));
    SizeChildren(todo[0]);
    assert Walk(todo) == [todo[0]] + Walk(rest);
    if s == todo[0] {
    } else if t == todo[0] {
      SubtreeChild(s, t);
      var c :| c in Children(t) && IsSubtree(s, c);
      WalkComplete(rest, c, s);
    } else {
      assert t in todo[1..];
      WalkComplete(rest, t, s);
    }
  }

  /** The walk visits nothing but nodes below the queued trees. */
  lemma {:induction false} WalkSound(todo: seq<Tree>, s: Tree)
    requires s in Walk(todo)
    ensures exists t :: t in todo && IsSubtree(s, t)
    decreases SizeAll(todo)
  {
    var rest := todo[1..] + Children(todo[0]);
    SizeAllAppend(todo[1..], Children(todo[0]));
    SizeChildren(todo[0]);
    assert Walk(todo) == [todo[0]] + Walk(rest);
    if s == todo[0] {
      assert IsSubtree(s, todo[0]);
    } else {
      WalkSound(rest, s);
      var t :| t in rest && IsSubtree(s, t);
      if t in todo[1..] {
      } else {
        ChildSubtree(s, todo[0], t);
      }
    }
  }

  // ---------------------------------------------------------------------------
  // The checks on one node, and validate
  // ---------------------------------------------------------------------------

  /** Python's `name.split('.')[0]`. */
  function FirstComponent(name: string): (r: string)
    ensures StartsWith(name, r) && '.' !in r
    ensures |r| < |name| ==> name[|r|] == '.'
  {
    if name == [] || name[0] == '.' then [] else [name[0]] + FirstComponent(name[1..])
  }

  lemma {:induction false} FirstComponentNoDot(name: string)
    requires '.' !in name
    ensures FirstComponent(name) == name
  {
    if name != [] {
      assert '.' !in name[1..] by { assert forall i :: 0 <= i < |name[1..]| ==> name[1..][i] == name[i + 1]; }
      FirstComponentNoDot(name[1..]);
    }
  }

  predicate IsBlockedAlias(name: string) {
    FirstComponent(name) in BlockedImports
  }

  /** The reason for the first blocked alias of an import statement, if any. */
  function FirstBlockedAlias(names: seq<string>): (r: Option<string>)
    ensures r.None? <==> forall i :: 0 <= i < |names| ==> !IsBlockedAlias(names[i])
    ensures r.Some? ==> exists i :: (0 <= i < |names| && IsBlockedAlias(names[i])
      && r.value == BlockedImportPrefix + names[i]
      && forall j :: 0 <= j < i ==> !IsBlockedAlias(names[j]))
  {
    if names == [] then None
    else if IsBlockedAlias(names[0]) then Some(BlockedImportPrefix + names[0])
    else
      var r := FirstBlockedAlias(names[1..]);
      assert forall i :: 1 <= i < |names| ==> names[i] == names[1..][i - 1];
      r
  }

  /** What `validate` reports about one node, if the node breaks the policy. */
  function NodeViolation(n: Tree): (r: Option<string>)
    ensures !(n.Import? || n.ImportFrom? || n.Call?) ==> r.None?
  {
    match n
    case Import(names) => FirstBlockedAlias(names)
    case ImportFrom(_, names) => FirstBlockedAlias(names)
    case Call(Name(id), _) =>
      if id in BlockedCalls then Some(BlockedCallPrefix + id) else None
    case Call(Attribute(Name(id), _), _) =>
      if id in BlockedImports then Some(BlockedAttributePrefix + id) else None
    case _ => None
  }

  /** An import's reason names a blocked import, a call's a blocked function or a blocked receiver. */
  lemma ViolationKinds(n: Tree)
    ensures NodeViolation(n).Some? && (n.Import? || n.ImportFrom?) ==>
      StartsWith(NodeViolation(n).value, BlockedImportPrefix)
    ensures NodeViolation(n).Some? && n.Call? ==>
      StartsWith(NodeViolation(n).value, BlockedCallPrefix) || StartsWith(NodeViolation(n).value, BlockedAttributePrefix)
  {
  }

  /** The violation of the first violating node, in the order given. */
  function FirstViolation(nodes: seq<Tree>): (r: Option<string>)
    ensures r.None? <==> forall i :: 0 <= i < |nodes| ==> NodeViolation(nodes[i]).None?
    ensures r.Some? ==> exists i :: (0 <= i < |nodes| && NodeViolation(nodes[i]) == r
      && forall j :: 0 <= j < i ==> NodeViolation(nodes[j]).None?)
  {
    if nodes == [] then None
    else if NodeViolation(nodes[0]).Some? then NodeViolation(nodes[0])
    else
      var r := FirstViolation(nodes[1..]);
      assert forall i :: 1 <= i < |nodes| ==> nodes[i] == nodes[1..][i - 1];
      r
  }

  /** `QueryValidator.validate`. */
  function Validate(code: string, parse: Parser): (v: Verdict)
    ensures parse(code).None? ==> v == Verdict(false, SyntaxErrorReason)
    ensures v.isSafe ==> v.reason == SafeReason
    ensures !v.isSafe ==> |v.reason| > 0
  {
    match parse(code)
    case None => Verdict(false, SyntaxErrorReason)
    case Some(tree) =>
      match FirstViolation(Walk([tree]))
      case Some(reason) =>
        assert exists i :: 0 <= i < |Walk([tree])| && NodeViolation(Walk([tree])[i]) == Some(reason);
        ViolationNonEmpty(Walk([tree]));
        Verdict(false, reason)
      case None => Verdict(true, SafeReason)
  }

  lemma ViolationNonEmpty(nodes: seq<Tree>)
    ensures forall i :: 0 <= i < |nodes| && NodeViolation(nodes[i]).Some? ==> |NodeViolation(nodes[i]).value| > 0
  {
  }

  // ---------------------------------------------------------------------------
  // What validate means
  // ---------------------------------------------------------------------------

  /** Code that parses is safe exactly when no node anywhere in its tree breaks the policy:
      the breadth-first walk misses no node and visits no foreign one. */
  lemma ValidateSafeIff(code: string, parse: Parser, tree: Tree)
    requires parse(code) == Some(tree)
    ensures Validate(code, parse).isSafe <==> forall s :: IsSubtree(s, tree) ==> NodeViolation(s).None?
  {
    var w := Walk([tree]);
    if Validate(code, parse).isSafe {
      forall s | IsSubtree(s, tree) ensures NodeViolation(s).None? {
        WalkComplete([tree], tree, s);
        var i :| 0 <= i < |w| && w[i] == s;
      }
    } else {
      var i :| 0 <= i < |w| && NodeViolation(w[i]).Some?;
      WalkSound([tree], w[i]);
    }
  }

  /** A rejection of parsed code reports the violation of the first violating node in walk order. */
  lemma ValidateReportsFirstInWalk(code: string, parse: Parser, tree: Tree)
    requires parse(code) == Some(tree) && !Validate(code, parse).isSafe
    ensures exists i :: (0 <= i < |Walk([tree])|
      && NodeViolation(Walk([tree])[i]) == Some(Validate(code, parse).reason)
      && forall j :: 0 <= j < i ==> NodeViolation(Walk([tree])[j]).None?)
  {
  }

  /** An import anywhere in the tree whose alias has a blocked first component rejects the code. */
  lemma BlockedImportRejected(code: string, parse: Parser, tree: Tree, stmt: Tree, k: nat)
    requires parse(code) == Some(tree) && IsSubtree(stmt, tree)
    requires stmt.Import? || stmt.ImportFrom?
    requires k < |stmt.names| && FirstComponent(stmt.names[k]) in BlockedImports
    ensures !Validate(code, parse).isSafe
  {
    assert IsBlockedAlias(stmt.names[k]);
    assert NodeViolation(stmt).Some?;
    ValidateSafeIff(code, parse, tree);
  }

  /** A call anywhere in the tree of a bare blocked name rejects the code. */
  lemma BlockedCallRejected(code: string, parse: Parser, tree: Tree, id: string, args: seq<Tree>)
    requires parse(code) == Some(tree) && IsSubtree(Call(Name(id), args), tree)
    requires id in BlockedCalls
    ensures !Validate(code, parse).isSafe
  {
    assert NodeViolation(Call(Name(id), args)).Some?;
    ValidateSafeIff(code, parse, tree);
  }

  /** A call `m.attr(...)` anywhere in the tree, with `m` a bare blocked module name, rejects the code. */
  lemma BlockedAttributeCallRejected(code: string, parse: Parser, tree: Tree, id: string, attr: string, args: seq<Tree>)
    requires parse(code) == Some(tree) && IsSubtree(Call(Attribute(Name(id), attr), args), tree)
    requires id in BlockedImports
    ensures !Validate(code, parse).isSafe
  {
    assert NodeViolation(Call(Attribute(Name(id), attr), args)).Some?;
    ValidateSafeIff(code, parse, tree);
  }

  /** The empty string parses to an empty module, so it is accepted. */
  lemma EmptyCodeIsSafe(parse: Parser)
    requires parse("") == Some(Other([]))
    ensures Validate("", parse) == Verdict(true, SafeReason)
  {
    assert Walk([Other([])]) == [Other([])] by {
      assert Walk([Other([])]) == [Other([])] + Walk([]);
    }
  }

  /** `import os; result = os.system('rm -rf /')` is reported for its import, which the walk meets first. */
  lemma ImportReportedBeforeAttributeCall(code: string, parse: Parser)
    requires parse(code) == Some(Other([Import(["os"]),
                   Other([Name("result"), Call(Attribute(Name("os"), "system"), [Other([])])])]))
    ensures Validate(code, parse) == Verdict(false, "Blocked import: os")
  {
    var assign := Other([Name("result"), Call(Attribute(Name("os"), "system"), [Other([])])]);
    var tree := Other([Import(["os"]), assign]);
    assert [tree][1..] + Children(tree) == [Import(["os"]), assign];
    assert Walk([tree]) == [tree] + Walk([Import(["os"]), assign]);
    assert Walk([Import(["os"]), assign])[0] == Import(["os"]);
    FirstComponentNoDot("os");
  }

  /** A computable check that no node of `t` breaks the policy. */
  predicate TreeClean(t: Tree)
    decreases t
  {
    NodeViolation(t).None? &&
    match t
    case Call(f, args) => TreeClean(f) && forall a :: a in args ==> TreeClean(a)
    case Attribute(v, _) => TreeClean(v)
    case Other(cs) => forall c :: c in cs ==> TreeClean(c)
    case _ => true
  }

  lemma {:induction false} TreeCleanSound(s: Tree, t: Tree)
    requires TreeClean(t) && IsSubtree(s, t)
    ensures NodeViolation(s).None?
    decreases t
  {
    if s != t {
      match t
      case Call(f, args) =>
        if IsSubtree(s, f) { TreeCleanSound(s, f); }
        else { var a :| a in args && IsSubtree(s, a); TreeCleanSound(s, a); }
      case Attribute(v, _) => TreeCleanSound(s, v);
      case Other(cs) => var c :| c in cs && IsSubtree(s, c); TreeCleanSound(s, c);
    }
  }

  lemma CleanTreeAccepted(code: string, parse: Parser, tree: Tree)
    requires parse(code) == Some(tree) && TreeClean(tree)
    ensures Validate(code, parse) == Verdict(true, SafeReason)
  {
    forall s | IsSubtree(s, tree) ensures NodeViolation(s).None? { TreeCleanSound(s, tree); }
    ValidateSafeIff(code, parse, tree);
  }

  /** The tree of `from os import system; system('ls')` breaks no rule. */
  lemma FromOsImportSystemClean()
    ensures TreeClean(Other([ImportFrom(Some("os"), ["system"]), Other([Call(Name("system"), [Other([])])])]))
  {
    FromClean();
    SystemCallClean();
    PairClean(ImportFrom(Some("os"), ["system"]), Other([Call(Name("system"), [Other([])])]));
  }

  lemma SystemCallClean()
    ensures TreeClean(Other([Call(Name("system"), [Other([])])]))
  {
  }

  lemma PairClean(a: Tree, b: Tree)
    requires TreeClean(a) && TreeClean(b)
    ensures TreeClean(Other([a, b]))
  {
  }

  lemma FromClean()
    ensures TreeClean(ImportFrom(Some("os"), ["system"]))
  {
    FirstComponentNoDot("system");
    assert FirstBlockedAlias(["system"]).None?;
  }

  /** `from os import system; system('ls')` is accepted: only the alias `system` is inspected, never the module. */
  lemma FromImportOfBlockedModuleAccepted(code: string, parse: Parser)
    requires parse(code) == Some(Other([ImportFrom(Some("os"), ["system"]), Other([Call(Name("system"), [Other([])])])]))
    ensures Validate(code, parse) == Verdict(true, SafeReason)
  {
    FromOsImportSystemClean();
    CleanTreeAccepted(code, parse, Other([ImportFrom(Some("os"), ["system"]), Other([Call(Name("system"), [Other([])])])]));
  }

  /** `result = os.path.join('a')` is accepted: the receiver `os.path` is not a bare name. */
  lemma DeepReceiverChainAccepted(code: string, parse: Parser)
    requires parse(code) == Some(Other([Other([Name("result"),
                   Call(Attribute(Attribute(Name("os"), "path"), "join"), [Other([])])])]))
    ensures Validate(code, parse) == Verdict(true, SafeReason)
  {
    CleanTreeAccepted(code, parse, Other([Other([Name("result"),
                   Call(Attribute(Attribute(Name("os"), "path"), "join"), [Other([])])])]));
  }

  /** `result = np.mean(df1['BMI'])` is accepted: attribute calls on library handles pass. */
  lemma LibraryAttributeCallAccepted(code: string, parse: Parser)
    requires parse(code) == Some(Other([Other([Name("result"),
                   Call(Attribute(Name("np"), "mean"), [Other([Name("df1"), Other([])])])])]))
    ensures Validate(code, parse) == Verdict(true, SafeReason)
  {
    CleanTreeAccepted(code, parse, Other([Other([Name("result"),
                   Call(Attribute(Name("np"), "mean"), [Other([Name("df1"), Other([])])])])]));
  }

  /** `with open('/etc/passwd', 'r') as f: ...` is rejected for the call to `open`. */
  lemma OpenCallRejected(code: string, parse: Parser, rest: seq<Tree>)
    requires parse(code) == Some(Other([Other([Call(Name("open"), [Other([]), Other([])])] + rest)]))
    ensures !Validate(code, parse).isSafe
  {
    var call := Call(Name("open"), [Other([]), Other([])]);
    var with := Other([call] + rest);
    var tree := Other([with]);
    assert call in [call] + rest;
    assert IsSubtree(call, with);
    assert with in [with];
    assert IsSubtree(call, tree);
    BlockedCallRejected(code, parse, tree, "open", [Other([]), Other([])]);
  }

  // ---------------------------------------------------------------------------
  // clean_code: the fenced block of a model reply
  // ---------------------------------------------------------------------------

  const PythonFence := "```python"
  const Fence := "```"

  /** The index just past the blanks that start at `k` (the regex's greedy `\s*`). */
  function SkipSpaces(s: string, k: nat): (r: nat)
    requires k <= |s|
    ensures k <= r <= |s|
    ensures forall i :: k <= i < r ==> IsSpace(s[i])
    ensures r < |s| ==> !IsSpace(s[r])
  {
    k + LeadingSpaces(s[k..])
  }

  /** A fenced block can start at `i`: `opener` occurs there and a closing fence follows it. */
  ghost predicate Opens(s: string, opener: string, i: nat) {
    OccursAt(s, opener, i) && exists j: nat :: i + |opener| <= j && OccursAt(s, Fence, j)
  }

  /** The span `(k, j)` of group 1 of `re.search(opener + r"\s*(.*?)```", s, re.DOTALL)`, searching
      from `from`: the leftmost opener that is followed by a closing fence; from past its blanks up
      to the first closing fence after it. */
  function FencedSpan(s: string, opener: string, from: nat): (r: Option<(nat, nat)>)
    decreases |s| - from
    ensures r.Some? ==> r.value.0 <= r.value.1 <= |s|
  {
    if from + |opener| > |s| then None
    else if s[from..from + |opener|] == opener then
      var k := SkipSpaces(s, from + |opener|);
      match IndexOf(s, Fence, k)
      case Some(j) => Some((k, j))
      case None => FencedSpan(s, opener, from + 1)
    else FencedSpan(s, opener, from + 1)
  }

  /** What the search finds: a span ending at the first fence after its start, past the blanks of
      the leftmost opener (at or after `from`) that has a closing fence after it; none when there is
      no such opener. */
  lemma {:induction false} FencedSpanSpec(s: string, opener: string, from: nat)
    decreases |s| - from
    ensures var r := FencedSpan(s, opener, from);
      && (r.Some? ==> OccursAt(s, Fence, r.value.1))
      && (r.Some? ==> forall p: nat :: r.value.0 <= p < r.value.1 ==> !OccursAt(s, Fence, p))
      && (r.Some? ==> exists i: nat :: (from <= i && Opens(s, opener, i)
            && r.value.0 == SkipSpaces(s, i + |opener|)
            && forall i': nat :: from <= i' < i ==> !Opens(s, opener, i')))
      && (r.None? <==> forall i: nat :: from <= i ==> !Opens(s, opener, i))
  {
    if from + |opener| > |s| {
    } else if s[from..from + |opener|] == opener {
      var k := SkipSpaces(s, from + |opener|);
      match IndexOf(s, Fence, k)
      case Some(j) =>
        assert Opens(s, opener, from) by { assert from + |opener| <= j && OccursAt(s, Fence, j); }
      case None =>
        NoFenceAfterBlanks(s, opener, from, k);
        FencedSpanSpec(s, opener, from + 1);
        SkipOpener(s, opener, from, FencedSpan(s, opener, from + 1));
    } else {
      FencedSpanSpec(s, opener, from + 1);
      SkipOpener(s, opener, from, FencedSpan(s, opener, from + 1));
    }
  }

  /** An opener at `from` with no fence past its blanks opens no block there. */
  lemma NoFenceAfterBlanks(s: string, opener: string, from: nat, k: nat)
    requires from + |opener| <= k <= |s| && forall i :: from + |opener| <= i < k ==> IsSpace(s[i])
    requires IndexOf(s, Fence, k).None?
    ensures !Opens(s, opener, from)
  {
    forall j: nat | from + |opener| <= j < k ensures !OccursAt(s, Fence, j) {
      assert IsSpace(s[j]);
    }
  }

  /** No block opening at `from`, the search from `from` is the search from `from + 1`. */
  lemma SkipOpener(s: string, opener: string, from: nat, r: Option<(nat, nat)>)
    requires !Opens(s, opener, from)
    requires r.Some? ==> exists i: nat :: (from + 1 <= i && Opens(s, opener, i)
      && r.value.0 == SkipSpaces(s, i + |opener|)
      && forall i': nat :: from + 1 <= i' < i ==> !Opens(s, opener, i'))
    requires r.None? <==> forall i: nat :: from + 1 <= i ==> !Opens(s, opener, i)
    ensures r.Some? ==> exists i: nat :: (from <= i && Opens(s, opener, i)
      && r.value.0 == SkipSpaces(s, i + |opener|)
      && forall i': nat :: from <= i' < i ==> !Opens(s, opener, i'))
    ensures r.None? <==> forall i: nat :: from <= i ==> !Opens(s, opener, i)
  {
    if r.Some? {
      var i: nat :| from + 1 <= i && Opens(s, opener, i) && r.value.0 == SkipSpaces(s, i + |opener|)
        && forall i': nat :: from + 1 <= i' < i ==> !Opens(s, opener, i');
      assert forall i': nat :: from <= i' < i ==> !Opens(s, opener, i');
    }
  }

  /** Group 1 of the leftmost fenced block opened by `opener`, if there is one. */
  function FencedBlock(s: string, opener: string): Option<string> {
    match FencedSpan(s, opener, 0)
    case Some((k, j)) => Some(s[k..j])
    case None => None
  }

  /** `QueryValidator.clean_code`: the stripped body of the first ```` ```python ```` block, else of the
      first bare ```` ``` ```` block, else the whole reply stripped. */
  function CleanCode(reply: string): (code: string)
    ensures |code| <= |reply|
  {
    match FencedBlock(reply, PythonFence)
    case Some(body) => Strip(body)
    case None =>
      match FencedBlock(reply, Fence)
      case Some(body) => Strip(body)
      case None => Strip(reply)
  }

  /** The search settles on the leftmost opener that has a closing fence after it. */
  lemma LeftmostSpan(s: string, opener: string, i0: nat)
    requires Opens(s, opener, i0) && forall i': nat :: i' < i0 ==> !Opens(s, opener, i')
    ensures FencedSpan(s, opener, 0).Some?
    ensures i0 + |opener| <= |s| && FencedSpan(s, opener, 0).value.0 == SkipSpaces(s, i0 + |opener|)
  {
    FencedSpanSpec(s, opener, 0);
    var i: nat :| Opens(s, opener, i) && FencedSpan(s, opener, 0).value.0 == SkipSpaces(s, i + |opener|)
      && forall i': nat :: 0 <= i' < i ==> !Opens(s, opener, i');
    assert i == i0;
  }

  /** The block ends at the first fence after its start. */
  lemma SpanEndsAt(s: string, opener: string, j0: nat)
    requires FencedSpan(s, opener, 0).Some?
    requires FencedSpan(s, opener, 0).value.0 <= j0 && OccursAt(s, Fence, j0)
    requires forall p :: FencedSpan(s, opener, 0).value.0 <= p < j0 ==> s[p] != '`'
    ensures FencedSpan(s, opener, 0).value.1 == j0
  {
    FencedSpanSpec(s, opener, 0);
    OccursAtStart(s, Fence, FencedSpan(s, opener, 0).value.1);
  }

  lemma OccursAtStart(s: string, pat: string, j: nat)
    requires OccursAt(s, pat, j) && |pat| > 0
    ensures j < |s| && s[j] == pat[0]
  {
    assert s[j..j + |pat|][0] == s[j];
  }

  /** The leftmost block, when no backtick lies between its opener and the fence at `j0`, is found:
      it starts past the blanks after the opener and ends at `j0`. */
  lemma SpanOfBlock(s: string, opener: string, i0: nat, j0: nat)
    requires Opens(s, opener, i0) && forall i': nat :: i' < i0 ==> !Opens(s, opener, i')
    requires i0 + |opener| <= j0 && OccursAt(s, Fence, j0)
    requires forall p :: i0 + |opener| <= p < j0 ==> s[p] != '`'
    ensures FencedSpan(s, opener, 0).Some?
    ensures FencedSpan(s, opener, 0).value.1 == j0
    ensures i0 + |opener| <= FencedSpan(s, opener, 0).value.0 <= j0
    ensures forall i :: i0 + |opener| <= i < FencedSpan(s, opener, 0).value.0 ==> IsSpace(s[i])
  {
    LeftmostSpan(s, opener, i0);
    var k := FencedSpan(s, opener, 0).value.0;
    OccursAtStart(s, Fence, j0);
    SpanEndsAt(s, opener, j0);
  }

  /** In a reply `pre + opener + body + Fence + post` with no backtick in `pre` or `body`, the opener
      after `pre` starts the leftmost block and no backtick lies between it and the fence after `body`. */
  lemma SingleBlockLayout(s: string, pre: string, opener: string, body: string, post: string)
    requires s == pre + opener + body + Fence + post
    requires '`' !in pre && '`' !in body && |opener| > 0 && opener[0] == '`'
    ensures Opens(s, opener, |pre|) && forall i': nat :: i' < |pre| ==> !Opens(s, opener, i')
    ensures OccursAt(s, Fence, |pre| + |opener| + |body|)
    ensures forall p :: |pre| + |opener| <= p < |pre| + |opener| + |body| ==> s[p] != '`'
    ensures s[|pre| + |opener|..|pre| + |opener| + |body|] == body
  {
    SingleBlockOpens(s, pre, opener, body, post);
    BodyPositions(s, pre, opener, body, post);
  }

  /** The text from past the blanks to the end of the body strips to the body's. */
  lemma BlockStripsToBody(s: string, c: nat, body: string, k: nat)
    requires c <= k <= c + |body| <= |s| && s[c..c + |body|] == body
    requires forall i :: c <= i < k ==> IsSpace(s[i])
    ensures Strip(s[k..c + |body|]) == Strip(body)
  {
    var n := k - c;
    assert s[k..c + |body|] == body[n..];
    forall i | 0 <= i < n ensures IsSpace(body[i]) {
      assert body[i] == s[c + i];
    }
    StripSkipsLeadingSpaces(body, n);
  }

  /** In such a reply the opener after `pre` opens a block, and no earlier position does. */
  lemma SingleBlockOpens(s: string, pre: string, opener: string, body: string, post: string)
    requires s == pre + opener + body + Fence + post
    requires '`' !in pre && |opener| > 0 && opener[0] == '`'
    ensures Opens(s, opener, |pre|)
    ensures forall i': nat :: i' < |pre| ==> !Opens(s, opener, i')
  {
    var j0 := |pre| + |opener| + |body|;
    assert s[|pre|..|pre| + |opener|] == opener;
    assert s[j0..j0 + 3] == Fence;
    assert OccursAt(s, opener, |pre|) && |pre| + |opener| <= j0 && OccursAt(s, Fence, j0);
    forall i': nat | i' < |pre| ensures !Opens(s, opener, i') {
      assert s[i'] == pre[i'];
      if OccursAt(s, opener, i') {
        OccursAtStart(s, opener, i');
      }
    }
  }

  /** Where the body sits in such a reply, and the fence right after it. */
  lemma BodyPositions(s: string, pre: string, opener: string, body: string, post: string)
    requires s == pre + opener + body + Fence + post
    ensures forall p :: |pre| + |opener| <= p < |pre| + |opener| + |body| ==> s[p] == body[p - |pre| - |opener|]
    ensures s[|pre| + |opener|..|pre| + |opener| + |body|] == body
    ensures OccursAt(s, Fence, |pre| + |opener| + |body|)
  {
    var j0 := |pre| + |opener| + |body|;
    assert s[j0..j0 + 3] == Fence;
  }


  /** The leftmost block, when it ends at the fence right after `body` with no backtick before
      that fence, strips to the body's. */
  lemma SingleBlockStrips(s: string, opener: string, i0: nat, body: string)
    requires Opens(s, opener, i0) && forall i': nat :: i' < i0 ==> !Opens(s, opener, i')
    requires OccursAt(s, Fence, i0 + |opener| + |body|)
    requires forall p :: i0 + |opener| <= p < i0 + |opener| + |body| ==> s[p] != '`'
    requires s[i0 + |opener|..i0 + |opener| + |body|] == body
    ensures FencedBlock(s, opener).Some? && Strip(FencedBlock(s, opener).value) == Strip(body)
  {
    var c := i0 + |opener|;
    SpanOfBlock(s, opener, i0, c + |body|);
    BlockFromSpan(s, opener, c, body, FencedSpan(s, opener, 0).value.0);
  }

  /** A span that starts past blanks after `c` and ends where `body` does gives a block that strips to the body's. */
  lemma BlockFromSpan(s: string, opener: string, c: nat, body: string, k: nat)
    requires FencedSpan(s, opener, 0) == Some((k, c + |body|))
    requires c <= k <= c + |body| <= |s| && forall i :: c <= i < k ==> IsSpace(s[i])
    requires s[c..c + |body|] == body
    ensures FencedBlock(s, opener).Some? && Strip(FencedBlock(s, opener).value) == Strip(body)
  {
    BlockOfSpan(s, opener, k, c + |body|);
    BlockStripsToBody(s, c, body, k);
  }

  /** The block is the text of the span. */
  lemma BlockOfSpan(s: string, opener: string, k: nat, j: nat)
    requires FencedSpan(s, opener, 0) == Some((k, j))
    ensures FencedBlock(s, opener) == Some(s[k..j])
  {
  }

  /** A reply holding one python block, with no backtick before it or inside it, gives back that block's code stripped. */
  lemma ExtractsSingleBlock(pre: string, body: string, post: string)
    requires '`' !in pre && '`' !in body
    ensures CleanCode(pre + PythonFence + body + Fence + post) == Strip(body)
  {
    var s := pre + PythonFence + body + Fence + post;
    SingleBlockLayout(s, pre, PythonFence, body, post);
    SingleBlockStrips(s, PythonFence, |pre|, body);
  }

  /** Where the backticks of `pre + Fence + body + Fence + post` can be, when none of the three texts holds one. */
  lemma BareLayoutBackticks(s: string, pre: string, body: string, post: string)
    requires s == pre + Fence + body + Fence + post
    requires '`' !in pre && '`' !in body && '`' !in post
    ensures forall p :: 0 <= p < |s| ==> (s[p] == '`' <==>
      (|pre| <= p < |pre| + 3 || |pre| + 3 + |body| <= p < |pre| + 6 + |body|))
  {
  }

  /** The characters of an occurrence, one by one. */
  lemma OccursAtChars(s: string, pat: string, i: nat)
    requires OccursAt(s, pat, i)
    ensures forall k :: 0 <= k < |pat| ==> s[i + k] == pat[k]
  {
    forall k | 0 <= k < |pat| ensures s[i + k] == pat[k] {
      assert s[i..i + |pat|][k] == s[i + k];
    }
  }

  /** With backticks only in the two fences at `c` and `j0`, and no `python` right after the first
      one, no python block opens at `i`. */
  lemma NoPythonOpensAt(s: string, c: nat, j0: nat, i: nat)
    requires c + 3 <= j0 && j0 + 3 <= |s|
    requires forall p :: 0 <= p < |s| ==> (s[p] == '`' <==> (c <= p < c + 3 || j0 <= p < j0 + 3))
    requires !(c + 9 <= j0 && s[c + 3..c + 9] == "python")
    ensures !Opens(s, PythonFence, i)
  {
    if Opens(s, PythonFence, i) {
      var j: nat :| i + 9 <= j && OccursAt(s, Fence, j);
      OccursAtChars(s, PythonFence, i);
      OccursAtStart(s, Fence, j);
      assert s[i] == '`';
      assert j0 <= j < j0 + 3;
      assert c <= i < c + 3;
      if i == c {
        PythonAfterFence(s, c, j0, j);
        assert false;
      } else {
        OccursAtChar(s, PythonFence, i, c + 3 - i);
        assert false;
      }
    }
  }

  /** A python opener at the first fence puts `python` in front of the body. */
  lemma PythonAfterFence(s: string, c: nat, j0: nat, j: nat)
    requires j0 + 3 <= |s| && c + 9 <= j < j0 + 3
    requires forall p :: 0 <= p < |s| ==> (s[p] == '`' <==> (c <= p < c + 3 || j0 <= p < j0 + 3))
    requires OccursAt(s, PythonFence, c)
    ensures c + 9 <= j0 && s[c + 3..c + 9] == "python"
  {
    OccursAtChars(s, PythonFence, c);
    forall k | 0 <= k < 6 ensures s[c + 3 + k] == "python"[k] && c + 3 + k < j0 {
      assert s[c + 3 + k] == PythonFence[3 + k];
    }
    var last := 5;
    assert s[c + 3 + last] == "python"[last];
  }

  lemma OccursAtChar(s: string, pat: string, i: nat, k: nat)
    requires OccursAt(s, pat, i) && k < |pat|
    ensures s[i + k] == pat[k]
  {
    assert s[i..i + |pat|][k] == s[i + k];
  }

  /** A bare block whose body does not start with `python` opens no python block. */
  lemma BareLayoutHasNoPythonBlock(s: string, pre: string, body: string, post: string)
    requires s == pre + Fence + body + Fence + post
    requires '`' !in pre && '`' !in body && '`' !in post && !StartsWith(body, "python")
    ensures FencedBlock(s, PythonFence).None?
  {
    var c := |pre|;
    var j0 := c + 3 + |body|;
    FencedSpanSpec(s, PythonFence, 0);
    BareLayoutBackticks(s, pre, body, post);
    if c + 9 <= j0 {
      assert s[c + 3..c + 9] == body[..6];
    }
    forall i: nat ensures !Opens(s, PythonFence, i) {
      NoPythonOpensAt(s, c, j0, i);
    }
  }

  /** A reply holding one bare block, with no backtick outside its fences and a body that does not
      start with `python`, gives back that block's code stripped. */
  lemma ExtractsBareBlock(pre: string, body: string, post: string)
    requires '`' !in pre && '`' !in body && '`' !in post && !StartsWith(body, "python")
    ensures CleanCode(pre + Fence + body + Fence + post) == Strip(body)
  {
    var s := pre + Fence + body + Fence + post;
    BareLayoutHasNoPythonBlock(s, pre, body, post);
    SingleBlockLayout(s, pre, Fence, body, post);
    SingleBlockStrips(s, Fence, |pre|, body);
  }

  /** A reply without any fence is returned stripped. */
  lemma UnfencedReplyStripped(reply: string)
    requires !Contains(reply, Fence)
    ensures CleanCode(reply) == Strip(reply)
  {
    NoFenceNoBlock(reply, PythonFence);
    NoFenceNoBlock(reply, Fence);
  }

  /** The reply holds a block that one of the two searches finds. */
  predicate HasFencedBlock(reply: string) {
    FencedBlock(reply, PythonFence).Some? || FencedBlock(reply, Fence).Some?
  }

  /** The body of a found block never contains a fence: it ends at the first closing one. */
  lemma BlockHasNoFence(s: string, opener: string)
    requires FencedBlock(s, opener).Some?
    ensures !Contains(FencedBlock(s, opener).value, Fence)
  {
    FencedSpanSpec(s, opener, 0);
    var (k, j) := FencedSpan(s, opener, 0).value;
    var b := s[k..j];
    if Contains(b, Fence) {
      var p := IndexOf(b, Fence, 0).value;
      OccursInSlice(s, Fence, k, j, p);
      assert false;
    }
  }

  /** On fenced input the extracted code contains no fence. */
  lemma CleanCodeHasNoFence(reply: string)
    requires HasFencedBlock(reply)
    ensures !Contains(CleanCode(reply), Fence)
  {
    if FencedBlock(reply, PythonFence).Some? {
      BlockHasNoFence(reply, PythonFence);
      StripNotContains(FencedBlock(reply, PythonFence).value, Fence);
    } else {
      BlockHasNoFence(reply, Fence);
      StripNotContains(FencedBlock(reply, Fence).value, Fence);
    }
  }

  /** Text without a fence holds no block. */
  lemma NoFenceNoBlock(s: string, opener: string)
    requires !Contains(s, Fence)
    ensures FencedBlock(s, opener).None?
  {
    FencedSpanSpec(s, opener, 0);
  }

  /** A slice of text without a block holds no block either. */
  lemma SliceHasNoBlock(s: string, opener: string, a: nat, b: nat)
    requires a <= b <= |s| && FencedBlock(s, opener).None?
    ensures FencedBlock(s[a..b], opener).None?
  {
    FencedSpanSpec(s, opener, 0);
    FencedSpanSpec(s[a..b], opener, 0);
    if FencedSpan(s[a..b], opener, 0).Some? {
      var i: nat :| Opens(s[a..b], opener, i);
      OpensInSlice(s, opener, a, b, i);
      assert false;
    }
  }

  /** A block that opens in a slice opens in the whole text. */
  lemma OpensInSlice(s: string, opener: string, a: nat, b: nat, i: nat)
    requires a <= b <= |s| && Opens(s[a..b], opener, i)
    ensures Opens(s, opener, a + i)
  {
    var t := s[a..b];
    var j: nat :| i + |opener| <= j && OccursAt(t, Fence, j);
    OccursInSlice(s, opener, a, b, i);
    OccursInSlice(s, Fence, a, b, j);
  }


  /** `clean_code` is idempotent. */
  lemma CleanCodeIdempotent(reply: string)
    ensures CleanCode(CleanCode(reply)) == CleanCode(reply)
  {
    var c := CleanCode(reply);
    if HasFencedBlock(reply) {
      CleanCodeHasNoFence(reply);
      NoFenceNoBlock(c, PythonFence);
      NoFenceNoBlock(c, Fence);
      var body := if FencedBlock(reply, PythonFence).Some? then FencedBlock(reply, PythonFence).value
                  else FencedBlock(reply, Fence).value;
      StripIdempotent(body);
    } else {
      StripSpec(reply);
      var a: nat, b: nat :| a <= b <= |reply| && c == reply[a..b];
      SliceHasNoBlock(reply, PythonFence, a, b);
      SliceHasNoBlock(reply, Fence, a, b);
      StripIdempotent(reply);
    }
  }
}
