/**
 * The declaration resolver: which function of the entry file becomes the
 * command. Only exported functions count; a default export wins, then a
 * function tagged `@command`.
 */
module Resolver {
  import opened Base
  import opened Model
  import opened Transformer
  import opened TransformerLemmas

  /** The two `console.warn` reports. */
  datatype Warning = NoFunctionDeclaration | NoExportedFunctionDeclaration

  function WarningMessage(w: Warning): string {
    match w
    case NoFunctionDeclaration => "No function declaration found"
    case NoExportedFunctionDeclaration => "No exported function declaration found"
  }

  /** `getExportedFunctionDeclarations`. */
  function ExportedFunctions(decls: seq<FunctionDecl>): (r: seq<FunctionDecl>)
    ensures forall d :: d in r ==> d in decls && d.isExported
    decreases |decls|
  {
    if decls == [] then []
    else (if decls[0].isExported then [decls[0]] else []) + ExportedFunctions(decls[1..])
  }

  /** Filtering works piecewise, so the exported functions keep their order. */
  lemma {:induction false} ExportedFunctionsAppend(a: seq<FunctionDecl>, b: seq<FunctionDecl>)
    ensures ExportedFunctions(a + b) == ExportedFunctions(a) + ExportedFunctions(b)
    decreases |a|
  {
    if a == [] {
      assert a + b == b;
    } else {
      assert (a + b)[0] == a[0] && (a + b)[1..] == a[1..] + b;
      ExportedFunctionsAppend(a[1..], b);
    }
  }

  /** Every exported function is kept. */
  lemma {:induction false} ExportedFunctionsKeeps(decls: seq<FunctionDecl>, i: nat)
    requires i < |decls| && decls[i].isExported
    ensures decls[i] in ExportedFunctions(decls)
    decreases |decls|
  {
    if i > 0 {
      ExportedFunctionsKeeps(decls[1..], i - 1);
      assert decls[1..][i - 1] == decls[i];
    }
  }

  /** `isTaged`: the last JSDoc block has a tag named `command`. */
  predicate IsTagged(decl: FunctionDecl) {
    GetJSDocTag(GetJSDoc(decl.jsDocs), ByName("command"), 0).Present?
  }

  /** The tags of the last JSDoc block, the only block the tools read. */
  function LastTags(decl: FunctionDecl): seq<JSDocTag>
    requires decl.jsDocs != []
  {
    decl.jsDocs[|decl.jsDocs| - 1].tags
  }

  /** A function is tagged exactly when its last JSDoc block holds an `@command` tag. */
  lemma IsTaggedIff(decl: FunctionDecl)
    ensures IsTagged(decl) <==>
      decl.jsDocs != [] && exists k :: 0 <= k < |LastTags(decl)| && LastTags(decl)[k].tagName == "command"
  {
    if decl.jsDocs != [] {
      var tags := LastTags(decl);
      if Filter(tags, ByName("command")) == [] {
        FilterEmpty(tags, ByName("command"));
      } else {
        var x := Filter(tags, ByName("command"))[0];
        FilterSound(tags, ByName("command"));
        assert x in tags && x.tagName == "command";
      }
    }
  }

  /** `sortFunctionDeclarations(prev, next)`. */
  function Compare(prev: FunctionDecl, next: FunctionDecl): (r: int)
    ensures -1 <= r <= 1
  {
    if prev.isDefaultExport || next.isDefaultExport then (if prev.isDefaultExport then -1 else 1)
    else if IsTagged(prev) && IsTagged(next) then 0
    else if IsTagged(prev) then -1
    else 1
  }

  /**
   * The comparator's cases: a default export goes first; between two other
   * functions only a tag decides, two tagged ones are equal, and two untagged
   * ones each claim to go second.
   */
  lemma CompareCases(a: FunctionDecl, b: FunctionDecl)
    ensures Compare(a, b) == -1 <==> a.isDefaultExport || (!b.isDefaultExport && IsTagged(a) && !IsTagged(b))
    ensures Compare(a, b) == 0 <==> !a.isDefaultExport && !b.isDefaultExport && IsTagged(a) && IsTagged(b)
    ensures !a.isDefaultExport && !b.isDefaultExport && !IsTagged(a) && !IsTagged(b) ==>
      Compare(a, b) == 1 && Compare(b, a) == 1
  {
  }

  /** How strongly a function claims to be the command: default export, then tagged, then the rest. */
  function Rank(d: FunctionDecl): nat {
    if d.isDefaultExport then 0 else if IsTagged(d) then 1 else 2
  }

  /** The comparator never puts a function of a worse rank first. */
  lemma CompareRespectsRank(a: FunctionDecl, b: FunctionDecl)
    ensures Compare(a, b) == -1 ==> Rank(a) <= Rank(b)
    ensures Rank(a) < Rank(b) ==> Compare(a, b) == -1 && Compare(b, a) == 1
  {
  }

  /** A rank-minimal choice is a default export if there is one, and otherwise a tagged function if there is one. */
  lemma MinimalRankChoice(s: seq<FunctionDecl>, i: nat)
    requires i < |s| && forall k :: 0 <= k < |s| ==> Rank(s[i]) <= Rank(s[k])
    ensures (exists k :: 0 <= k < |s| && s[k].isDefaultExport) ==> s[i].isDefaultExport
    ensures (exists k :: 0 <= k < |s| && IsTagged(s[k])) ==> s[i].isDefaultExport || IsTagged(s[i])
  {
    if exists k :: 0 <= k < |s| && s[k].isDefaultExport {
      var k :| 0 <= k < |s| && s[k].isDefaultExport;
      assert Rank(s[k]) == 0;
    }
    if exists k :: 0 <= k < |s| && IsTagged(s[k]) {
      var k :| 0 <= k < |s| && IsTagged(s[k]);
      assert Rank(s[k]) <= 1;
    }
  }

  /** The first element has the best rank of all. */
  predicate BestFirst(s: seq<FunctionDecl>) {
    s != [] && forall k :: 0 <= k < |s| ==> Rank(s[0]) <= Rank(s[k])
  }

  /** Swapping a best-ranked element to the front permutes the sequence and puts that element first. */
  lemma SwapToFront(s: seq<FunctionDecl>, best: nat)
    requires best < |s| && forall k :: 0 <= k < |s| ==> Rank(s[best]) <= Rank(s[k])
    ensures multiset(s[0 := s[best]][best := s[0]]) == multiset(s)
    ensures BestFirst(s[0 := s[best]][best := s[0]])
  {
    var t := s[0 := s[best]][best := s[0]];
    assert t[0] == s[best];
    forall k | 0 <= k < |s| ensures Rank(t[0]) <= Rank(t[k]) {
      if k == best {
        assert t[k] == s[0];
      } else if k != 0 {
        assert t[k] == s[k];
      }
    }
  }

  /** The scan for the first function of the best rank. */
  method BestIndex(a: array<FunctionDecl>) returns (best: nat)
    requires a.Length > 0
    ensures best < a.Length && forall k :: 0 <= k < a.Length ==> Rank(a[best]) <= Rank(a[k])
  {
    best := 0;
    var i := 1;
    while i < a.Length
      invariant 1 <= i <= a.Length && 0 <= best < i
      invariant forall k :: 0 <= k < i ==> Rank(a[best]) <= Rank(a[k])
    {
      if Rank(a[i]) < Rank(a[best]) {
        best := i;
      }
      i := i + 1;
    }
  }

  /** Swaps the element at `best` with the first one. */
  method SwapFront(a: array<FunctionDecl>, best: nat)
    requires best < a.Length
    modifies a
    ensures a[..] == old(a[..])[0 := old(a[best])][best := old(a[0])]
  {
    a[0], a[best] := a[best], a[0];
  }

  /**
   * `getFunctionDeclaration`: sorts the candidates in place and takes the
   * first. Modelled as moving the first candidate of the best rank to the
   * front, which is where any sort by `sortFunctionDeclarations` leaves one.
   */
  method GetFunctionDeclaration(a: array<FunctionDecl>) returns (r: Option<FunctionDecl>)
    modifies a
    ensures multiset(a[..]) == multiset(old(a[..]))
    ensures a.Length == 0 <==> r.None?
    ensures r.Some? ==> r.value == a[0] && BestFirst(a[..])
  {
    if a.Length == 0 {
      return None;
    }
    var best := BestIndex(a);
    ghost var s := a[..];
    assert forall k :: 0 <= k < |s| ==> Rank(s[best]) <= Rank(s[k]);
    SwapFront(a, best);
    SwapToFront(s, best);
    return Some(a[0]);
  }

  /** Copies the candidates into a fresh array, as `filter` returns a fresh one. */
  method ToArray(s: seq<FunctionDecl>) returns (a: array<FunctionDecl>)
    ensures fresh(a) && a[..] == s
  {
    a := new FunctionDecl[|s|](i requires 0 <= i < |s| => s[i]);
  }

  /**
   * `resolve`: nothing and a warning without functions or without exported
   * ones; the only exported function; otherwise a best-ranked exported one.
   */
  method Resolve(decls: seq<FunctionDecl>) returns (r: Option<FunctionDecl>, warnings: seq<Warning>)
    ensures decls == [] ==> r == None && warnings == [NoFunctionDeclaration]
    ensures decls != [] && ExportedFunctions(decls) == [] ==> r == None && warnings == [NoExportedFunctionDeclaration]
    ensures |ExportedFunctions(decls)| == 1 ==> r == Some(ExportedFunctions(decls)[0]) && warnings == []
    ensures |ExportedFunctions(decls)| > 1 ==>
      warnings == [] && r.Some? && r.value in ExportedFunctions(decls) &&
      forall d :: d in ExportedFunctions(decls) ==> Rank(r.value) <= Rank(d)
  {
    if |decls| == 0 {
      return None, [NoFunctionDeclaration];
    }
    var exported := ExportedFunctions(decls);
    if |exported| == 0 {
      return None, [NoExportedFunctionDeclaration];
    } else if |exported| == 1 {
      return Some(exported[0]), [];
    }
    var candidates := ToArray(exported);
    r := GetFunctionDeclaration(candidates);
    assert candidates[0] in multiset(candidates[..]);
    forall d | d in exported ensures Rank(r.value) <= Rank(d) {
      assert d in multiset(candidates[..]);
      var k :| 0 <= k < candidates.Length && candidates[k] == d;
    }
    warnings := [];
  }
}
