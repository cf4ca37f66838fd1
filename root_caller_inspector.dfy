/**
 * RootCallerInspector: for each keyword hit, climbs the call graph from the
 * hit's method to the root callers (methods nobody calls, or only the
 * dummyMain entry class calls), and records each root caller's call chain
 * once, together with the Activity or Fragment class it belongs to and that
 * class's layout resource id.
 */
module RootCallerInspector {
  import opened Wrappers
  import opened JavaString
  import opened Jimple
  import opened KeyTaintTags
  import KeywordInspector

  const ActivityClassName := "android.app.Activity"
  const FragmentClassName := "android.app.Fragment"
  const Undetermined := "UNDETERMINED"
  const SuperClassPrefix := 'S'

  /** The name of a class that manages content display. */
  predicate DisplayName(name: string)
  {
    Contains(name, ActivityClassName) || Contains(name, FragmentClassName)
  }

  /** The superclass chain of c ends (reaches a class without superclass) within n steps. */
  predicate ChainEnds(p: Program, c: ClassId, n: nat)
    decreases n
  {
    p.ClassAt(c).superclass.None? || (n > 0 && ChainEnds(p, p.ClassAt(c).superclass.value, n - 1))
  }

  /** c and its superclasses, nearest first, for at most n steps up. */
  function SuperChain(p: Program, c: ClassId, n: nat): seq<ClassId>
    decreases n
  {
    [c] + (if p.ClassAt(c).superclass.Some? && n > 0 then SuperChain(p, p.ClassAt(c).superclass.value, n - 1) else [])
  }

  /** isChildOfDisplayableClass, within n steps up the chain. */
  predicate Displayable(p: Program, c: ClassId, n: nat)
    decreases n
  {
    DisplayName(p.ClassAt(c).name)
    || (p.ClassAt(c).superclass.Some? && n > 0 && Displayable(p, p.ClassAt(c).superclass.value, n - 1))
  }

  /**
   * On an ending chain, SuperChain walks superclass links up to the top of
   * the hierarchy, and a class is displayable iff some class on it has a
   * display name.
   */
  lemma DisplayableOnChain(p: Program, c: ClassId, n: nat)
    requires ChainEnds(p, c, n)
    ensures var chain := SuperChain(p, c, n);
      chain[0] == c
      && (forall k :: 0 <= k < |chain| - 1 ==> p.ClassAt(chain[k]).superclass == Some(chain[k + 1]))
      && p.ClassAt(chain[|chain| - 1]).superclass.None?
    ensures Displayable(p, c, n) <==>
      exists k :: 0 <= k < |SuperChain(p, c, n)| && DisplayName(p.ClassAt(SuperChain(p, c, n)[k]).name)
  {
    SuperChainLinks(p, c, n);
    DisplayableIffOnChain(p, c, n);
  }

  /** On an ending chain, SuperChain follows superclass links from c to a class without superclass. */
  lemma {:induction false} SuperChainLinks(p: Program, c: ClassId, n: nat)
    requires ChainEnds(p, c, n)
    ensures var chain := SuperChain(p, c, n);
      chain[0] == c
      && (forall k :: 0 <= k < |chain| - 1 ==> p.ClassAt(chain[k]).superclass == Some(chain[k + 1]))
      && p.ClassAt(chain[|chain| - 1]).superclass.None?
    decreases n
  {
    var sup := p.ClassAt(c).superclass;
    if sup.Some? {
      var rest := SuperChain(p, sup.value, n - 1);
      SuperChainLinks(p, sup.value, n - 1);
      var chain := SuperChain(p, c, n);
      assert chain == [c] + rest;
      forall k | 0 <= k < |chain| - 1
        ensures p.ClassAt(chain[k]).superclass == Some(chain[k + 1])
      {
        if k > 0 {
          assert chain[k] == rest[k - 1] && chain[k + 1] == rest[k];
        }
      }
    } else {
      assert SuperChain(p, c, n) == [c];
    }
  }

  /** Some class of the chain has a display name. */
  predicate SomeDisplayName(p: Program, chain: seq<ClassId>)
  {
    exists k :: 0 <= k < |chain| && DisplayName(p.ClassAt(chain[k]).name)
  }

  lemma SomeDisplayNameCons(p: Program, c: ClassId, rest: seq<ClassId>)
    ensures SomeDisplayName(p, [c] + rest) <==> DisplayName(p.ClassAt(c).name) || SomeDisplayName(p, rest)
  {
    var chain := [c] + rest;
    assert chain[0] == c;
    if SomeDisplayName(p, rest) {
      var k :| 0 <= k < |rest| && DisplayName(p.ClassAt(rest[k]).name);
      assert chain[k + 1] == rest[k];
    }
    if SomeDisplayName(p, chain) {
      var k :| 0 <= k < |chain| && DisplayName(p.ClassAt(chain[k]).name);
      if k > 0 {
        assert chain[k] == rest[k - 1];
      }
    }
  }

  /** Within the same bound, isChildOfDisplayableClass answers whether some class on SuperChain has a display name. */
  lemma {:induction false} DisplayableIffOnChain(p: Program, c: ClassId, n: nat)
    ensures Displayable(p, c, n) <==> SomeDisplayName(p, SuperChain(p, c, n))
    decreases n
  {
    var sup := p.ClassAt(c).superclass;
    if sup.Some? && n > 0 {
      DisplayableIffOnChain(p, sup.value, n - 1);
      SomeDisplayNameCons(p, c, SuperChain(p, sup.value, n - 1));
    } else {
      SomeDisplayNameCons(p, c, []);
      assert SuperChain(p, c, n) == [c] + [];
    }
  }

  /** The answer does not depend on the bound once the chain ends within it. */
  lemma {:induction false} DisplayableBoundFree(p: Program, c: ClassId, n: nat, m: nat)
    requires ChainEnds(p, c, n) && n <= m
    ensures ChainEnds(p, c, m)
    ensures Displayable(p, c, n) == Displayable(p, c, m)
    decreases n
  {
    if p.ClassAt(c).superclass.Some? {
      DisplayableBoundFree(p, p.ClassAt(c).superclass.value, n - 1, m - 1);
    }
  }

  /** isInvokeOfSetLayoutMethod: a setContentView call by name, or a LayoutInflater's inflate by text. */
  predicate SetLayoutInvoke(methodName: string, unitText: string)
  {
    Contains(methodName, "setContentView") || (Contains(unitText, "inflate") && Contains(unitText, "LayoutInflater"))
  }

  /** An invoke statement of a set-layout method. */
  predicate LayoutUnit(p: Program, u: UnitId)
  {
    p.StmtOf(u).InvokeStmt? && SetLayoutInvoke(p.StmtOf(u).invoke.calleeName, p.TextOf(u))
  }

  /** Its first argument, printed: the layout resource id. */
  function LayoutArg(p: Program, u: UnitId): string
  {
    var s := p.StmtOf(u);
    if s.InvokeStmt? && |s.invoke.args| > 0 then s.invoke.args[0].text else ""
  }

  /**
   * What the analysis takes for granted about printed Jimple: a set-layout
   * invoke has a first argument and it prints as a non-empty string (getArg(0)
   * and charAt(0) would throw otherwise).
   */
  predicate LayoutArgsPrinted(p: Program)
  {
    forall u :: u in p.units && LayoutUnit(p, u) ==> LayoutArg(p, u) != ""
  }

  /** The id of the first set-layout invoke among the units. */
  function LayoutIdIn(p: Program, units: seq<UnitId>): Option<string>
  {
    if units == [] then None
    else if LayoutUnit(p, units[0]) then Some(LayoutArg(p, units[0]))
    else LayoutIdIn(p, units[1..])
  }

  /** The id of the first set-layout invoke in the bodies of the methods, in method order. */
  function LayoutIdOfMethods(p: Program, ms: seq<MethodId>): Option<string>
  {
    if ms == [] then None
    else if LayoutIdIn(p, p.BodyOf(ms[0])).Some? then LayoutIdIn(p, p.BodyOf(ms[0]))
    else LayoutIdOfMethods(p, ms[1..])
  }

  /** The id found is the first argument of the first set-layout invoke, and there is one iff some unit is one. */
  lemma {:induction false} LayoutIdIsFirst(p: Program, units: seq<UnitId>)
    ensures LayoutIdIn(p, units).Some? <==> exists k :: 0 <= k < |units| && LayoutUnit(p, units[k])
    ensures LayoutIdIn(p, units).Some? ==>
      exists k :: (0 <= k < |units| && LayoutUnit(p, units[k])
        && LayoutIdIn(p, units).value == LayoutArg(p, units[k]) && forall j :: 0 <= j < k ==> !LayoutUnit(p, units[j]))
  {
    if units != [] && !LayoutUnit(p, units[0]) {
      LayoutIdIsFirst(p, units[1..]);
      if LayoutIdIn(p, units).Some? {
        var k :| 0 <= k < |units[1..]| && LayoutUnit(p, units[1..][k])
          && LayoutIdIn(p, units[1..]).value == LayoutArg(p, units[1..][k])
          && forall j :: 0 <= j < k ==> !LayoutUnit(p, units[1..][j]);
        assert units[k + 1] == units[1..][k];
        forall j | 0 <= j < k + 1
          ensures !LayoutUnit(p, units[j])
        {
          if j > 0 {
            assert units[j] == units[1..][j - 1];
          }
        }
      }
      forall k | 0 <= k < |units| && LayoutUnit(p, units[k])
        ensures LayoutIdIn(p, units[1..]).Some?
      {
        assert units[1..][k - 1] == units[k];
      }
    }
  }

  /** With the printed-argument assumption, a found id is never empty. */
  lemma {:induction false} LayoutIdNonEmpty(p: Program, ms: seq<MethodId>)
    requires LayoutArgsPrinted(p)
    ensures LayoutIdOfMethods(p, ms).Some? ==> LayoutIdOfMethods(p, ms).value != ""
  {
    if ms != [] {
      LayoutIdIsFirst(p, p.BodyOf(ms[0]));
      LayoutIdNonEmpty(p, ms[1..]);
    }
  }

  /** An id inherited from a superclass: marked with one 'S', unless it is UNDETERMINED or already marked. */
  function SuperId(id: string): (r: string)
    requires id != ""
    ensures r != ""
  {
    if id == Undetermined then id
    else if id[0] == SuperClassPrefix then id
    else [SuperClassPrefix] + id
  }

  /** An inherited id starts with exactly the one 'S' it needs: inheriting it again changes nothing. */
  lemma SuperIdShape(id: string)
    requires id != ""
    ensures id != Undetermined ==> SuperId(id)[0] == SuperClassPrefix
    ensures id != Undetermined && id[0] != SuperClassPrefix ==> SuperId(id) == [SuperClassPrefix] + id
    ensures id == Undetermined || id[0] == SuperClassPrefix ==> SuperId(id) == id
    ensures SuperId(SuperId(id)) == SuperId(id)
  {
    if id != Undetermined && id[0] != SuperClassPrefix {
      assert SuperId(id)[0] == SuperClassPrefix;
      assert SuperId(id) != Undetermined by {
        assert Undetermined[0] == 'U';
      }
    }
  }

  /** getCallersOf(m) lists only call sites in dummyMain (vacuously so when it lists none). */
  predicate AllFromDummyMain(p: Program, callers: seq<UnitId>)
  {
    forall k :: 0 <= k < |callers| ==> callers[k] in p.methodOf && FromDummyMain(p, p.methodOf[callers[k]])
  }

  /** A root caller: a method without callers, or called from dummyMain only. */
  predicate IsRoot(p: Program, m: MethodId)
  {
    p.CallersOf(m) == [] || AllFromDummyMain(p, p.CallersOf(m))
  }

  /** The exception areCallersFromDummyMain throws when getMethodOf answers null. */
  const NullPointerException := "java.lang.NullPointerException"

  /**
   * areCallersFromDummyMain reaches a call site whose method is unknown
   * before any caller outside dummyMain, and so dereferences a null method.
   */
  predicate UnknownCallerFirst(p: Program, callers: seq<UnitId>)
  {
    exists k :: 0 <= k < |callers| && callers[k] !in p.methodOf && AllFromDummyMain(p, callers[..k])
  }

  /** areCallersFromDummyMain meets a known caller outside dummyMain before any unknown one. */
  predicate NonDummyCallerFirst(p: Program, callers: seq<UnitId>)
  {
    exists k :: 0 <= k < |callers| && callers[k] in p.methodOf && !FromDummyMain(p, p.methodOf[callers[k]])
      && AllFromDummyMain(p, callers[..k])
  }

  /** areCallersFromDummyMain has exactly one outcome: all in dummyMain, a caller outside it first, or an unknown one first. */
  lemma DummyMainScanOutcomes(p: Program, callers: seq<UnitId>)
    ensures AllFromDummyMain(p, callers) || NonDummyCallerFirst(p, callers) || UnknownCallerFirst(p, callers)
    ensures !(AllFromDummyMain(p, callers) && NonDummyCallerFirst(p, callers))
    ensures !(AllFromDummyMain(p, callers) && UnknownCallerFirst(p, callers))
    ensures !(NonDummyCallerFirst(p, callers) && UnknownCallerFirst(p, callers))
  {
    forall i, j | 0 <= i < j <= |callers| && AllFromDummyMain(p, callers[..j])
      ensures callers[i] in p.methodOf && FromDummyMain(p, p.methodOf[callers[i]])
    {
      assert callers[..j][i] == callers[i];
    }
    if !NonDummyCallerFirst(p, callers) {
      FirstUnknownCaller(p, callers, 0);
    }
  }

  /** Past a prefix all in dummyMain, a scan with no caller outside dummyMain first is all in dummyMain or meets an unknown caller. */
  lemma {:induction false} FirstUnknownCaller(p: Program, callers: seq<UnitId>, i: nat)
    requires i <= |callers|
    requires AllFromDummyMain(p, callers[..i])
    requires !NonDummyCallerFirst(p, callers)
    ensures AllFromDummyMain(p, callers) || UnknownCallerFirst(p, callers)
    decreases |callers| - i
  {
    if i == |callers| {
      assert callers[..i] == callers;
    } else if callers[i] !in p.methodOf {
      assert callers[i] !in p.methodOf && AllFromDummyMain(p, callers[..i]);
    } else {
      assert FromDummyMain(p, p.methodOf[callers[i]]);
      assert callers[..i + 1] == callers[..i] + [callers[i]];
      FirstUnknownCaller(p, callers, i + 1);
    }
  }

  /** When getMethodOf answers for every call site, areCallersFromDummyMain never throws. */
  lemma KnownCallersNeverThrow(p: Program, m: MethodId)
    requires p.CallSitesKnown()
    ensures !UnknownCallerFirst(p, p.CallersOf(m))
  {
  }

  lemma NoCallersIsRoot(p: Program, m: MethodId)
    requires p.CallersOf(m) == []
    ensures IsRoot(p, m) && AllFromDummyMain(p, p.CallersOf(m))
  {
  }

  function Signature(p: Program, m: MethodId): string
  {
    p.MethodAt(m).signature
  }

  /** recordRootCallerID's signature: keyword, the method at the bottom of the chain (or the root), and the root. */
  function CallerSignature(p: Program, root: MethodId, keyword: string, chain: seq<MethodId>): string
  {
    keyword + [','] + Signature(p, if chain == [] then root else chain[0]) + [','] + Signature(p, root)
  }

  /** The stack's signatures from the top (last pushed) to the bottom, one per line. */
  function StackLines(p: Program, chain: seq<MethodId>): string
  {
    if chain == [] then "" else StackLines(p, chain[1..]) + Signature(p, chain[0]) + ['\n']
  }

  /** recordRootCallerMethodInfo's block: "unitNum,keyword", the root's signature, the stack, then a blank line. */
  function ChainBlock(p: Program, root: MethodId, hit: KeywordInspector.JimpleHit, chain: seq<MethodId>): string
  {
    NatToString(hit.keywordUnitNum) + [','] + hit.keyword + ['\n'] + Signature(p, root) + ['\n'] + StackLines(p, chain) + ['\n']
  }

  /** The stack's signatures, top first. */
  function TopDown(p: Program, chain: seq<MethodId>): (r: seq<string>)
    ensures |r| == |chain|
    ensures forall k :: 0 <= k < |chain| ==> r[k] == Signature(p, chain[|chain| - 1 - k])
  {
    if chain == [] then [] else TopDown(p, chain[1..]) + [Signature(p, chain[0])]
  }

  /** The concatenation of lines, each followed by a newline. */
  function Lines(lines: seq<string>): string
  {
    if lines == [] then "" else lines[0] + ['\n'] + Lines(lines[1..])
  }

  lemma {:induction false} LinesSnoc(lines: seq<string>, x: string)
    ensures Lines(lines + [x]) == Lines(lines) + x + ['\n']
  {
    if lines == [] {
      assert [x][1..] == [];
    } else {
      assert (lines + [x])[1..] == lines[1..] + [x];
      LinesSnoc(lines[1..], x);
    }
  }

  lemma {:induction false} StackLinesAreLines(p: Program, chain: seq<MethodId>)
    ensures StackLines(p, chain) == Lines(TopDown(p, chain))
  {
    if chain != [] {
      StackLinesAreLines(p, chain[1..]);
      LinesSnoc(TopDown(p, chain[1..]), Signature(p, chain[0]));
    }
  }

  /** One newline-terminated line in front of the rest comes off as the first piece. */
  lemma LinesUnfold(lines: seq<string>, tail: string)
    requires lines != [] && '\n' !in lines[0]
    ensures SplitAll(Lines(lines) + tail, '\n') == [lines[0]] + SplitAll(Lines(lines[1..]) + tail, '\n')
  {
    var s := Lines(lines) + tail;
    var n := |lines[0]|;
    assert s == lines[0] + (['\n'] + (Lines(lines[1..]) + tail));
    assert s[..n] == lines[0];
    assert s[n + 1..] == Lines(lines[1..]) + tail;
    forall j | 0 <= j < n
      ensures s[j] != '\n'
    {
      assert s[j] == lines[0][j];
    }
    SplitAllAtFirst(s, '\n', n);
  }

  /** Cutting newline-terminated lines, then a tail, gives back the lines and then the tail's pieces. */
  lemma {:induction false} LinesSplit(lines: seq<string>, tail: string)
    requires forall k :: 0 <= k < |lines| ==> '\n' !in lines[k]
    ensures SplitAll(Lines(lines) + tail, '\n') == lines + SplitAll(tail, '\n')
  {
    if lines != [] {
      var rest := lines[1..];
      assert forall k :: 0 <= k < |rest| ==> '\n' !in rest[k] by {
        forall k | 0 <= k < |rest|
          ensures '\n' !in rest[k]
        {
          assert rest[k] == lines[k + 1];
        }
      }
      LinesUnfold(lines, tail);
      LinesSplit(rest, tail);
      var st := SplitAll(tail, '\n');
      assert SplitAll(Lines(lines) + tail, '\n') == [lines[0]] + (rest + st);
      assert [lines[0]] + (rest + st) == ([lines[0]] + rest) + st;
      assert lines == [lines[0]] + rest;
    } else {
      assert Lines(lines) + tail == tail;
      assert lines + SplitAll(tail, '\n') == SplitAll(tail, '\n');
    }
  }

  /** Two lines in front of the rest. */
  lemma LinesTwo(a: string, b: string, rest: seq<string>)
    ensures Lines([a, b] + rest) == a + ['\n'] + (b + ['\n'] + Lines(rest))
  {
    var lines := [a, b] + rest;
    assert lines[1..] == [b] + rest;
    assert lines[1..][1..] == rest;
  }

  /** A printed number and a keyword without newline make a summary without newline. */
  lemma SummaryOneLine(unitNum: nat, keyword: string)
    requires '\n' !in keyword
    ensures '\n' !in NatToString(unitNum) + [','] + keyword
  {
    var d := NatToString(unitNum);
    assert forall k :: 0 <= k < |d| ==> d[k] != '\n';
  }

  /** The stack's lines hold no newline when no signature does. */
  lemma TopDownOneLine(p: Program, chain: seq<MethodId>)
    requires forall k :: 0 <= k < |chain| ==> '\n' !in Signature(p, chain[k])
    ensures forall k :: 0 <= k < |TopDown(p, chain)| ==> '\n' !in TopDown(p, chain)[k]
  {
    var down := TopDown(p, chain);
    forall k | 0 <= k < |down|
      ensures '\n' !in down[k]
    {
      assert down[k] == Signature(p, chain[|chain| - 1 - k]);
    }
  }

  lemma NewlineSplits()
    ensures SplitAll(['\n'], '\n') == ["", ""]
  {
    SplitAllAtFirst(['\n'], '\n', 0);
    assert ['\n'][1..] == "";
    assert IndexOfChar("", '\n', 0) == -1;
  }

  /**
   * A chain block reads line by line as the summary, the root's signature,
   * the stack from top to bottom and a blank line (the last piece is what
   * follows the final newline).
   */
  lemma ChainBlockLines(p: Program, root: MethodId, hit: KeywordInspector.JimpleHit, chain: seq<MethodId>)
    requires '\n' !in hit.keyword && '\n' !in Signature(p, root)
    requires forall k :: 0 <= k < |chain| ==> '\n' !in Signature(p, chain[k])
    ensures SplitAll(ChainBlock(p, root, hit, chain), '\n') ==
      [NatToString(hit.keywordUnitNum) + [','] + hit.keyword, Signature(p, root)] + TopDown(p, chain) + ["", ""]
  {
    var lines := [NatToString(hit.keywordUnitNum) + [','] + hit.keyword, Signature(p, root)] + TopDown(p, chain);
    ChainBlockAsLines(p, root, hit, chain);
    SummaryOneLine(hit.keywordUnitNum, hit.keyword);
    TopDownOneLine(p, chain);
    NoNewlineInLines(lines[0], lines[1], TopDown(p, chain));
    LinesSplit(lines, ['\n']);
    NewlineSplits();
  }

  /** The chain block is the summary, the root's signature and the stack, each ended by a newline, then one more newline. */
  lemma ChainBlockAsLines(p: Program, root: MethodId, hit: KeywordInspector.JimpleHit, chain: seq<MethodId>)
    ensures ChainBlock(p, root, hit, chain) ==
      Lines([NatToString(hit.keywordUnitNum) + [','] + hit.keyword, Signature(p, root)] + TopDown(p, chain)) + ['\n']
  {
    StackLinesAreLines(p, chain);
    LinesTwo(NatToString(hit.keywordUnitNum) + [','] + hit.keyword, Signature(p, root), TopDown(p, chain));
  }

  lemma NoNewlineInLines(a: string, b: string, rest: seq<string>)
    requires '\n' !in a && '\n' !in b
    requires forall k :: 0 <= k < |rest| ==> '\n' !in rest[k]
    ensures forall k :: 0 <= k < |[a, b] + rest| ==> '\n' !in ([a, b] + rest)[k]
  {
    var lines := [a, b] + rest;
    forall k | 0 <= k < |lines|
      ensures '\n' !in lines[k]
    {
      if k >= 2 {
        assert lines[k] == rest[k - 2];
      }
    }
  }

  /** inspectRootCallerClass's record of a displayable root class. */
  function ClassLine(unitNum: nat, className: string, keyword: string, activityId: string): string
  {
    NatToString(unitNum) + [','] + className + [','] + keyword + [','] + activityId
  }

  class RootCallerInspector {
    const p: Program
    const jimples: seq<KeywordInspector.JimpleHit>
    /** A bound on the length of every superclass chain: the class hierarchy has no cycle. */
    ghost const hierarchyDepth: nat
    /** activityClassIdCache: the layout id found for each class name. */
    var activityClassIdCache: map<string, string>
    /** rootActivityClassInfo (a TreeSet; its order is not modelled). */
    var rootActivityClassInfo: set<string>
    /** rootCallerMethodInfo, the StringBuilder's text. */
    var rootCallerMethodInfo: string
    /** rootCallerMethodID: the signatures of the chains already recorded. */
    var rootCallerMethodID: set<string>
    /** The Stack<SootMethod> of the current hit. */
    var methodStack: seq<MethodId>

    ghost predicate Valid()
      reads this`activityClassIdCache
    {
      (forall c :: ChainEnds(p, c, hierarchyDepth)) && LayoutArgsPrinted(p)
      && (forall name :: name in activityClassIdCache ==> activityClassIdCache[name] != "")
    }

    /** The field initialisers: the inspector starts with empty outputs and an empty cache. */
    constructor (p: Program, jimples: seq<KeywordInspector.JimpleHit>, ghost hierarchyDepth: nat)
      requires forall c :: ChainEnds(p, c, hierarchyDepth)
      requires LayoutArgsPrinted(p)
      ensures Valid()
      ensures this.p == p && this.jimples == jimples && this.hierarchyDepth == hierarchyDepth
      ensures activityClassIdCache == map[] && rootActivityClassInfo == {}
      ensures rootCallerMethodInfo == "" && rootCallerMethodID == {} && methodStack == []
    {
      this.p := p;
      this.jimples := jimples;
      this.hierarchyDepth := hierarchyDepth;
      activityClassIdCache := map[];
      rootActivityClassInfo := {};
      rootCallerMethodInfo := "";
      rootCallerMethodID := {};
      methodStack := [];
    }

    /** isChildOfDisplayableClass: the while-loop up the superclass chain. */
    method IsChildOfDisplayableClass(c: ClassId, ghost n: nat) returns (b: bool)
      requires ChainEnds(p, c, n)
      ensures b == Displayable(p, c, n)
    {
      var curClass := c;
      ghost var m := n;
      while true
        invariant ChainEnds(p, curClass, m)
        invariant Displayable(p, c, n) == Displayable(p, curClass, m)
        decreases m
      {
        var curClassName := p.ClassAt(curClass).name;
        if Contains(curClassName, ActivityClassName) || Contains(curClassName, FragmentClassName) {
          return true;
        }
        if p.ClassAt(curClass).superclass.Some? {
          curClass, m := p.ClassAt(curClass).superclass.value, m - 1;
        } else {
          return false;
        }
      }
    }

    /** The inner loop of getIdOfActivityClass: the first set-layout invoke of one body. */
    method LayoutIdOfBody(units: seq<UnitId>) returns (r: Option<string>)
      ensures r == LayoutIdIn(p, units)
    {
      for i := 0 to |units|
        invariant LayoutIdIn(p, units) == LayoutIdIn(p, units[i..])
      {
        assert units[i..][1..] == units[i + 1..];
        var unit := units[i];
        var s := p.StmtOf(unit);
        if !s.InvokeStmt? {
          continue;
        }
        if !SetLayoutInvoke(s.invoke.calleeName, p.TextOf(unit)) {
          continue;
        }
        return Some(LayoutArg(p, unit));
      }
      assert units[|units|..] == [];
      return None;
    }

    /** The outer loop of getIdOfActivityClass: the methods in order, skipping those without body. */
    method FindLayoutId(c: ClassId) returns (r: Option<string>)
      ensures r == LayoutIdOfMethods(p, p.ClassAt(c).methods)
    {
      var ms := p.ClassAt(c).methods;
      for i := 0 to |ms|
        invariant LayoutIdOfMethods(p, ms) == LayoutIdOfMethods(p, ms[i..])
      {
        assert ms[i..][1..] == ms[i + 1..];
        if p.MethodAt(ms[i]).body.None? {
          continue;
        }
        var found := LayoutIdOfBody(p.BodyOf(ms[i]));
        if found.Some? {
          return found;
        }
      }
      assert ms[|ms|..] == [];
      return None;
    }

    /**
     * getActivityIdFromSuperClass: UNDETERMINED without a displayable
     * superclass; otherwise the superclass's id marked as inherited.
     */
    method GetActivityIdFromSuperClass(c: ClassId, ghost n: nat) returns (id: string)
      requires Valid() && ChainEnds(p, c, n)
      modifies this`activityClassIdCache
      decreases n, 0
      ensures Valid()
      ensures id != "" && (id == Undetermined || id[0] == SuperClassPrefix)
      ensures old(activityClassIdCache).Keys <= activityClassIdCache.Keys
      ensures p.ClassAt(c).superclass.None? ==> id == Undetermined && activityClassIdCache == old(activityClassIdCache)
      ensures p.ClassAt(c).superclass.Some? && !Displayable(p, p.ClassAt(c).superclass.value, n - 1) ==>
        id == Undetermined && activityClassIdCache == old(activityClassIdCache)
      ensures p.ClassAt(c).superclass.Some? && Displayable(p, p.ClassAt(c).superclass.value, n - 1) ==>
        var superName := p.ClassAt(p.ClassAt(c).superclass.value).name;
        superName in activityClassIdCache && id == SuperId(activityClassIdCache[superName])
    {
      if p.ClassAt(c).superclass.None? {
        return Undetermined;
      }
      var superClass := p.ClassAt(c).superclass.value;
      var displayable := IsChildOfDisplayableClass(superClass, n - 1);
      if !displayable {
        return Undetermined;
      }
      var activityClassId := GetIdOfActivityClass(superClass, n - 1);
      SuperIdShape(activityClassId);
      if activityClassId == Undetermined {
        return activityClassId;
      }
      if activityClassId[0] == SuperClassPrefix {
        return activityClassId;
      }
      return [SuperClassPrefix] + activityClassId;
    }

    /**
     * getIdOfActivityClass: the cached id on a hit; otherwise the first
     * set-layout invoke's first argument, or the superclass's id, which is
     * then cached, so a repeat call answers the same.
     */
    method GetIdOfActivityClass(c: ClassId, ghost n: nat) returns (id: string)
      requires Valid() && ChainEnds(p, c, n)
      modifies this`activityClassIdCache
      decreases n, 1
      ensures Valid()
      ensures id != ""
      ensures p.ClassAt(c).name in activityClassIdCache && activityClassIdCache[p.ClassAt(c).name] == id
      ensures old(activityClassIdCache).Keys <= activityClassIdCache.Keys
      ensures p.ClassAt(c).name in old(activityClassIdCache) ==>
        id == old(activityClassIdCache)[p.ClassAt(c).name] && activityClassIdCache == old(activityClassIdCache)
      ensures p.ClassAt(c).name !in old(activityClassIdCache) && LayoutIdOfMethods(p, p.ClassAt(c).methods).Some? ==>
        id == LayoutIdOfMethods(p, p.ClassAt(c).methods).value
      ensures p.ClassAt(c).name !in old(activityClassIdCache) && LayoutIdOfMethods(p, p.ClassAt(c).methods).None? ==>
        id == Undetermined || id[0] == SuperClassPrefix
      ensures (p.ClassAt(c).name !in old(activityClassIdCache) && LayoutIdOfMethods(p, p.ClassAt(c).methods).None? &&
        (p.ClassAt(c).superclass.None? || !Displayable(p, p.ClassAt(c).superclass.value, n - 1))) ==>
        id == Undetermined
      ensures (p.ClassAt(c).name !in old(activityClassIdCache) && LayoutIdOfMethods(p, p.ClassAt(c).methods).None? &&
        p.ClassAt(c).superclass.Some? && Displayable(p, p.ClassAt(c).superclass.value, n - 1)) ==>
        var superName := p.ClassAt(p.ClassAt(c).superclass.value).name;
        superName in activityClassIdCache && id == SuperId(activityClassIdCache[superName])
    {
      var className := p.ClassAt(c).name;
      if className in activityClassIdCache {
        return activityClassIdCache[className];
      }
      var resourceId := FindLayoutId(c);
      if resourceId.Some? {
        LayoutIdNonEmpty(p, p.ClassAt(c).methods);
        activityClassIdCache := activityClassIdCache[className := resourceId.value];
        return resourceId.value;
      }
      id := GetActivityIdFromSuperClass(c, n);
      ghost var inherited := activityClassIdCache;
      activityClassIdCache := activityClassIdCache[className := id];
      if p.ClassAt(c).superclass.Some? && Displayable(p, p.ClassAt(c).superclass.value, n - 1) {
        SuperIdShape(inherited[p.ClassAt(p.ClassAt(c).superclass.value).name]);
      }
    }

    /** inspectRootCallerClass: a displayable root class is recorded with the keyword and its layout id. */
    method InspectRootCallerClass(c: ClassId, keyword: string, keywordUnitNum: nat)
      requires Valid()
      modifies this`activityClassIdCache, this`rootActivityClassInfo
      ensures Valid()
      ensures old(activityClassIdCache).Keys <= activityClassIdCache.Keys
      ensures !Displayable(p, c, hierarchyDepth) ==>
        rootActivityClassInfo == old(rootActivityClassInfo) && activityClassIdCache == old(activityClassIdCache)
      ensures Displayable(p, c, hierarchyDepth) ==>
        (p.ClassAt(c).name in activityClassIdCache &&
         rootActivityClassInfo == old(rootActivityClassInfo) +
           {ClassLine(keywordUnitNum, p.ClassAt(c).name, keyword, activityClassIdCache[p.ClassAt(c).name])})
    {
      var displayable := IsChildOfDisplayableClass(c, hierarchyDepth);
      if displayable {
        var activityId := GetIdOfActivityClass(c, hierarchyDepth);
        var rootCallerClassName := p.ClassAt(c).name;
        rootActivityClassInfo := rootActivityClassInfo + {ClassLine(keywordUnitNum, rootCallerClassName, keyword, activityId)};
      }
    }

    /**
     * areCallersFromDummyMain: true when every caller is in dummyMain, false
     * at the first caller outside it, and a NullPointerException at an
     * unknown call site reached before that.
     */
    method AreCallersFromDummyMain(callers: seq<UnitId>) returns (r: Result<bool>)
      ensures r == Success(true) <==> AllFromDummyMain(p, callers)
      ensures r == Success(false) <==> NonDummyCallerFirst(p, callers)
      ensures r.Failure? <==> UnknownCallerFirst(p, callers)
      ensures r.Failure? ==> r.error == NullPointerException
    {
      for i := 0 to |callers|
        invariant AllFromDummyMain(p, callers[..i])
      {
        if callers[i] !in p.methodOf {
          assert !AllFromDummyMain(p, callers);
          ghost var k := i;
          assert callers[k] !in p.methodOf && AllFromDummyMain(p, callers[..k]);
          return Failure(NullPointerException);
        }
        var callerMethod := p.methodOf[callers[i]];
        if !Contains(p.ClassNameOf(callerMethod), DummyMainClass) {
          assert !AllFromDummyMain(p, callers);
          ghost var k := i;
          assert callers[k] in p.methodOf && !FromDummyMain(p, p.methodOf[callers[k]]) && AllFromDummyMain(p, callers[..k]);
          return Success(false);
        }
        assert callers[..i + 1] == callers[..i] + [callers[i]];
      }
      assert callers[..|callers|] == callers;
      return Success(true);
    }

    /** recordRootCallerID: adds the chain's signature; true iff it is new. */
    method RecordRootCallerID(root: MethodId, hit: KeywordInspector.JimpleHit, chain: seq<MethodId>) returns (isNew: bool)
      modifies this`rootCallerMethodID
      ensures isNew <==> CallerSignature(p, root, hit.keyword, chain) !in old(rootCallerMethodID)
      ensures rootCallerMethodID == old(rootCallerMethodID) + {CallerSignature(p, root, hit.keyword, chain)}
    {
      var fromMethodID := if chain == [] then Signature(p, root) else Signature(p, chain[0]);
      var curID := hit.keyword + [','] + fromMethodID + [','] + Signature(p, root);
      isNew := curID !in rootCallerMethodID;
      rootCallerMethodID := rootCallerMethodID + {curID};
    }

    /** recordRootCallerMethodInfo: appends the chain block, walking the stack from the top down. */
    method RecordRootCallerMethodInfo(root: MethodId, hit: KeywordInspector.JimpleHit, chain: seq<MethodId>)
      modifies this`rootCallerMethodInfo
      ensures rootCallerMethodInfo == old(rootCallerMethodInfo) + ChainBlock(p, root, hit, chain)
    {
      var info := NatToString(hit.keywordUnitNum) + [','] + hit.keyword + ['\n'] + Signature(p, root) + ['\n'];
      var stack := "";
      var i := |chain|;
      while i > 0
        invariant 0 <= i <= |chain|
        invariant stack == StackLines(p, chain[i..])
      {
        i := i - 1;
        assert chain[i..][1..] == chain[i + 1..];
        stack := stack + Signature(p, chain[i]) + ['\n'];
      }
      rootCallerMethodInfo := rootCallerMethodInfo + (info + stack + ['\n']);
    }

    /**
     * inspectRootCallerMethod: the chain block is appended only the first
     * time its signature is seen; the root class is inspected every time.
     */
    method InspectRootCallerMethod(root: MethodId, hit: KeywordInspector.JimpleHit, chain: seq<MethodId>)
      requires Valid()
      modifies this`rootCallerMethodID, this`rootCallerMethodInfo, this`activityClassIdCache, this`rootActivityClassInfo
      ensures Valid()
      ensures rootCallerMethodID == old(rootCallerMethodID) + {CallerSignature(p, root, hit.keyword, chain)}
      ensures rootCallerMethodInfo == old(rootCallerMethodInfo) +
        (if CallerSignature(p, root, hit.keyword, chain) in old(rootCallerMethodID) then "" else ChainBlock(p, root, hit, chain))
      ensures old(activityClassIdCache).Keys <= activityClassIdCache.Keys
      ensures var c := p.MethodAt(root).declaringClass;
        (!Displayable(p, c, hierarchyDepth) ==> rootActivityClassInfo == old(rootActivityClassInfo))
        && (Displayable(p, c, hierarchyDepth) ==> (p.ClassAt(c).name in activityClassIdCache &&
              rootActivityClassInfo == old(rootActivityClassInfo) +
                {ClassLine(hit.keywordUnitNum, p.ClassAt(c).name, hit.keyword, activityClassIdCache[p.ClassAt(c).name])}))
    {
      var isNew := RecordRootCallerID(root, hit, chain);
      if isNew {
        RecordRootCallerMethodInfo(root, hit, chain);
      }
      InspectRootCallerClass(p.MethodAt(root).declaringClass, hit.keyword, hit.keywordUnitNum);
    }

    /**
     * inspectCaller: a root method is inspected with the current stack as
     * its chain; a method already on the stack ends the climb; any other
     * method is pushed, each of its call sites is inspected with the same
     * keyword, and it is popped again. A NullPointerException from
     * areCallersFromDummyMain ends the whole climb, leaving the stack as it is.
     */
    method InspectCaller(hit: KeywordInspector.JimpleHit) returns (r: Result<()>)
      requires Valid()
      modifies this`rootCallerMethodID, this`rootCallerMethodInfo, this`activityClassIdCache, this`rootActivityClassInfo
      modifies this`methodStack
      decreases p.methodOf.Values - ElementsOf(methodStack)
      ensures Valid()
      ensures r.Success? ==> methodStack == old(methodStack)
      ensures r.Failure? ==> r.error == NullPointerException
      ensures old(rootCallerMethodID) <= rootCallerMethodID
      ensures old(rootCallerMethodInfo) <= rootCallerMethodInfo
      ensures old(rootActivityClassInfo) <= rootActivityClassInfo
      ensures old(activityClassIdCache).Keys <= activityClassIdCache.Keys
      ensures hit.jimple !in p.methodOf ==> (r.Success? && rootCallerMethodID == old(rootCallerMethodID) &&
        rootCallerMethodInfo == old(rootCallerMethodInfo) && rootActivityClassInfo == old(rootActivityClassInfo))
      ensures hit.jimple in p.methodOf && UnknownCallerFirst(p, p.CallersOf(p.methodOf[hit.jimple])) ==>
        (r.Failure? && methodStack == old(methodStack) && rootCallerMethodID == old(rootCallerMethodID) &&
         rootCallerMethodInfo == old(rootCallerMethodInfo) && rootActivityClassInfo == old(rootActivityClassInfo))
      ensures hit.jimple in p.methodOf && NonDummyCallerFirst(p, p.CallersOf(p.methodOf[hit.jimple])) &&
              p.methodOf[hit.jimple] in old(methodStack) ==>
        (r.Success? && rootCallerMethodID == old(rootCallerMethodID) && rootCallerMethodInfo == old(rootCallerMethodInfo) &&
         rootActivityClassInfo == old(rootActivityClassInfo))
      ensures hit.jimple in p.methodOf && IsRoot(p, p.methodOf[hit.jimple]) ==>
        var sig := CallerSignature(p, p.methodOf[hit.jimple], hit.keyword, old(methodStack));
        r.Success? &&
        rootCallerMethodID == old(rootCallerMethodID) + {sig} &&
        rootCallerMethodInfo == old(rootCallerMethodInfo) +
          (if sig in old(rootCallerMethodID) then "" else ChainBlock(p, p.methodOf[hit.jimple], hit, old(methodStack)))
    {
      if hit.jimple !in p.methodOf {
        return Success(());
      }
      var m := p.methodOf[hit.jimple];
      var callers := p.CallersOf(m);
      var isRoot := callers == [];
      if !isRoot {
        var fromDummyMain := AreCallersFromDummyMain(callers);
        if fromDummyMain.Failure? {
          return Failure(fromDummyMain.error);
        }
        isRoot := fromDummyMain.value;
      }
      if isRoot {
        InspectRootCallerMethod(m, hit, methodStack);
        return Success(());
      }
      if m in methodStack {
        return Success(());
      }
      methodStack := methodStack + [m];
      ghost var pushed := methodStack;
      for i := 0 to |callers|
        invariant Valid()
        invariant methodStack == pushed
        invariant old(rootCallerMethodID) <= rootCallerMethodID
        invariant old(rootCallerMethodInfo) <= rootCallerMethodInfo
        invariant old(rootActivityClassInfo) <= rootActivityClassInfo
        invariant old(activityClassIdCache).Keys <= activityClassIdCache.Keys
      {
        var callerHit := KeywordInspector.JimpleHit(callers[i], hit.keyword, hit.keywordUnitNum);
        ElementsShrink(p.methodOf.Values, old(methodStack), m);
        var inspected := InspectCaller(callerHit);
        if inspected.Failure? {
          return inspected;
        }
      }
      methodStack := methodStack[..|methodStack| - 1];
      return Success(());
    }

    /** inspectRootCaller: each hit climbs with a fresh, empty stack; an exception ends the loop. */
    method InspectRootCaller(hits: seq<KeywordInspector.JimpleHit>) returns (r: Result<()>)
      requires Valid()
      modifies this`rootCallerMethodID, this`rootCallerMethodInfo, this`activityClassIdCache, this`rootActivityClassInfo
      modifies this`methodStack
      ensures Valid()
      ensures r.Failure? ==> r.error == NullPointerException
      ensures old(rootCallerMethodID) <= rootCallerMethodID
      ensures old(rootCallerMethodInfo) <= rootCallerMethodInfo
      ensures old(rootActivityClassInfo) <= rootActivityClassInfo
    {
      for i := 0 to |hits|
        invariant Valid()
        invariant old(rootCallerMethodID) <= rootCallerMethodID
        invariant old(rootCallerMethodInfo) <= rootCallerMethodInfo
        invariant old(rootActivityClassInfo) <= rootActivityClassInfo
      {
        methodStack := [];
        var inspected := InspectCaller(hits[i]);
        if inspected.Failure? {
          return inspected;
        }
      }
      return Success(());
    }
  }

  /**
   * new RootCallerInspector(jimples): the root callers of every hit are
   * inspected; an exception thrown while doing so is a Failure.
   */
  method NewRootCallerInspector(p: Program, jimples: seq<KeywordInspector.JimpleHit>, ghost hierarchyDepth: nat)
    returns (r: Result<RootCallerInspector>)
    requires forall c :: ChainEnds(p, c, hierarchyDepth)
    requires LayoutArgsPrinted(p)
    ensures r.Success? ==> fresh(r.value) && r.value.Valid() && r.value.p == p && r.value.jimples == jimples
    ensures r.Failure? ==> r.error == NullPointerException
  {
    var inspector := new RootCallerInspector(p, jimples, hierarchyDepth);
    var inspected := inspector.InspectRootCaller(jimples);
    if inspected.Failure? {
      return Failure(inspected.error);
    }
    return Success(inspector);
  }

  function ElementsOf(s: seq<MethodId>): set<MethodId>
  {
    set x | x in s
  }

  /** Pushing a method that is not yet on the stack leaves fewer methods to push. */
  lemma ElementsShrink(all: set<MethodId>, stack: seq<MethodId>, m: MethodId)
    requires m in all && m !in stack
    ensures all - ElementsOf(stack + [m]) < all - ElementsOf(stack)
  {
    assert m in all - ElementsOf(stack);
    assert m !in all - ElementsOf(stack + [m]);
  }
}
