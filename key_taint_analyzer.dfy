/**
 * KeyTaintAnalyzer: propagates the key taint tags seeded on HashMap receivers
 * along the interprocedural CFG and records the invoke statements that send a
 * tainted value to an http(s) address.
 *
 * The traversal is a worklist over CFG successors that descends into callees
 * (instance invokes with a tainted argument, static invokes with a tainted
 * argument), climbs into callers at a return, and keeps a stack of the
 * methods it is inside as its only guard against cycles. The source gives the
 * worklist no visited set, so nothing bounds its work on a CFG cycle that
 * reaches neither a return nor a sink; the model threads a step budget
 * (fuel) through the traversal: each worklist run takes at most fuel units
 * and each descent or climb runs with one less.
 */
module KeyTaintAnalyzer {
  import opened Wrappers
  import opened JavaString
  import opened StringUtil
  import opened Jimple
  import opened KeyTaintTags
  import KeywordInspector

  const HttpScheme := "http://"
  const HttpsScheme := "https://"

  predicate IsReturn(s: Stmt)
  {
    s.ReturnStmt? || s.ReturnVoidStmt?
  }

  /**
   * What the analysis takes for granted about the CFG: getMethodOf answers
   * for every successor, every call site and the first unit of every body.
   */
  predicate Closed(p: Program)
  {
    (forall u, k :: u in p.succsOf && 0 <= k < |p.succsOf[u]| ==> p.succsOf[u][k] in p.methodOf)
    && p.CallSitesKnown()
    && (forall m :: m in p.methods && p.methods[m].body.Some? && p.methods[m].body.value != [] ==>
          p.methods[m].body.value[0] in p.methodOf)
  }

  /** propInMethodBody enters m: not from dummyMain, not on the stack, with a non-empty active body. */
  predicate Enterable(p: Program, m: MethodId, stack: seq<MethodId>)
  {
    !FromDummyMain(p, m) && m !in stack && p.BodyOf(m) != []
  }

  lemma EnterableFirstUnit(p: Program, m: MethodId, stack: seq<MethodId>)
    requires Closed(p) && Enterable(p, m, stack)
    ensures p.BodyOf(m)[0] in p.methodOf
  {
  }

  /** The tags of the argument boxes, as getTag answers them. */
  function ArgTags(boxTags: map<BoxId, seq<TagId>>, args: seq<Value>): (r: seq<Option<TagId>>)
    ensures |r| == |args|
    ensures forall i :: 0 <= i < |args| ==> r[i] == FirstTagOf(boxTags, args[i].box)
  {
    if args == [] then []
    else ArgTags(boxTags, args[..|args| - 1]) + [FirstTagOf(boxTags, args[|args| - 1].box)]
  }

  /** hasTaintOnArgs: some argument has a tag whose key list is not empty. */
  predicate TaintedArg(keyConsts: map<TagId, seq<string>>, boxTags: map<BoxId, seq<TagId>>, args: seq<Value>)
  {
    exists i :: 0 <= i < |args| && KeysOf(keyConsts, FirstTagOf(boxTags, args[i].box)) != []
  }

  /** A static invoke descends exactly when merging the argument tags gives a tag. */
  lemma TaintedArgIffMerged(keyConsts: map<TagId, seq<string>>, boxTags: map<BoxId, seq<TagId>>, args: seq<Value>)
    ensures TaintedArg(keyConsts, boxTags, args) <==> MergedKeys(keyConsts, ArgTags(boxTags, args)) != []
  {
    var tags := ArgTags(boxTags, args);
    MergedKeysNonEmpty(keyConsts, tags);
    if MergedKeys(keyConsts, tags) != [] {
      var i :| 0 <= i < |tags| && KeysOf(keyConsts, tags[i]) != [];
      assert KeysOf(keyConsts, FirstTagOf(boxTags, args[i].box)) != [];
    }
  }

  /** argContainHttpAddr's test of one argument: its unescaped, lower-cased text holds an http(s) address. */
  predicate HttpAddr(text: string)
  {
    var t := ToLower(Unescape(text));
    Contains(t, HttpScheme) || Contains(t, HttpsScheme)
  }

  predicate HttpArg(args: seq<Value>)
  {
    exists i :: 0 <= i < |args| && HttpAddr(args[i].text)
  }

  lemma ToLowerConcat(a: string, b: string)
    ensures ToLower(a + b) == ToLower(a) + ToLower(b)
  {
  }

  /** Lower-casing leaves quotes and backslashes alone, so it commutes with unescaping. */
  lemma {:induction false} UnescapeToLower(s: string)
    ensures Unescape(ToLower(s)) == ToLower(Unescape(s))
    decreases |s|
  {
    if s != [] {
      var l := ToLower(s);
      assert l[0] == LowerChar(s[0]);
      if s[0] == '"' {
        assert l[1..] == ToLower(s[1..]);
        UnescapeToLower(s[1..]);
      } else if s[0] == '\\' {
        if |s| > 1 {
          assert l[1] == LowerChar(s[1]);
          assert l[2..] == ToLower(s[2..]);
          UnescapeToLower(s[2..]);
          var head := if s[1] == '"' || s[1] == '\\' then [s[1]] else [];
          ToLowerConcat(head, Unescape(s[2..]));
        }
      } else {
        assert l[1..] == ToLower(s[1..]);
        UnescapeToLower(s[1..]);
        ToLowerConcat([s[0]], Unescape(s[1..]));
      }
    }
  }

  /** The address test ignores case. */
  lemma HttpAddrIgnoresCase(text: string)
    ensures HttpAddr(ToLower(text)) <==> HttpAddr(text)
  {
    UnescapeToLower(text);
    ToLowerIdempotent(Unescape(text));
  }

  /** tryGetSinkPointKeys: for an invoke statement with an http(s) argument and tainted arguments, the merged keys printed. */
  function SinkKeys(keyConsts: map<TagId, seq<string>>, boxTags: map<BoxId, seq<TagId>>, s: Stmt): Option<string>
  {
    if s.InvokeStmt? && HttpArg(s.invoke.args) && MergedKeys(keyConsts, ArgTags(boxTags, s.invoke.args)) != []
    then Some(KeysToString(MergedKeys(keyConsts, ArgTags(boxTags, s.invoke.args))))
    else None
  }

  /** A sink is an invoke statement with an http(s) argument and a tainted argument; its record lists the keys. */
  lemma SinkKeysShape(keyConsts: map<TagId, seq<string>>, boxTags: map<BoxId, seq<TagId>>, s: Stmt)
    requires forall t, k :: t in keyConsts && 0 <= k < |keyConsts[t]| ==> ',' !in keyConsts[t][k]
    ensures SinkKeys(keyConsts, boxTags, s).Some? <==>
      s.InvokeStmt? && HttpArg(s.invoke.args) && TaintedArg(keyConsts, boxTags, s.invoke.args)
    ensures SinkKeys(keyConsts, boxTags, s).Some? ==>
      SplitAll(SinkKeys(keyConsts, boxTags, s).value, ',') == MergedKeys(keyConsts, ArgTags(boxTags, s.invoke.args)) + [""]
  {
    if s.InvokeStmt? {
      TaintedArgIffMerged(keyConsts, boxTags, s.invoke.args);
      MergedKeysCommaFree(keyConsts, ArgTags(boxTags, s.invoke.args));
      KeysToStringSplits(MergedKeys(keyConsts, ArgTags(boxTags, s.invoke.args)));
    }
  }

  /** Keys recorded for fresh tags leave the merge of existing tags alone. */
  lemma {:induction false} MergedKeysKept(k0: map<TagId, seq<string>>, k1: map<TagId, seq<string>>, tags: seq<Option<TagId>>)
    requires KeysKept(k0, k1)
    requires forall i :: 0 <= i < |tags| && tags[i].Some? ==> tags[i].value in k0
    ensures MergedKeys(k1, tags) == MergedKeys(k0, tags)
    decreases |tags|
  {
    if tags != [] {
      MergedKeysKept(k0, k1, tags[..|tags| - 1]);
    }
  }

  /** Whether a statement is a sink, and what it records, is decided by the tags it already sees. */
  lemma SinkKeysKept(k0: map<TagId, seq<string>>, k1: map<TagId, seq<string>>, boxTags: map<BoxId, seq<TagId>>, s: Stmt)
    requires KeysKept(k0, k1)
    requires forall b, k :: b in boxTags && 0 <= k < |boxTags[b]| ==> boxTags[b][k] in k0
    ensures SinkKeys(k1, boxTags, s) == SinkKeys(k0, boxTags, s)
  {
    if s.InvokeStmt? {
      var tags := ArgTags(boxTags, s.invoke.args);
      forall i | 0 <= i < |tags| && tags[i].Some?
        ensures tags[i].value in k0
      {
        assert tags[i] == FirstTagOf(boxTags, s.invoke.args[i].box);
      }
      MergedKeysKept(k0, k1, tags);
    }
  }

  lemma {:induction false} MergedKeysCommaFree(keyConsts: map<TagId, seq<string>>, tags: seq<Option<TagId>>)
    requires forall t, k :: t in keyConsts && 0 <= k < |keyConsts[t]| ==> ',' !in keyConsts[t][k]
    ensures forall k :: 0 <= k < |MergedKeys(keyConsts, tags)| ==> ',' !in MergedKeys(keyConsts, tags)[k]
  {
    if tags != [] {
      MergedKeysCommaFree(keyConsts, tags[..|tags| - 1]);
    }
  }

  /**
   * The tags of boxes only grow: a box keeps every tag it had, in place, so
   * getTag keeps answering the same tag.
   */
  predicate TagsGrown(b0: map<BoxId, seq<TagId>>, b1: map<BoxId, seq<TagId>>)
  {
    forall b :: b in b0 ==> b in b1 && |b0[b]| <= |b1[b]| && forall k :: 0 <= k < |b0[b]| ==> b1[b][k] == b0[b][k]
  }

  /** Propagation never changes the keys of an existing tag; merges only add fresh tags. */
  predicate KeysKept(k0: map<TagId, seq<string>>, k1: map<TagId, seq<string>>)
  {
    forall t :: t in k0 ==> t in k1 && k1[t] == k0[t]
  }

  /** Growth over two runs is growth over both. */
  lemma GrownTrans(b0: map<BoxId, seq<TagId>>, b1: map<BoxId, seq<TagId>>, b2: map<BoxId, seq<TagId>>,
                   k0: map<TagId, seq<string>>, k1: map<TagId, seq<string>>, k2: map<TagId, seq<string>>)
    requires TagsGrown(b0, b1) && TagsGrown(b1, b2) && KeysKept(k0, k1) && KeysKept(k1, k2)
    ensures TagsGrown(b0, b2) && KeysKept(k0, k2)
  {
  }

  lemma TagsGrownKeepsFirst(b0: map<BoxId, seq<TagId>>, b1: map<BoxId, seq<TagId>>, b: BoxId)
    requires TagsGrown(b0, b1) && FirstTagOf(b0, b).Some?
    ensures FirstTagOf(b1, b) == FirstTagOf(b0, b)
  {
  }

  /** A taint, once on a box, stays there and keeps its keys. */
  lemma TaintPersists(b0: map<BoxId, seq<TagId>>, b1: map<BoxId, seq<TagId>>,
                      k0: map<TagId, seq<string>>, k1: map<TagId, seq<string>>, b: BoxId)
    requires TagsGrown(b0, b1) && KeysKept(k0, k1) && FirstTagOf(b0, b).Some? && FirstTagOf(b0, b).value in k0
    ensures KeysOf(k1, FirstTagOf(b1, b)) == KeysOf(k0, FirstTagOf(b0, b))
  {
    TagsGrownKeepsFirst(b0, b1, b);
  }

  /** A snapshot of the tag side tables: the tags of each box and the keys of each tag. */
  type TagState = (map<BoxId, seq<TagId>>, map<TagId, seq<string>>)

  /** Each snapshot has grown from the one before, the first from start, and the last is now. */
  ghost predicate GrownChain(start: TagState, seen: seq<TagState>, now: TagState)
  {
    (seen != [] ==> TagsGrown(start.0, seen[0].0) && KeysKept(start.1, seen[0].1))
    && (forall k :: 0 <= k < |seen| - 1 ==> TagsGrown(seen[k].0, seen[k + 1].0) && KeysKept(seen[k].1, seen[k + 1].1))
    && (seen != [] ==> seen[|seen| - 1] == now)
  }

  /** None of the first n units was a sink under the tag state its sink check saw. */
  ghost predicate NoSinkBefore(p: Program, units: seq<UnitId>, seen: seq<TagState>, n: int)
  {
    forall k :: 0 <= k < n && k < |units| && k < |seen| ==> SinkKeys(seen[k].1, seen[k].0, p.StmtOf(units[k])).None?
  }

  /** A state grown from the last snapshot extends the chain. */
  lemma GrownChainExtend(start: TagState, seen: seq<TagState>, mid: TagState, now: TagState)
    requires GrownChain(start, seen, mid)
    requires TagsGrown(mid.0, now.0) && KeysKept(mid.1, now.1)
    requires seen == [] ==> TagsGrown(start.0, now.0) && KeysKept(start.1, now.1)
    ensures GrownChain(start, seen + [now], now)
  {
    var seen' := seen + [now];
    assert forall k :: 0 <= k < |seen| ==> seen'[k] == seen[k];
  }

  /** One more unit with its snapshot keeps the earlier units sink-free, and adds itself when it is no sink. */
  lemma NoSinkExtend(p: Program, units: seq<UnitId>, seen: seq<TagState>, u: UnitId, now: TagState)
    requires |seen| == |units| && NoSinkBefore(p, units, seen, |units|)
    ensures NoSinkBefore(p, units + [u], seen + [now], |units|)
    ensures SinkKeys(now.1, now.0, p.StmtOf(u)).None? ==> NoSinkBefore(p, units + [u], seen + [now], |units| + 1)
  {
    var units', seen' := units + [u], seen + [now];
    assert forall k :: 0 <= k < |units| ==> units'[k] == units[k] && seen'[k] == seen[k];
  }

  /**
   * The tag change of propAssignStmt's assignment step: when the right box
   * has a tag, that same tag object is appended to the left box's tags;
   * otherwise nothing changes.
   */
  predicate Aliased(b0: map<BoxId, seq<TagId>>, b1: map<BoxId, seq<TagId>>, left: BoxId, right: BoxId)
  {
    match FirstTagOf(b0, right)
    case None => b1 == b0
    case Some(t) => b1 == b0[left := (if left in b0 then b0[left] else []) + [t]]
  }

  /** After the assignment an untagged left box shares the right box's tag, and no other box's tag changes. */
  lemma AliasedShares(b0: map<BoxId, seq<TagId>>, b1: map<BoxId, seq<TagId>>, left: BoxId, right: BoxId)
    requires Aliased(b0, b1, left, right)
    ensures TagsGrown(b0, b1)
    ensures FirstTagOf(b0, right).Some? && FirstTagOf(b0, left).None? ==> FirstTagOf(b1, left) == FirstTagOf(b0, right)
    ensures FirstTagOf(b0, right).None? ==> FirstTagOf(b1, left) == FirstTagOf(b0, left)
    ensures forall x :: x != left ==> FirstTagOf(b1, x) == FirstTagOf(b0, x)
  {
  }

  /** The tags attached to a box, in order; none for a box never tagged. */
  function TagList(boxTags: map<BoxId, seq<TagId>>, b: BoxId): seq<TagId>
  {
    if b in boxTags then boxTags[b] else []
  }

  /** propInstanceInvoke goes past its two early returns: there are arguments, and their merged tag is not null. */
  predicate InstanceTaints(keyConsts: map<TagId, seq<string>>, boxTags: map<BoxId, seq<TagId>>, e: InvokeExpr)
  {
    |e.args| > 0 && MergedKeys(keyConsts, ArgTags(boxTags, e.args)) != []
  }

  /** propInvokeExpr's dispatch reaches a call that propagates: an instance invoke that taints its receiver, or a static invoke with a tainted argument. */
  predicate InvokeTaints(keyConsts: map<TagId, seq<string>>, boxTags: map<BoxId, seq<TagId>>, e: InvokeExpr)
  {
    if e.IsInstance() then InstanceTaints(keyConsts, boxTags, e)
    else e.kind == StaticInvoke && TaintedArg(keyConsts, boxTags, e.args)
  }

  /**
   * From (k0, b0) to (k1, b1), the receiver box of e was tagged with t: a tag
   * fresh in k0 that holds the arguments' merged keys, attached right after
   * the tags the receiver already had.
   */
  predicate BaseTaggedWithMerge(k0: map<TagId, seq<string>>, b0: map<BoxId, seq<TagId>>,
                                k1: map<TagId, seq<string>>, b1: map<BoxId, seq<TagId>>, e: InvokeExpr, t: TagId)
  {
    t !in k0 && t in k1 && k1[t] == MergedKeys(k0, ArgTags(b0, e.args))
    && |TagList(b1, e.base)| > |TagList(b0, e.base)| && TagList(b1, e.base)[|TagList(b0, e.base)|] == t
  }

  /**
   * What propInvokeExpr did from (k0, b0) with the given stack: the callee's
   * body was entered exactly when the call propagates and the body can be
   * entered, and an instance call left its receiver tagged with the merge.
   */
  predicate CallEffect(p: Program, k0: map<TagId, seq<string>>, b0: map<BoxId, seq<TagId>>,
                       k1: map<TagId, seq<string>>, b1: map<BoxId, seq<TagId>>, e: InvokeExpr, fuel: nat,
                       stack: seq<MethodId>, entered: bool, tag: Option<TagId>)
  {
    (entered <==> InvokeTaints(k0, b0, e) && fuel > 0 && Enterable(p, e.callee, stack))
    && (e.IsInstance() && InvokeTaints(k0, b0, e) ==> tag.Some? && BaseTaggedWithMerge(k0, b0, k1, b1, e, tag.value))
  }

  /** Later growth keeps the receiver's merged tag where it was attached. */
  lemma BaseTaggedGrown(k0: map<TagId, seq<string>>, b0: map<BoxId, seq<TagId>>,
                        k1: map<TagId, seq<string>>, b1: map<BoxId, seq<TagId>>,
                        k2: map<TagId, seq<string>>, b2: map<BoxId, seq<TagId>>, e: InvokeExpr, t: TagId)
    requires BaseTaggedWithMerge(k0, b0, k1, b1, e, t) && TagsGrown(b1, b2) && KeysKept(k1, k2)
    ensures BaseTaggedWithMerge(k0, b0, k2, b2, e, t)
  {
    assert e.base in b1;
    var n := |TagList(b0, e.base)|;
    assert b2[e.base][n] == b1[e.base][n];
  }

  /** Later growth keeps a call's effect. */
  lemma CallEffectGrown(p: Program, k0: map<TagId, seq<string>>, b0: map<BoxId, seq<TagId>>,
                        k1: map<TagId, seq<string>>, b1: map<BoxId, seq<TagId>>,
                        k2: map<TagId, seq<string>>, b2: map<BoxId, seq<TagId>>, e: InvokeExpr, fuel: nat,
                        stack: seq<MethodId>, entered: bool, tag: Option<TagId>)
    requires CallEffect(p, k0, b0, k1, b1, e, fuel, stack, entered, tag) && TagsGrown(b1, b2) && KeysKept(k1, k2)
    ensures CallEffect(p, k0, b0, k2, b2, e, fuel, stack, entered, tag)
  {
    if e.IsInstance() && InvokeTaints(k0, b0, e) {
      BaseTaggedGrown(k0, b0, k1, b1, k2, b2, e, tag.value);
    }
  }

  /** The successors of the processed units, concatenated in processing order: what propFromUnit enqueued. */
  function SuccsAll(p: Program, units: seq<UnitId>): seq<UnitId>
  {
    if units == [] then [] else SuccsAll(p, units[..|units| - 1]) + p.SuccsOf(units[|units| - 1])
  }

  /** Every enqueued unit after the first is a successor of a processed one. */
  lemma {:induction false} SuccsAllAreSuccessors(p: Program, units: seq<UnitId>, j: nat)
    requires j < |SuccsAll(p, units)|
    ensures exists k, l :: 0 <= k < |units| && 0 <= l < |p.SuccsOf(units[k])| && SuccsAll(p, units)[j] == p.SuccsOf(units[k])[l]
  {
    var init := units[..|units| - 1];
    var last := units[|units| - 1];
    if j < |SuccsAll(p, init)| {
      SuccsAllAreSuccessors(p, init, j);
      var k, l :| 0 <= k < |init| && 0 <= l < |p.SuccsOf(init[k])| && SuccsAll(p, init)[j] == p.SuccsOf(init[k])[l];
      assert units[k] == init[k];
    } else {
      var l := j - |SuccsAll(p, init)|;
      assert SuccsAll(p, units)[j] == p.SuccsOf(last)[l];
    }
  }

  /**
   * The worklist of a propFromUnit run in first-in first-out order: what was
   * taken plus what waits is everything enqueued, and what was taken is a
   * prefix of what was enqueued before the last turn.
   */
  predicate Fifo(p: Program, fromUnit: UnitId, processed: seq<UnitId>, units: seq<UnitId>)
  {
    processed + units == [fromUnit] + SuccsAll(p, processed)
    && (processed != [] ==> processed <= [fromUnit] + SuccsAll(p, processed[..|processed| - 1]))
  }

  /** Taking the head of the queue keeps the order. */
  lemma FifoTake(p: Program, fromUnit: UnitId, processed: seq<UnitId>, units: seq<UnitId>)
    requires Fifo(p, fromUnit, processed, units) && units != []
    ensures (processed + [units[0]])[..|processed|] == processed
    ensures processed + [units[0]] <= [fromUnit] + SuccsAll(p, processed)
    ensures (processed + [units[0]])[0] == fromUnit
  {
    assert (processed + [units[0]])[..|processed|] == processed;
  }

  /** Enqueuing the successors of the unit just taken restores the invariant. */
  lemma FifoEnqueue(p: Program, fromUnit: UnitId, processed: seq<UnitId>, units: seq<UnitId>)
    requires Fifo(p, fromUnit, processed, units) && units != []
    ensures Fifo(p, fromUnit, processed + [units[0]], units[1..] + p.SuccsOf(units[0]))
  {
    var taken := processed + [units[0]];
    FifoTake(p, fromUnit, processed, units);
    assert taken[..|taken| - 1] == processed;
    assert taken + (units[1..] + p.SuccsOf(units[0])) == processed + units + p.SuccsOf(units[0]);
  }

  /** Every unit waiting in the queue belongs to a method the CFG knows. */
  predicate QueueKnown(p: Program, units: seq<UnitId>)
  {
    forall k :: 0 <= k < |units| ==> units[k] in p.methodOf
  }

  /** In a closed program the successors enqueued are known too. */
  lemma QueueKnownEnqueue(p: Program, units: seq<UnitId>)
    requires Closed(p) && QueueKnown(p, units) && units != []
    ensures QueueKnown(p, units[1..] + p.SuccsOf(units[0]))
  {
    var next := units[1..] + p.SuccsOf(units[0]);
    forall k | 0 <= k < |next|
      ensures next[k] in p.methodOf
    {
      if k < |units| - 1 {
        assert next[k] == units[k + 1];
      } else {
        assert next[k] == p.succsOf[units[0]][k - (|units| - 1)];
      }
    }
  }

  /** doPropForCallers visits a call site whose method is neither from dummyMain nor on the stack. */
  predicate CallerEnters(p: Program, c: UnitId, stack: seq<MethodId>)
  {
    c in p.methodOf && !FromDummyMain(p, p.methodOf[c]) && p.methodOf[c] !in stack
  }

  /** The call sites doPropForCallers visits, in order. */
  function VisitedCallers(p: Program, callers: seq<UnitId>, stack: seq<MethodId>): seq<UnitId>
  {
    if callers == [] then []
    else
      var init := VisitedCallers(p, callers[..|callers| - 1], stack);
      if CallerEnters(p, callers[|callers| - 1], stack) then init + [callers[|callers| - 1]] else init
  }

  /** A call site is visited iff it is a caller that passes both skip tests; the visits keep the callers' order. */
  lemma {:induction false} VisitedCallersFilter(p: Program, callers: seq<UnitId>, stack: seq<MethodId>)
    ensures forall c :: c in VisitedCallers(p, callers, stack) <==> c in callers && CallerEnters(p, c, stack)
    ensures |VisitedCallers(p, callers, stack)| <= |callers|
  {
    if callers != [] {
      var init := callers[..|callers| - 1];
      VisitedCallersFilter(p, init, stack);
      assert callers == init + [callers[|callers| - 1]];
    }
  }

  /** Why a propFromUnit run stopped. */
  datatype Stop = Returned | ReachedSink | Drained | OutOfFuel

  /** The line getSinkOutput prints for a sink: its keys, a comma, and the statement. */
  function SinkLine(p: Program, sinkOutput: map<UnitId, string>, u: UnitId): string
    requires u in sinkOutput
  {
    sinkOutput[u] + [','] + p.TextOf(u)
  }

  class KeyTaintAnalyzer {
    const p: Program
    const store: TagStore
    const keyTaintedVars: seq<KeywordInspector.KeyTaintedVar>
    /** The step budget of each worklist run. */
    const fuel: nat
    /** sinkOutput: for each sink statement reached, the keys recorded there. */
    var sinkOutput: map<UnitId, string>
    /** The Stack<SootMethod> shared by one doTaintProp run: the methods the traversal is inside. */
    var methodStack: seq<MethodId>

    ghost predicate Valid()
      reads store
    {
      store.Valid() && Closed(p)
    }

    /** The constructor records the seeds and runs the propagation from each of them. */
    constructor (p: Program, store: TagStore, keyTaintedVars: seq<KeywordInspector.KeyTaintedVar>, fuel: nat)
      requires store.Valid() && Closed(p)
      requires forall k :: 0 <= k < |keyTaintedVars| ==> keyTaintedVars[k].taintSrcStmt in p.methodOf
      modifies store
      ensures Valid()
      ensures this.p == p && this.store == store && this.keyTaintedVars == keyTaintedVars && this.fuel == fuel
      ensures TagsGrown(old(store.boxTags), store.boxTags) && KeysKept(old(store.keyConsts), store.keyConsts)
    {
      this.p := p;
      this.store := store;
      this.keyTaintedVars := keyTaintedVars;
      this.fuel := fuel;
      sinkOutput := map[];
      methodStack := [];
      new;
      DoTaintPropAll();
    }

    /** hasTaintOnArgs. */
    method HasTaintOnArgs(e: InvokeExpr) returns (b: bool)
      ensures b <==> TaintedArg(store.keyConsts, store.boxTags, e.args)
    {
      for i := 0 to |e.args|
        invariant forall j :: 0 <= j < i ==> KeysOf(store.keyConsts, FirstTagOf(store.boxTags, e.args[j].box)) == []
      {
        var curTag := store.GetTag(e.args[i].box);
        if curTag.Some? && curTag.value in store.keyConsts && store.keyConsts[curTag.value] != [] {
          return true;
        }
      }
      return false;
    }

    /** argContainHttpAddr. */
    method ArgContainHttpAddr(args: seq<Value>) returns (b: bool)
      ensures b <==> HttpArg(args)
    {
      for i := 0 to |args|
        invariant forall j :: 0 <= j < i ==> !HttpAddr(args[j].text)
      {
        var curArgInStr := UnescapeString(args[i].text);
        curArgInStr := ToLower(curArgInStr);
        if Contains(curArgInStr, HttpScheme) || Contains(curArgInStr, HttpsScheme) {
          return true;
        }
      }
      return false;
    }

    /** mergeArgKeyTags: the tags of the arguments merged into a fresh tag, or null. */
    method MergeArgKeyTags(e: InvokeExpr) returns (r: Option<TagId>)
      requires store.Valid()
      modifies store
      ensures store.Valid()
      ensures store.boxTags == old(store.boxTags)
      ensures r.None? <==> MergedKeys(old(store.keyConsts), ArgTags(old(store.boxTags), e.args)) == []
      ensures r.None? ==> store.keyConsts == old(store.keyConsts)
      ensures r.Some? ==> r.value !in old(store.keyConsts)
      ensures r.Some? ==> store.keyConsts == old(store.keyConsts)[r.value := MergedKeys(old(store.keyConsts), ArgTags(old(store.boxTags), e.args))]
    {
      var argTags: seq<Option<TagId>> := [];
      for i := 0 to |e.args|
        invariant argTags == ArgTags(store.boxTags, e.args[..i])
      {
        assert e.args[..i + 1][..i] == e.args[..i];
        argTags := argTags + [store.GetTag(e.args[i].box)];
      }
      assert e.args[..|e.args|] == e.args;
      r := store.Merge(argTags);
    }

    /** tryGetSinkPointKeys. */
    method TryGetSinkPointKeys(u: UnitId) returns (r: Option<string>)
      requires store.Valid()
      modifies store
      ensures store.Valid()
      ensures r == SinkKeys(old(store.keyConsts), old(store.boxTags), p.StmtOf(u))
      ensures store.boxTags == old(store.boxTags) && KeysKept(old(store.keyConsts), store.keyConsts)
    {
      var s := p.StmtOf(u);
      if !s.InvokeStmt? {
        return None;
      }
      var http := ArgContainHttpAddr(s.invoke.args);
      if !http {
        return None;
      }
      var mergedTag := MergeArgKeyTags(s.invoke);
      if mergedTag.None? {
        return None;
      }
      var text := store.ToString(mergedTag.value);
      return Some(text);
    }

    /** tryHandleSinks: a sink's keys overwrite whatever was recorded for the statement before. */
    method TryHandleSinks(u: UnitId) returns (b: bool)
      requires store.Valid()
      modifies store, this`sinkOutput
      ensures store.Valid()
      ensures store.boxTags == old(store.boxTags) && KeysKept(old(store.keyConsts), store.keyConsts)
      ensures b <==> SinkKeys(old(store.keyConsts), old(store.boxTags), p.StmtOf(u)).Some?
      ensures b ==> sinkOutput == old(sinkOutput)[u := SinkKeys(old(store.keyConsts), old(store.boxTags), p.StmtOf(u)).value]
      ensures !b ==> sinkOutput == old(sinkOutput)
    {
      var keyConstsAtSink := TryGetSinkPointKeys(u);
      if keyConstsAtSink.Some? {
        sinkOutput := sinkOutput[u := keyConstsAtSink.value];
        return true;
      }
      return false;
    }

    /** The assignment step of propAssignStmt: leftBox.addTag(rightBox.getTag()). */
    method AliasTag(left: BoxId, right: BoxId)
      requires store.Valid()
      modifies store
      ensures store.Valid()
      ensures Aliased(old(store.boxTags), store.boxTags, left, right)
      ensures store.keyConsts == old(store.keyConsts)
    {
      var keyTag := store.GetTag(right);
      if keyTag.Some? {
        store.AddTag(left, keyTag.value);
      }
    }

    /** propInMethodBody: entered tells whether the body was entered. */
    method PropInMethodBody(m: MethodId, fuel: nat) returns (entered: bool)
      requires Valid()
      modifies store, this`sinkOutput, this`methodStack
      decreases fuel, 0
      ensures Valid()
      ensures methodStack == old(methodStack)
      ensures TagsGrown(old(store.boxTags), store.boxTags) && KeysKept(old(store.keyConsts), store.keyConsts)
      ensures old(sinkOutput).Keys <= sinkOutput.Keys
      ensures entered <==> fuel > 0 && Enterable(p, m, old(methodStack))
      ensures !entered ==> (store.boxTags == old(store.boxTags) && store.keyConsts == old(store.keyConsts)
        && sinkOutput == old(sinkOutput))
    {
      if fuel == 0 || FromDummyMain(p, m) || m in methodStack || p.BodyOf(m) == [] {
        return false;
      }
      var firstUnitOfTarget := p.BodyOf(m)[0];
      EnterableFirstUnit(p, m, methodStack);
      methodStack := methodStack + [m];
      var _, _, _ := PropFromUnit(firstUnitOfTarget, fuel - 1);
      methodStack := methodStack[..|methodStack| - 1];
      return true;
    }

    /**
     * propInstanceInvoke: with arguments whose merged tag is not null, the
     * receiver box is tagged with the merged tag and the callee's body is
     * visited; otherwise nothing happens. tag is the merged tag.
     */
    method PropInstanceInvoke(e: InvokeExpr, fuel: nat) returns (entered: bool, ghost tag: Option<TagId>)
      requires Valid() && e.IsInstance()
      modifies store, this`sinkOutput, this`methodStack
      decreases fuel, 1
      ensures Valid()
      ensures methodStack == old(methodStack)
      ensures TagsGrown(old(store.boxTags), store.boxTags) && KeysKept(old(store.keyConsts), store.keyConsts)
      ensures old(sinkOutput).Keys <= sinkOutput.Keys
      ensures !InstanceTaints(old(store.keyConsts), old(store.boxTags), e) ==>
        store.boxTags == old(store.boxTags) && store.keyConsts == old(store.keyConsts) && sinkOutput == old(sinkOutput)
      ensures InstanceTaints(old(store.keyConsts), old(store.boxTags), e) ==>
        tag.Some? && BaseTaggedWithMerge(old(store.keyConsts), old(store.boxTags), store.keyConsts, store.boxTags, e, tag.value)
      ensures InstanceTaints(old(store.keyConsts), old(store.boxTags), e) ==> store.GetTag(e.base).Some?
      ensures entered <==> (InstanceTaints(old(store.keyConsts), old(store.boxTags), e)
        && fuel > 0 && Enterable(p, e.callee, old(methodStack)))
    {
      tag := None;
      if |e.args| == 0 {
        return false, None;
      }
      var mergedTags := MergeArgKeyTags(e);
      if mergedTags.None? {
        return false, None;
      }
      store.AddTag(e.base, mergedTags.value);
      tag := mergedTags;
      ghost var tagged, keys := store.boxTags, store.keyConsts;
      assert TagsGrown(old(store.boxTags), tagged) && KeysKept(old(store.keyConsts), keys);
      assert BaseTaggedWithMerge(old(store.keyConsts), old(store.boxTags), keys, tagged, e, mergedTags.value);
      entered := PropInMethodBody(e.callee, fuel);
      GrownTrans(old(store.boxTags), tagged, store.boxTags, old(store.keyConsts), keys, store.keyConsts);
      TagsGrownKeepsFirst(tagged, store.boxTags, e.base);
      BaseTaggedGrown(old(store.keyConsts), old(store.boxTags), keys, tagged, store.keyConsts, store.boxTags, e, mergedTags.value);
    }

    /** propStaticInvoke: the callee's body is visited only when some argument is tainted. */
    method PropStaticInvoke(e: InvokeExpr, fuel: nat) returns (entered: bool)
      requires Valid()
      modifies store, this`sinkOutput, this`methodStack
      decreases fuel, 1
      ensures Valid()
      ensures methodStack == old(methodStack)
      ensures TagsGrown(old(store.boxTags), store.boxTags) && KeysKept(old(store.keyConsts), store.keyConsts)
      ensures old(sinkOutput).Keys <= sinkOutput.Keys
      ensures !TaintedArg(old(store.keyConsts), old(store.boxTags), e.args) ==>
        store.boxTags == old(store.boxTags) && store.keyConsts == old(store.keyConsts) && sinkOutput == old(sinkOutput)
      ensures entered <==> (TaintedArg(old(store.keyConsts), old(store.boxTags), e.args)
        && fuel > 0 && Enterable(p, e.callee, old(methodStack)))
    {
      var tainted := HasTaintOnArgs(e);
      if !tainted {
        return false;
      }
      entered := PropInMethodBody(e.callee, fuel);
    }

    /** propInvokeExpr: instance and static invokes are handled; any other kind is ignored. */
    method PropInvokeExpr(e: InvokeExpr, fuel: nat) returns (entered: bool, ghost tag: Option<TagId>)
      requires Valid()
      modifies store, this`sinkOutput, this`methodStack
      decreases fuel, 2
      ensures Valid()
      ensures methodStack == old(methodStack)
      ensures TagsGrown(old(store.boxTags), store.boxTags) && KeysKept(old(store.keyConsts), store.keyConsts)
      ensures old(sinkOutput).Keys <= sinkOutput.Keys
      ensures !InvokeTaints(old(store.keyConsts), old(store.boxTags), e) ==>
        store.boxTags == old(store.boxTags) && store.keyConsts == old(store.keyConsts) && sinkOutput == old(sinkOutput)
      ensures CallEffect(p, old(store.keyConsts), old(store.boxTags), store.keyConsts, store.boxTags, e, fuel, old(methodStack), entered, tag)
      ensures e.kind == DynamicInvoke ==> (!entered && store.boxTags == old(store.boxTags)
        && store.keyConsts == old(store.keyConsts) && sinkOutput == old(sinkOutput))
    {
      tag := None;
      if e.IsInstance() {
        entered, tag := PropInstanceInvoke(e, fuel);
      } else if e.kind == StaticInvoke {
        entered := PropStaticInvoke(e, fuel);
      } else {
        entered := false;
      }
    }

    /**
     * propAssignStmt: the call inside the assignment first, then the right
     * box's tag onto the left box. mid is the box tags between the two; entered
     * and tag are the call's.
     */
    method PropAssignStmt(s: Stmt, fuel: nat)
      returns (ghost mid: map<BoxId, seq<TagId>>, ghost entered: bool, ghost tag: Option<TagId>)
      requires Valid() && s.AssignStmt?
      modifies store, this`sinkOutput, this`methodStack
      decreases fuel, 3
      ensures Valid()
      ensures methodStack == old(methodStack)
      ensures TagsGrown(old(store.boxTags), store.boxTags) && KeysKept(old(store.keyConsts), store.keyConsts)
      ensures old(sinkOutput).Keys <= sinkOutput.Keys
      ensures TagsGrown(old(store.boxTags), mid) && Aliased(mid, store.boxTags, s.left, s.right)
      ensures s.call.None? ==> (mid == old(store.boxTags) && !entered
        && store.keyConsts == old(store.keyConsts) && sinkOutput == old(sinkOutput))
      ensures s.call.Some? && !InvokeTaints(old(store.keyConsts), old(store.boxTags), s.call.value) ==>
        (mid == old(store.boxTags) && store.keyConsts == old(store.keyConsts) && sinkOutput == old(sinkOutput))
      ensures s.call.Some? ==>
        CallEffect(p, old(store.keyConsts), old(store.boxTags), store.keyConsts, store.boxTags, s.call.value, fuel, old(methodStack), entered, tag)
      ensures s.call.None? ==> (Aliased(old(store.boxTags), store.boxTags, s.left, s.right)
        && store.keyConsts == old(store.keyConsts) && sinkOutput == old(sinkOutput))
      ensures FirstTagOf(old(store.boxTags), s.right).Some? ==> store.GetTag(s.left).Some?
    {
      entered, tag := false, None;
      if s.call.Some? {
        entered, tag := PropInvokeExpr(s.call.value, fuel);
      }
      mid := store.boxTags;
      ghost var keys := store.keyConsts;
      AliasTag(s.left, s.right);
      AliasedShares(mid, store.boxTags, s.left, s.right);
      if s.call.Some? {
        CallEffectGrown(p, old(store.keyConsts), old(store.boxTags), keys, mid, store.keyConsts, store.boxTags,
          s.call.value, fuel, old(methodStack), entered, tag);
      }
      if FirstTagOf(old(store.boxTags), s.right).Some? {
        TagsGrownKeepsFirst(old(store.boxTags), mid, s.right);
      }
    }

    /**
     * propByUnit, with propInvokeStmt folded in: assignments and invoke
     * statements propagate; other units do nothing. mid, entered and tag are
     * as for propAssignStmt, or the invoke's.
     */
    method PropByUnit(u: UnitId, fuel: nat)
      returns (ghost mid: map<BoxId, seq<TagId>>, ghost entered: bool, ghost tag: Option<TagId>)
      requires Valid()
      modifies store, this`sinkOutput, this`methodStack
      decreases fuel, 4
      ensures Valid()
      ensures methodStack == old(methodStack)
      ensures TagsGrown(old(store.boxTags), store.boxTags) && KeysKept(old(store.keyConsts), store.keyConsts)
      ensures old(sinkOutput).Keys <= sinkOutput.Keys
      ensures p.StmtOf(u).AssignStmt? ==>
        (TagsGrown(old(store.boxTags), mid) && Aliased(mid, store.boxTags, p.StmtOf(u).left, p.StmtOf(u).right)
        && (p.StmtOf(u).call.None? ==> mid == old(store.boxTags) && !entered)
        && (p.StmtOf(u).call.Some? ==> CallEffect(p, old(store.keyConsts), old(store.boxTags), store.keyConsts, store.boxTags,
              p.StmtOf(u).call.value, fuel, old(methodStack), entered, tag)))
      ensures p.StmtOf(u).InvokeStmt? ==>
        CallEffect(p, old(store.keyConsts), old(store.boxTags), store.keyConsts, store.boxTags, p.StmtOf(u).invoke, fuel, old(methodStack), entered, tag)
      ensures p.StmtOf(u).InvokeStmt? && !InvokeTaints(old(store.keyConsts), old(store.boxTags), p.StmtOf(u).invoke) ==>
        store.boxTags == old(store.boxTags) && store.keyConsts == old(store.keyConsts) && sinkOutput == old(sinkOutput)
      ensures !p.StmtOf(u).AssignStmt? && !p.StmtOf(u).InvokeStmt? ==>
        store.boxTags == old(store.boxTags) && store.keyConsts == old(store.keyConsts) && sinkOutput == old(sinkOutput)
    {
      mid, entered, tag := store.boxTags, false, None;
      var s := p.StmtOf(u);
      if s.AssignStmt? {
        mid, entered, tag := PropAssignStmt(s, fuel);
      } else if s.InvokeStmt? {
        entered, tag := PropInvokeExpr(s.invoke, fuel);
      }
    }

    /**
     * doPropForCallers: every call site of the returning method whose method
     * is neither from dummyMain nor on the stack is visited, with its method
     * pushed for the visit and popped after it.
     */
    method DoPropForCallers(retStmt: UnitId, fuel: nat) returns (visited: seq<UnitId>)
      requires Valid() && retStmt in p.methodOf && fuel > 0
      modifies store, this`sinkOutput, this`methodStack
      decreases fuel, 4
      ensures Valid()
      ensures methodStack == old(methodStack)
      ensures TagsGrown(old(store.boxTags), store.boxTags) && KeysKept(old(store.keyConsts), store.keyConsts)
      ensures old(sinkOutput).Keys <= sinkOutput.Keys
      ensures visited == VisitedCallers(p, p.CallersOf(p.methodOf[retStmt]), old(methodStack))
    {
      var callerStmts := p.CallersOf(p.methodOf[retStmt]);
      visited := [];
      for i := 0 to |callerStmts|
        invariant Valid()
        invariant methodStack == old(methodStack)
        invariant TagsGrown(old(store.boxTags), store.boxTags) && KeysKept(old(store.keyConsts), store.keyConsts)
        invariant old(sinkOutput).Keys <= sinkOutput.Keys
        invariant visited == VisitedCallers(p, callerStmts[..i], old(methodStack))
      {
        assert callerStmts[..i + 1][..i] == callerStmts[..i];
        var curCallerStmt := callerStmts[i];
        var curCallerMethod := p.methodOf[curCallerStmt];
        if FromDummyMain(p, curCallerMethod) || curCallerMethod in methodStack {
          continue;
        }
        PropFromCaller(curCallerStmt, fuel);
        visited := visited + [curCallerStmt];
      }
      assert callerStmts[..|callerStmts|] == callerStmts;
    }

    /** The visit of one caller: its method is pushed, the run starts at the call site, and the method is popped again. */
    method PropFromCaller(caller: UnitId, fuel: nat)
      requires Valid() && caller in p.methodOf && fuel > 0
      modifies store, this`sinkOutput, this`methodStack
      decreases fuel, 3
      ensures Valid()
      ensures methodStack == old(methodStack)
      ensures TagsGrown(old(store.boxTags), store.boxTags) && KeysKept(old(store.keyConsts), store.keyConsts)
      ensures old(sinkOutput).Keys <= sinkOutput.Keys
    {
      methodStack := methodStack + [p.methodOf[caller]];
      var _, _, _ := PropFromUnit(caller, fuel - 1);
      methodStack := methodStack[..|methodStack| - 1];
    }

    /**
     * One turn of propFromUnit's loop: the unit's propagation, then either
     * the callers of a return or the sink check. A result ends the run.
     */
    method PropAtUnit(curUnit: UnitId, fuel: nat) returns (ended: Option<Stop>, ghost visited: seq<UnitId>)
      requires Valid() && curUnit in p.methodOf && fuel > 0
      modifies store, this`sinkOutput, this`methodStack
      decreases fuel, 5
      ensures Valid()
      ensures methodStack == old(methodStack)
      ensures TagsGrown(old(store.boxTags), store.boxTags) && KeysKept(old(store.keyConsts), store.keyConsts)
      ensures old(sinkOutput).Keys <= sinkOutput.Keys
      ensures ended == Some(Returned) <==> IsReturn(p.StmtOf(curUnit))
      ensures ended.Some? ==> ended == Some(Returned) || ended == Some(ReachedSink)
      ensures ended == Some(ReachedSink) ==> curUnit in sinkOutput
      ensures !IsReturn(p.StmtOf(curUnit)) ==>
        (ended == Some(ReachedSink) <==> SinkKeys(store.keyConsts, store.boxTags, p.StmtOf(curUnit)).Some?)
      ensures ended == Some(ReachedSink) ==>
        sinkOutput[curUnit] == SinkKeys(store.keyConsts, store.boxTags, p.StmtOf(curUnit)).value
      ensures IsReturn(p.StmtOf(curUnit)) ==> visited == VisitedCallers(p, p.CallersOf(p.methodOf[curUnit]), old(methodStack))
      ensures !IsReturn(p.StmtOf(curUnit)) ==> visited == []
    {
      visited := [];
      ghost var mid, entered, tag := PropByUnit(curUnit, fuel);
      if IsReturn(p.StmtOf(curUnit)) {
        visited := DoPropForCallers(curUnit, fuel);
        return Some(Returned), visited;
      }
      ghost var km, bm := store.keyConsts, store.boxTags;
      var sank := TryHandleSinks(curUnit);
      SinkKeysKept(km, store.keyConsts, bm, p.StmtOf(curUnit));
      if sank {
        return Some(ReachedSink), visited;
      }
      return None, visited;
    }

    /**
     * One turn of propFromUnit's worklist loop: the head unit is processed and
     * its successors enqueued. b0, k0 and s0 are the tags, keys and sink
     * statements at the start of the run, which only grow.
     */
    method PropStep(ghost fromUnit: UnitId, processed: seq<UnitId>, units: seq<UnitId>, fuel: nat,
                    ghost b0: map<BoxId, seq<TagId>>, ghost k0: map<TagId, seq<string>>, ghost s0: set<UnitId>,
                    ghost seen: seq<TagState>)
      returns (ended: Option<Stop>, taken: seq<UnitId>, next: seq<UnitId>, ghost seen': seq<TagState>)
      requires Valid() && units != [] && fuel > 0
      requires Fifo(p, fromUnit, processed, units) && QueueKnown(p, units)
      requires forall k :: 0 <= k < |processed| ==> !IsReturn(p.StmtOf(processed[k]))
      requires TagsGrown(b0, store.boxTags) && KeysKept(k0, store.keyConsts) && s0 <= sinkOutput.Keys
      requires |seen| == |processed| && GrownChain((b0, k0), seen, (store.boxTags, store.keyConsts))
      requires NoSinkBefore(p, processed, seen, |processed|)
      modifies store, this`sinkOutput, this`methodStack
      decreases fuel, 6
      ensures Valid()
      ensures methodStack == old(methodStack)
      ensures TagsGrown(b0, store.boxTags) && KeysKept(k0, store.keyConsts) && s0 <= sinkOutput.Keys
      ensures TagsGrown(old(store.boxTags), store.boxTags) && KeysKept(old(store.keyConsts), store.keyConsts)
      ensures taken == processed + [units[0]] && next == units[1..] + p.SuccsOf(units[0])
      ensures Fifo(p, fromUnit, taken, next) && QueueKnown(p, next)
      ensures taken[0] == fromUnit
      ensures forall k :: 0 <= k < |taken| - 1 ==> !IsReturn(p.StmtOf(taken[k]))
      ensures ended.None? ==> forall k :: 0 <= k < |taken| ==> !IsReturn(p.StmtOf(taken[k]))
      ensures ended.Some? ==> ended.value == Returned || ended.value == ReachedSink
      ensures ended == Some(Returned) <==> IsReturn(p.StmtOf(taken[|taken| - 1]))
      ensures ended == Some(ReachedSink) ==> taken[|taken| - 1] in sinkOutput
      ensures !IsReturn(p.StmtOf(taken[|taken| - 1])) ==>
        (ended == Some(ReachedSink) <==> SinkKeys(store.keyConsts, store.boxTags, p.StmtOf(taken[|taken| - 1])).Some?)
      ensures ended == Some(ReachedSink) ==>
        sinkOutput[taken[|taken| - 1]] == SinkKeys(store.keyConsts, store.boxTags, p.StmtOf(taken[|taken| - 1])).value
      ensures seen' == seen + [(store.boxTags, store.keyConsts)]
      ensures GrownChain((b0, k0), seen', (store.boxTags, store.keyConsts))
      ensures NoSinkBefore(p, taken, seen', |taken| - 1)
      ensures ended.None? ==> NoSinkBefore(p, taken, seen', |taken|)
    {
      FifoTake(p, fromUnit, processed, units);
      FifoEnqueue(p, fromUnit, processed, units);
      QueueKnownEnqueue(p, units);
      ghost var b1, k1 := store.boxTags, store.keyConsts;
      ghost var visited;
      ended, visited := PropAtUnit(units[0], fuel);
      GrownTrans(b0, b1, store.boxTags, k0, k1, store.keyConsts);
      next := units[1..] + p.SuccsOf(units[0]);
      taken := processed + [units[0]];
      assert forall k :: 0 <= k < |taken| - 1 ==> taken[k] == processed[k];
      assert taken[|taken| - 1] == units[0];
      seen' := seen + [(store.boxTags, store.keyConsts)];
      GrownChainExtend((b0, k0), seen, (b1, k1), (store.boxTags, store.keyConsts));
      NoSinkExtend(p, processed, seen, units[0], (store.boxTags, store.keyConsts));
    }

    /**
     * propFromUnit: the worklist run from one unit. processed lists the units
     * taken from the queue, in order; they are a prefix of everything
     * enqueued (the start unit, then the successors of each processed unit in
     * turn), so the queue is first in, first out. A return ends the run after
     * its callers are visited, a sink ends it after it is recorded, and an
     * empty queue or the step budget ends it otherwise.
     */
    method PropFromUnit(fromUnit: UnitId, fuel: nat) returns (processed: seq<UnitId>, stop: Stop, ghost seen: seq<TagState>)
      requires Valid() && fromUnit in p.methodOf
      modifies store, this`sinkOutput, this`methodStack
      decreases fuel, 8
      ensures Valid()
      ensures methodStack == old(methodStack)
      ensures TagsGrown(old(store.boxTags), store.boxTags) && KeysKept(old(store.keyConsts), store.keyConsts)
      ensures old(sinkOutput).Keys <= sinkOutput.Keys
      ensures processed == [] <==> fuel == 0
      ensures processed != [] ==> processed[0] == fromUnit
      ensures processed != [] ==> processed <= [fromUnit] + SuccsAll(p, processed[..|processed| - 1])
      ensures |processed| <= fuel
      ensures forall k :: 0 <= k < |processed| - 1 ==> !IsReturn(p.StmtOf(processed[k]))
      ensures stop == Returned <==> processed != [] && IsReturn(p.StmtOf(processed[|processed| - 1]))
      ensures stop == ReachedSink ==> processed != [] && processed[|processed| - 1] in sinkOutput
      ensures processed != [] && !IsReturn(p.StmtOf(processed[|processed| - 1])) ==>
        (stop == ReachedSink <==> SinkKeys(store.keyConsts, store.boxTags, p.StmtOf(processed[|processed| - 1])).Some?)
      ensures stop == ReachedSink ==>
        sinkOutput[processed[|processed| - 1]] == SinkKeys(store.keyConsts, store.boxTags, p.StmtOf(processed[|processed| - 1])).value
      ensures stop == Drained ==> processed == [fromUnit] + SuccsAll(p, processed)
      ensures stop == OutOfFuel ==> |processed| == fuel
      ensures |seen| == |processed|
      ensures GrownChain((old(store.boxTags), old(store.keyConsts)), seen, (store.boxTags, store.keyConsts))
      ensures NoSinkBefore(p, processed, seen, |processed| - 1)
    {
      var ended, units;
      ended, processed, units, seen := PropWorklist(fromUnit, fuel);
      stop := if ended.Some? then ended.value else if units == [] then Drained else OutOfFuel;
    }

    /** The while loop of propFromUnit: steps until a step ends the run, the queue drains or the budget is spent. */
    method PropWorklist(fromUnit: UnitId, fuel: nat)
      returns (ended: Option<Stop>, processed: seq<UnitId>, units: seq<UnitId>, ghost seen: seq<TagState>)
      requires Valid() && fromUnit in p.methodOf
      modifies store, this`sinkOutput, this`methodStack
      decreases fuel, 7
      ensures Valid()
      ensures methodStack == old(methodStack)
      ensures TagsGrown(old(store.boxTags), store.boxTags) && KeysKept(old(store.keyConsts), store.keyConsts)
      ensures old(sinkOutput).Keys <= sinkOutput.Keys
      ensures ended.Some? || units == [] || |processed| == fuel
      ensures |processed| <= fuel && (processed == [] <==> fuel == 0)
      ensures Fifo(p, fromUnit, processed, units)
      ensures processed != [] ==> processed[0] == fromUnit
      ensures forall k :: 0 <= k < |processed| - 1 ==> !IsReturn(p.StmtOf(processed[k]))
      ensures ended.Some? ==> processed != [] && (ended.value == Returned || ended.value == ReachedSink)
      ensures ended == Some(Returned) <==> processed != [] && IsReturn(p.StmtOf(processed[|processed| - 1]))
      ensures ended == Some(ReachedSink) ==> processed[|processed| - 1] in sinkOutput
      ensures processed != [] && !IsReturn(p.StmtOf(processed[|processed| - 1])) ==>
        (ended == Some(ReachedSink) <==> SinkKeys(store.keyConsts, store.boxTags, p.StmtOf(processed[|processed| - 1])).Some?)
      ensures ended == Some(ReachedSink) ==>
        sinkOutput[processed[|processed| - 1]] == SinkKeys(store.keyConsts, store.boxTags, p.StmtOf(processed[|processed| - 1])).value
      ensures |seen| == |processed|
      ensures GrownChain((old(store.boxTags), old(store.keyConsts)), seen, (store.boxTags, store.keyConsts))
      ensures NoSinkBefore(p, processed, seen, |processed| - 1)
    {
      units := [fromUnit];
      processed := [];
      var steps := fuel;
      ghost var b0, k0, s0 := store.boxTags, store.keyConsts, sinkOutput.Keys;
      ended := None;
      seen := [];
      while ended.None? && units != [] && steps > 0
        invariant Valid()
        invariant methodStack == old(methodStack)
        invariant TagsGrown(b0, store.boxTags) && KeysKept(k0, store.keyConsts) && s0 <= sinkOutput.Keys
        invariant steps >= 0 && steps + |processed| == fuel
        invariant Fifo(p, fromUnit, processed, units)
        invariant QueueKnown(p, units)
        invariant processed != [] ==> processed[0] == fromUnit
        invariant forall k :: 0 <= k < |processed| - 1 ==> !IsReturn(p.StmtOf(processed[k]))
        invariant ended.None? ==> forall k :: 0 <= k < |processed| ==> !IsReturn(p.StmtOf(processed[k]))
        invariant ended.Some? ==> processed != [] && (ended.value == Returned || ended.value == ReachedSink)
        invariant ended == Some(Returned) <==> processed != [] && IsReturn(p.StmtOf(processed[|processed| - 1]))
        invariant ended == Some(ReachedSink) ==> processed[|processed| - 1] in sinkOutput
        invariant processed != [] && !IsReturn(p.StmtOf(processed[|processed| - 1])) ==>
          (ended == Some(ReachedSink) <==> SinkKeys(store.keyConsts, store.boxTags, p.StmtOf(processed[|processed| - 1])).Some?)
        invariant ended == Some(ReachedSink) ==>
          sinkOutput[processed[|processed| - 1]] == SinkKeys(store.keyConsts, store.boxTags, p.StmtOf(processed[|processed| - 1])).value
        invariant |seen| == |processed|
        invariant GrownChain((b0, k0), seen, (store.boxTags, store.keyConsts))
        invariant NoSinkBefore(p, processed, seen, |processed| - 1)
        invariant ended.None? ==> NoSinkBefore(p, processed, seen, |processed|)
        decreases steps
      {
        ended, processed, units, seen := PropStep(fromUnit, processed, units, fuel, b0, k0, s0, seen);
        steps := steps - 1;
      }
    }

    /** doTaintProp for one seed: a fresh stack holding the seed's method, then the run from the seed statement. */
    method DoTaintProp(v: KeywordInspector.KeyTaintedVar) returns (processed: seq<UnitId>, stop: Stop, ghost seen: seq<TagState>)
      requires Valid() && v.taintSrcStmt in p.methodOf
      modifies store, this`sinkOutput, this`methodStack
      ensures Valid()
      ensures methodStack == [p.methodOf[v.taintSrcStmt]]
      ensures TagsGrown(old(store.boxTags), store.boxTags) && KeysKept(old(store.keyConsts), store.keyConsts)
      ensures old(sinkOutput).Keys <= sinkOutput.Keys
      ensures processed == [] <==> fuel == 0
      ensures processed != [] ==> processed[0] == v.taintSrcStmt
      ensures processed != [] ==> processed <= [v.taintSrcStmt] + SuccsAll(p, processed[..|processed| - 1])
      ensures |processed| <= fuel
      ensures forall k :: 0 <= k < |processed| - 1 ==> !IsReturn(p.StmtOf(processed[k]))
      ensures stop == Returned <==> processed != [] && IsReturn(p.StmtOf(processed[|processed| - 1]))
      ensures stop == ReachedSink ==> processed != [] && processed[|processed| - 1] in sinkOutput
      ensures processed != [] && !IsReturn(p.StmtOf(processed[|processed| - 1])) ==>
        (stop == ReachedSink <==> SinkKeys(store.keyConsts, store.boxTags, p.StmtOf(processed[|processed| - 1])).Some?)
      ensures stop == ReachedSink ==>
        sinkOutput[processed[|processed| - 1]] == SinkKeys(store.keyConsts, store.boxTags, p.StmtOf(processed[|processed| - 1])).value
      ensures stop == Drained ==> processed == [v.taintSrcStmt] + SuccsAll(p, processed)
      ensures stop == OutOfFuel ==> |processed| == fuel
      ensures |seen| == |processed|
      ensures GrownChain((old(store.boxTags), old(store.keyConsts)), seen, (store.boxTags, store.keyConsts))
      ensures NoSinkBefore(p, processed, seen, |processed| - 1)
    {
      methodStack := [p.methodOf[v.taintSrcStmt]];
      processed, stop, seen := PropFromUnit(v.taintSrcStmt, fuel);
    }

    /** doTaintProp: one run per seed, in seed order. */
    method DoTaintPropAll()
      requires Valid()
      requires forall k :: 0 <= k < |keyTaintedVars| ==> keyTaintedVars[k].taintSrcStmt in p.methodOf
      modifies store, this`sinkOutput, this`methodStack
      ensures Valid()
      ensures TagsGrown(old(store.boxTags), store.boxTags) && KeysKept(old(store.keyConsts), store.keyConsts)
      ensures old(sinkOutput).Keys <= sinkOutput.Keys
    {
      for i := 0 to |keyTaintedVars|
        invariant Valid()
        invariant TagsGrown(old(store.boxTags), store.boxTags) && KeysKept(old(store.keyConsts), store.keyConsts)
        invariant old(sinkOutput).Keys <= sinkOutput.Keys
      {
        var _, _, _ := DoTaintProp(keyTaintedVars[i]);
      }
    }

    /** getSinkOutput: one line per recorded sink, in no particular order. */
    method GetSinkOutput() returns (lines: seq<string>)
      ensures |lines| == |sinkOutput|
      ensures forall line :: line in lines <==> exists u :: u in sinkOutput && line == SinkLine(p, sinkOutput, u)
    {
      lines := [];
      var rest := sinkOutput.Keys;
      ghost var done: set<UnitId> := {};
      while rest != {}
        invariant rest + done == sinkOutput.Keys && rest !! done
        invariant |lines| == |done|
        invariant forall line :: line in lines <==> exists u :: u in done && line == SinkLine(p, sinkOutput, u)
        decreases |rest|
      {
        var u :| u in rest;
        lines := lines + [SinkLine(p, sinkOutput, u)];
        rest := rest - {u};
        done := done + {u};
      }
    }
  }
}
