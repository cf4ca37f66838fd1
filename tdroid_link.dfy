/**
 * TDroidLink: the set of sensitive data entries, "1,<keyword>,<class>.<method>",
 * one per raw data block statistic that has a keyword, for tracking in
 * TaintDroid.
 */
module TDroidLink {
  import opened Wrappers
  import opened JavaString
  import opened Jimple
  import opened KeyTaintTags
  import opened KeywordInspector

  /** INFO_TYPE; the only kind of entry there is. */
  const InfoType := "1"

  /** The entry for a keyword found in method m. */
  function InfoLine(p: Program, keyword: string, m: MethodId): string
  {
    InfoType + [','] + keyword + [','] + p.ClassNameOf(m) + ['.'] + p.MethodAt(m).name
  }

  /** genSensitiveDataInfo dereferences getMethodOf's answer for every raw stat with a keyword. */
  predicate MethodsKnown(p: Program, raws: seq<DataBlockRawStat>)
  {
    forall k :: 0 <= k < |raws| && raws[k].keyword.Some? ==> raws[k].statement in p.methodOf
  }

  /** The entries of the raw stats, in order. */
  function SensitiveInfo(p: Program, raws: seq<DataBlockRawStat>): set<string>
    requires MethodsKnown(p, raws)
  {
    if raws == [] then {}
    else
      var r := raws[|raws| - 1];
      SensitiveInfo(p, raws[..|raws| - 1]) +
        (if r.keyword.Some? then {InfoLine(p, r.keyword.value, p.methodOf[r.statement])} else {})
  }

  /** The number of raw stats that have a keyword. */
  function WithKeyword(raws: seq<DataBlockRawStat>): nat
  {
    if raws == [] then 0 else WithKeyword(raws[..|raws| - 1]) + (if raws[|raws| - 1].keyword.Some? then 1 else 0)
  }

  /** The raw stat r, which has a keyword, gives the entry line. */
  predicate EntryOf(p: Program, r: DataBlockRawStat, line: string)
  {
    r.keyword.Some? && r.statement in p.methodOf && line == InfoLine(p, r.keyword.value, p.methodOf[r.statement])
  }

  /**
   * An entry is in the set iff some raw stat with a keyword produces it; raw
   * stats with a null keyword contribute nothing.
   */
  lemma {:induction false} SensitiveInfoEntries(p: Program, raws: seq<DataBlockRawStat>)
    requires MethodsKnown(p, raws)
    ensures forall line :: line in SensitiveInfo(p, raws) <==> exists k :: 0 <= k < |raws| && EntryOf(p, raws[k], line)
  {
    if raws != [] {
      var init := raws[..|raws| - 1];
      var r := raws[|raws| - 1];
      MethodsKnownPrefix(p, raws, |raws| - 1);
      SensitiveInfoEntries(p, init);
      assert SensitiveInfo(p, raws) == SensitiveInfo(p, init) + (if r.keyword.Some? then {InfoLine(p, r.keyword.value, p.methodOf[r.statement])} else {});
      forall line | line in SensitiveInfo(p, raws)
        ensures exists k :: 0 <= k < |raws| && EntryOf(p, raws[k], line)
      {
        if line in SensitiveInfo(p, init) {
          var k :| 0 <= k < |init| && EntryOf(p, init[k], line);
          assert raws[k] == init[k];
        } else {
          assert EntryOf(p, raws[|init|], line);
        }
      }
      forall line | exists k :: 0 <= k < |raws| && EntryOf(p, raws[k], line)
        ensures line in SensitiveInfo(p, raws)
      {
        var k :| 0 <= k < |raws| && EntryOf(p, raws[k], line);
        if k < |init| {
          assert init[k] == raws[k];
          assert EntryOf(p, init[k], line);
        }
      }
    }
  }

  /** Duplicates collapse, so there are at most as many entries as raw stats with a keyword. */
  lemma {:induction false} SensitiveInfoBound(p: Program, raws: seq<DataBlockRawStat>)
    requires MethodsKnown(p, raws)
    ensures |SensitiveInfo(p, raws)| <= WithKeyword(raws)
  {
    if raws != [] {
      var init := raws[..|raws| - 1];
      var r := raws[|raws| - 1];
      MethodsKnownPrefix(p, raws, |raws| - 1);
      SensitiveInfoBound(p, init);
      var added: set<string> := if r.keyword.Some? then {InfoLine(p, r.keyword.value, p.methodOf[r.statement])} else {};
      assert SensitiveInfo(p, raws) == SensitiveInfo(p, init) + added;
      assert |SensitiveInfo(p, init) + added| <= |SensitiveInfo(p, init)| + |added|;
    }
  }

  lemma MethodsKnownPrefix(p: Program, raws: seq<DataBlockRawStat>, n: nat)
    requires MethodsKnown(p, raws) && n <= |raws|
    ensures MethodsKnown(p, raws[..n])
  {
    forall k | 0 <= k < n && raws[..n][k].keyword.Some?
      ensures raws[..n][k].statement in p.methodOf
    {
      assert raws[..n][k] == raws[k];
    }
  }

  /** A null keyword adds nothing. */
  lemma NullKeywordContributesNothing(p: Program, raws: seq<DataBlockRawStat>, r: DataBlockRawStat)
    requires MethodsKnown(p, raws + [r]) && r.keyword.None?
    ensures MethodsKnown(p, raws)
    ensures SensitiveInfo(p, raws + [r]) == SensitiveInfo(p, raws)
  {
    assert (raws + [r])[..|raws|] == raws;
    forall k | 0 <= k < |raws| && raws[k].keyword.Some?
      ensures raws[k].statement in p.methodOf
    {
      assert raws[k] == (raws + [r])[k];
    }
  }

  /** Cutting at the first separator, when the left part holds none. */
  lemma SplitAllAfter(a: string, b: string, c: char)
    requires c !in a
    ensures SplitAll(a + [c] + b, c) == [a] + SplitAll(b, c)
  {
    var s := a + [c] + b;
    forall j | 0 <= j < |a|
      ensures s[j] != c
    {
      assert s[j] == a[j];
    }
    SplitAllAtFirst(s, c, |a|);
    assert s[..|a|] == a && s[|a| + 1..] == b;
  }

  /** A string without the separator is one piece. */
  lemma SplitAllWhole(s: string, c: char)
    requires c !in s
    ensures SplitAll(s, c) == [s]
  {
    assert IndexOfChar(s, c, 0) == -1;
  }

  /** An entry reads back, on commas, as the info type, the keyword and "class.method" when neither name holds a comma. */
  lemma InfoLineFields(p: Program, keyword: string, m: MethodId)
    requires ',' !in keyword && ',' !in p.ClassNameOf(m) && ',' !in p.MethodAt(m).name
    ensures SplitAll(InfoLine(p, keyword, m), ',') == [InfoType, keyword, p.ClassNameOf(m) + ['.'] + p.MethodAt(m).name]
  {
    var qualified := p.ClassNameOf(m) + ['.'] + p.MethodAt(m).name;
    var tail := keyword + [','] + qualified;
    assert InfoLine(p, keyword, m) == InfoType + [','] + tail;
    SplitAllAfter(InfoType, tail, ',');
    SplitAllAfter(keyword, qualified, ',');
    SplitAllWhole(qualified, ',');
  }

  class TDroidLink {
    const p: Program
    const rawStat: seq<DataBlockRawStat>
    /** sensitiveDataInfo (a HashSet; its order is not modelled). */
    var sensitiveDataInfo: set<string>

    constructor (p: Program, rawStat: seq<DataBlockRawStat>)
      requires MethodsKnown(p, rawStat)
      ensures this.p == p && this.rawStat == rawStat
      ensures sensitiveDataInfo == SensitiveInfo(p, rawStat)
    {
      this.p := p;
      this.rawStat := rawStat;
      sensitiveDataInfo := {};
      new;
      GenSensitiveDataInfo();
    }

    /** genSensitiveDataInfo: adds the entry of every raw stat that has a keyword. */
    method GenSensitiveDataInfo()
      requires MethodsKnown(p, rawStat)
      modifies this`sensitiveDataInfo
      ensures sensitiveDataInfo == old(sensitiveDataInfo) + SensitiveInfo(p, rawStat)
    {
      for i := 0 to |rawStat|
        invariant MethodsKnown(p, rawStat[..i])
        invariant sensitiveDataInfo == old(sensitiveDataInfo) + SensitiveInfo(p, rawStat[..i])
      {
        assert rawStat[..i + 1][..i] == rawStat[..i];
        MethodsKnownPrefix(p, rawStat, i + 1);
        var curRawStat := rawStat[i];
        if curRawStat.keyword.None? {
          continue;
        }
        var curMethod := p.methodOf[curRawStat.statement];
        var curSensitiveDataInfo := InfoType + [','] + curRawStat.keyword.value + [','] + p.ClassNameOf(curMethod) + ['.'] + p.MethodAt(curMethod).name;
        sensitiveDataInfo := sensitiveDataInfo + {curSensitiveDataInfo};
      }
      assert rawStat[..|rawStat|] == rawStat;
    }

    /** getSensitiveDataInfo. */
    method GetSensitiveDataInfo() returns (info: set<string>)
      ensures info == sensitiveDataInfo
    {
      return sensitiveDataInfo;
    }
  }
}
