/**
 * RootCallerMethodInspector: groups the raw data block statistics by data
 * block id into one record per id, holding every keyword seen with that id
 * and the method of the first statement seen with it.
 */
module RootCallerMethodInspector {
  import opened Wrappers
  import opened Jimple
  import opened KeywordInspector

  /** DataBlockInfo; a keyword is None where the raw stat had a null keyword. fromMethod is getMethodOf's answer. */
  datatype DataBlockInfo = DataBlockInfo(dataBlockId: string, keywords: set<Option<string>>, fromMethod: Option<MethodId>)

  /** The refinedInfo map after the raw stats, in order. */
  function Refined(p: Program, raws: seq<DataBlockRawStat>): map<string, DataBlockInfo>
  {
    if raws == [] then map[]
    else
      var m := Refined(p, raws[..|raws| - 1]);
      var r := raws[|raws| - 1];
      if r.dataBlockId in m then m[r.dataBlockId := m[r.dataBlockId].(keywords := m[r.dataBlockId].keywords + {r.keyword})]
      else m[r.dataBlockId := DataBlockInfo(r.dataBlockId, {r.keyword}, p.MethodOf(r.statement))]
  }

  /** The keywords of all raw stats with the id, null included. */
  function KeywordsWithId(raws: seq<DataBlockRawStat>, id: string): set<Option<string>>
  {
    set k | 0 <= k < |raws| && raws[k].dataBlockId == id :: raws[k].keyword
  }

  /** k is the first raw stat with the id. */
  predicate FirstWithId(raws: seq<DataBlockRawStat>, id: string, k: int)
  {
    0 <= k < |raws| && raws[k].dataBlockId == id && forall j :: 0 <= j < k ==> raws[j].dataBlockId != id
  }

  /**
   * One record per distinct id; the record for an id carries that id, the
   * keywords of every raw stat with it, and the method of the first such
   * raw stat.
   */
  lemma RefinedRecords(p: Program, raws: seq<DataBlockRawStat>)
    ensures Refined(p, raws).Keys == RawIds(raws)
    ensures forall id :: id in Refined(p, raws) ==>
      Refined(p, raws)[id].dataBlockId == id && Refined(p, raws)[id].keywords == KeywordsWithId(raws, id)
    ensures forall id :: id in Refined(p, raws) ==>
      exists k :: FirstWithId(raws, id, k) && Refined(p, raws)[id].fromMethod == p.MethodOf(raws[k].statement)
  {
    RefinedKeys(p, raws);
    RefinedKeywords(p, raws);
    RefinedFirstMethod(p, raws);
  }

  lemma {:induction false} RefinedKeys(p: Program, raws: seq<DataBlockRawStat>)
    ensures Refined(p, raws).Keys == RawIds(raws)
  {
    if raws != [] {
      var init := raws[..|raws| - 1];
      var r := raws[|raws| - 1];
      RefinedKeys(p, init);
      assert raws == init + [r];
      RawIdsAppend(init, [r]);
      assert RawIds([r]) == {r.dataBlockId} by {
        assert [r][0] == r;
      }
    }
  }

  lemma {:induction false} RefinedKeywords(p: Program, raws: seq<DataBlockRawStat>)
    ensures forall id :: id in Refined(p, raws) ==>
      Refined(p, raws)[id].dataBlockId == id && Refined(p, raws)[id].keywords == KeywordsWithId(raws, id)
  {
    if raws != [] {
      var init := raws[..|raws| - 1];
      var r := raws[|raws| - 1];
      RefinedKeywords(p, init);
      assert raws == init + [r];
      var m0 := Refined(p, init);
      forall id | id in Refined(p, raws)
        ensures Refined(p, raws)[id].dataBlockId == id && Refined(p, raws)[id].keywords == KeywordsWithId(raws, id)
      {
        KeywordsWithIdSnoc(init, r, id);
        if id != r.dataBlockId {
          assert Refined(p, raws)[id] == m0[id];
        } else if id in m0 {
          assert Refined(p, raws)[id] == m0[id].(keywords := m0[id].keywords + {r.keyword});
        } else {
          assert KeywordsWithId(init, id) == {} by {
            RefinedKeys(p, init);
            forall k | 0 <= k < |init|
              ensures init[k].dataBlockId != id
            {
              assert init[k].dataBlockId in RawIds(init);
            }
          }
        }
      }
    }
  }

  lemma {:induction false} RefinedFirstMethod(p: Program, raws: seq<DataBlockRawStat>)
    ensures forall id :: id in Refined(p, raws) ==>
      exists k :: FirstWithId(raws, id, k) && Refined(p, raws)[id].fromMethod == p.MethodOf(raws[k].statement)
  {
    if raws != [] {
      var init := raws[..|raws| - 1];
      var r := raws[|raws| - 1];
      RefinedFirstMethod(p, init);
      var m0 := Refined(p, init);
      forall id | id in Refined(p, raws)
        ensures exists k :: FirstWithId(raws, id, k) && Refined(p, raws)[id].fromMethod == p.MethodOf(raws[k].statement)
      {
        if id in m0 {
          var k :| FirstWithId(init, id, k) && m0[id].fromMethod == p.MethodOf(init[k].statement);
          assert raws[k] == init[k];
          forall j | 0 <= j < k
            ensures raws[j].dataBlockId != id
          {
            assert raws[j] == init[j];
          }
          assert FirstWithId(raws, id, k);
        } else {
          assert id == r.dataBlockId;
          RefinedKeys(p, init);
          forall j | 0 <= j < |init|
            ensures raws[j].dataBlockId != id
          {
            assert raws[j] == init[j];
            assert init[j].dataBlockId in RawIds(init);
          }
          assert FirstWithId(raws, id, |init|);
        }
      }
    }
  }

  lemma KeywordsWithIdSnoc(init: seq<DataBlockRawStat>, r: DataBlockRawStat, id: string)
    ensures KeywordsWithId(init + [r], id) ==
      KeywordsWithId(init, id) + (if r.dataBlockId == id then {r.keyword} else {})
  {
    var raws := init + [r];
    forall x | x in KeywordsWithId(raws, id)
      ensures x in KeywordsWithId(init, id) + (if r.dataBlockId == id then {r.keyword} else {})
    {
      var k :| 0 <= k < |raws| && raws[k].dataBlockId == id && raws[k].keyword == x;
      if k < |init| {
        assert init[k] == raws[k];
      }
    }
    forall x | x in KeywordsWithId(init, id)
      ensures x in KeywordsWithId(raws, id)
    {
      var k :| 0 <= k < |init| && init[k].dataBlockId == id && init[k].keyword == x;
      assert raws[k] == init[k];
    }
    if r.dataBlockId == id {
      assert raws[|init|] == r;
    }
  }

  /** The records, in the map's (unspecified) order, have pairwise distinct ids. */
  predicate DistinctIds(records: seq<DataBlockInfo>)
  {
    forall i, j :: 0 <= i < |records| && 0 <= j < |records| && records[i].dataBlockId == records[j].dataBlockId ==> i == j
  }

  /** No element occurs twice. */
  predicate DistinctSeq(s: seq<string>)
  {
    forall i, j :: 0 <= i < j < |s| ==> s[i] != s[j]
  }

  lemma {:induction false} DistinctSeqCard(s: seq<string>)
    requires DistinctSeq(s)
    ensures |set x | x in s| == |s|
  {
    if s != [] {
      var init := s[..|s| - 1];
      assert DistinctSeq(init) by {
        forall i, j | 0 <= i < j < |init|
          ensures init[i] != init[j]
        {
          assert init[i] == s[i] && init[j] == s[j];
        }
      }
      DistinctSeqCard(init);
      assert s == init + [s[|s| - 1]];
      assert (set x | x in s) == (set x | x in init) + {s[|s| - 1]};
      assert s[|s| - 1] !in init by {
        forall i | 0 <= i < |init|
          ensures init[i] != s[|s| - 1]
        {
          assert init[i] == s[i];
        }
      }
    }
  }

  /** The records listed in the order of their ids, one per key of the map. */
  lemma ListedRecords(m: map<string, DataBlockInfo>, order: seq<string>, list: seq<DataBlockInfo>)
    requires forall id :: id in order <==> id in m
    requires DistinctSeq(order)
    requires |list| == |order| && forall k :: 0 <= k < |order| ==> list[k] == m[order[k]]
    requires forall id :: id in m ==> m[id].dataBlockId == id
    ensures |list| == |m|
    ensures forall x :: x in list <==> x in m.Values
    ensures DistinctIds(list)
    ensures forall id :: id in m <==> exists k :: 0 <= k < |list| && list[k].dataBlockId == id
  {
    DistinctSeqCard(order);
    assert (set x | x in order) == m.Keys;
    forall x | x in m.Values
      ensures x in list
    {
      var id :| id in m && m[id] == x;
      var k :| 0 <= k < |order| && order[k] == id;
      assert list[k] == x;
    }
    forall id | id in m
      ensures exists k :: 0 <= k < |list| && list[k].dataBlockId == id
    {
      var k :| 0 <= k < |order| && order[k] == id;
      assert list[k].dataBlockId == id;
    }
    forall i, j | 0 <= i < |list| && 0 <= j < |list| && list[i].dataBlockId == list[j].dataBlockId
      ensures i == j
    {
      assert list[i].dataBlockId == order[i] && list[j].dataBlockId == order[j];
    }
  }

  class RootCallerMethodInspector {
    const p: Program
    const rawStat: seq<DataBlockRawStat>
    var dataBlocksInfo: seq<DataBlockInfo>

    constructor (p: Program, rawStat: seq<DataBlockRawStat>)
      ensures this.p == p && this.rawStat == rawStat
      ensures |dataBlocksInfo| == |Refined(p, rawStat)|
      ensures forall x :: x in dataBlocksInfo <==> x in Refined(p, rawStat).Values
    {
      this.p := p;
      this.rawStat := rawStat;
      new;
      dataBlocksInfo := RefineDataBlockInfo();
    }

    /** The grouping loop: refinedInfo after the raw stats, in order. */
    method RefineIntoMap() returns (refinedInfo: map<string, DataBlockInfo>)
      ensures refinedInfo == Refined(p, rawStat)
    {
      refinedInfo := map[];
      for i := 0 to |rawStat|
        invariant refinedInfo == Refined(p, rawStat[..i])
      {
        assert rawStat[..i + 1][..i] == rawStat[..i];
        var curRawStat := rawStat[i];
        if curRawStat.dataBlockId in refinedInfo {
          var curRefinedInfo := refinedInfo[curRawStat.dataBlockId];
          curRefinedInfo := curRefinedInfo.(keywords := curRefinedInfo.keywords + {curRawStat.keyword});
          refinedInfo := refinedInfo[curRawStat.dataBlockId := curRefinedInfo];
        } else {
          var curRefinedInfo := DataBlockInfo(curRawStat.dataBlockId, {curRawStat.keyword}, p.MethodOf(curRawStat.statement));
          refinedInfo := refinedInfo[curRawStat.dataBlockId := curRefinedInfo];
        }
      }
      assert rawStat[..|rawStat|] == rawStat;
    }

    /**
     * refineDataBlockInfo: the records of the map, as a list; one per
     * distinct id, each with its id's keywords.
     */
    method RefineDataBlockInfo() returns (refinedInfoInList: seq<DataBlockInfo>)
      ensures |refinedInfoInList| == |Refined(p, rawStat)|
      ensures forall x :: x in refinedInfoInList <==> x in Refined(p, rawStat).Values
      ensures DistinctIds(refinedInfoInList)
      ensures forall id :: id in RawIds(rawStat) <==> exists k :: 0 <= k < |refinedInfoInList| && refinedInfoInList[k].dataBlockId == id
      ensures forall k :: 0 <= k < |refinedInfoInList| ==>
        refinedInfoInList[k].keywords == KeywordsWithId(rawStat, refinedInfoInList[k].dataBlockId)
    {
      var refinedInfo := RefineIntoMap();
      refinedInfoInList := [];
      var rest := refinedInfo.Keys;
      ghost var order: seq<string> := [];
      while rest != {}
        invariant rest <= refinedInfo.Keys
        invariant forall id :: id in order <==> id in refinedInfo && id !in rest
        invariant DistinctSeq(order)
        invariant |refinedInfoInList| == |order|
        invariant forall k :: 0 <= k < |order| ==> refinedInfoInList[k] == refinedInfo[order[k]]
        decreases |rest|
      {
        var id :| id in rest;
        refinedInfoInList := refinedInfoInList + [refinedInfo[id]];
        order := order + [id];
        rest := rest - {id};
      }
      RefinedRecords(p, rawStat);
      ListedRecords(refinedInfo, order, refinedInfoInList);
    }

    /** getRootCallerMethodInfo: the root caller methods of data blocks are not computed; the info is empty. */
    method GetRootCallerMethodInfo() returns (info: string)
      ensures info == ""
    {
      return "";
    }
  }
}
