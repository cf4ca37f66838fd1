/**
 * util/WordCounter: a frequency map filled by Count, and its entries listed
 * by non-increasing count with their keys unescaped (getListInDesc).
 */
module WordCounter {
  import opened StringUtil

  /** A map entry: a key and its count. */
  type Entry = (string, nat)

  /** The counts after one Count call per word, in order. */
  function Tally(words: seq<string>): map<string, nat>
  {
    if words == [] then map[]
    else
      var m := Tally(words[..|words| - 1]);
      var w := words[|words| - 1];
      m[w := (if w in m then m[w] else 0) + 1]
  }

  lemma TallySnoc(words: seq<string>, w: string)
    ensures Tally(words + [w]) == Tally(words)[w := (if w in Tally(words) then Tally(words)[w] else 0) + 1]
  {
    assert (words + [w])[..|words|] == words;
  }

  /** Each word's count is the number of Count calls made with it, and only counted words have one. */
  lemma {:induction false} TallyCounts(words: seq<string>)
    ensures forall w :: w in Tally(words) <==> w in words
    ensures forall w :: w in Tally(words) ==> Tally(words)[w] == multiset(words)[w]
  {
    if words != [] {
      var init := words[..|words| - 1];
      var last := words[|words| - 1];
      TallyCounts(init);
      assert words == init + [last];
      forall w
        ensures w in Tally(words) <==> w in words
        ensures w in Tally(words) ==> Tally(words)[w] == multiset(words)[w]
      {
        assert multiset(words)[w] == multiset(init)[w] + (if w == last then 1 else 0);
        if w in init {
          assert w in words;
        }
        if w in words && w != last {
          var i :| 0 <= i < |words| && words[i] == w;
          assert i < |init| && init[i] == w;
        }
        if w !in init {
          assert multiset(init)[w] == 0;
        }
      }
    }
  }

  predicate NonIncreasing(s: seq<Entry>)
  {
    forall i, j :: 0 <= i < j < |s| ==> s[i].1 >= s[j].1
  }

  /** Inserting e into a non-increasing list, after every entry with at least its count. */
  function InsertDesc(e: Entry, s: seq<Entry>): seq<Entry>
  {
    if s == [] then [e]
    else if s[0].1 >= e.1 then [s[0]] + InsertDesc(e, s[1..])
    else [e] + s
  }

  /** Collections.sort with the descending-count comparator: a stable sort, written as insertion. */
  function SortDesc(s: seq<Entry>): seq<Entry>
  {
    if s == [] then [] else InsertDesc(s[|s| - 1], SortDesc(s[..|s| - 1]))
  }

  /** Inserting adds e and loses nothing. */
  lemma {:induction false} InsertDescPerm(e: Entry, s: seq<Entry>)
    ensures multiset(InsertDesc(e, s)) == multiset(s) + multiset{e}
    ensures |InsertDesc(e, s)| == |s| + 1
  {
    if s != [] && s[0].1 >= e.1 {
      InsertDescPerm(e, s[1..]);
      assert s == [s[0]] + s[1..];
    }
  }

  /** An entry at least as large as every entry of a non-increasing list can go in front of it. */
  lemma ConsNonIncreasing(x: Entry, r: seq<Entry>)
    requires NonIncreasing(r)
    requires forall k :: 0 <= k < |r| ==> x.1 >= r[k].1
    ensures NonIncreasing([x] + r)
  {
    var res := [x] + r;
    forall i, j | 0 <= i < j < |res| ensures res[i].1 >= res[j].1 {
      assert res[j] == r[j - 1];
      if i > 0 {
        assert res[i] == r[i - 1];
      }
    }
  }

  /** A bound on the counts of e and of s bounds the counts of InsertDesc(e, s). */
  lemma InsertDescBounded(e: Entry, s: seq<Entry>, b: nat)
    requires b >= e.1 && forall k :: 0 <= k < |s| ==> b >= s[k].1
    ensures forall k :: 0 <= k < |InsertDesc(e, s)| ==> b >= InsertDesc(e, s)[k].1
  {
    var r := InsertDesc(e, s);
    InsertDescPerm(e, s);
    forall k | 0 <= k < |r| ensures b >= r[k].1 {
      var x := r[k];
      assert x in multiset(s) + multiset{e};
      if x != e {
        assert x in s;
        var j :| 0 <= j < |s| && s[j] == x;
      }
    }
  }

  /** Inserting into a non-increasing list keeps it non-increasing. */
  lemma {:induction false} InsertDescSorted(e: Entry, s: seq<Entry>)
    requires NonIncreasing(s)
    ensures NonIncreasing(InsertDesc(e, s))
  {
    if s != [] && s[0].1 >= e.1 {
      var t := s[1..];
      assert forall k :: 0 <= k < |t| ==> s[0].1 >= t[k].1 by {
        forall k | 0 <= k < |t| ensures s[0].1 >= t[k].1 {
          assert t[k] == s[k + 1];
        }
      }
      InsertDescSorted(e, t);
      InsertDescBounded(e, t, s[0].1);
      ConsNonIncreasing(s[0], InsertDesc(e, t));
    } else if s != [] {
      assert forall k :: 0 <= k < |s| ==> e.1 >= s[k].1 by {
        forall k | 0 <= k < |s| ensures e.1 >= s[k].1 {
          if k > 0 {
            assert s[0].1 >= s[k].1;
          }
        }
      }
      ConsNonIncreasing(e, s);
    }
  }

  /** The sorted list is non-increasing and a permutation of its input. */
  lemma {:induction false} SortDescSorted(s: seq<Entry>)
    ensures NonIncreasing(SortDesc(s))
    ensures multiset(SortDesc(s)) == multiset(s)
  {
    if s != [] {
      SortDescSorted(s[..|s| - 1]);
      InsertDescSorted(s[|s| - 1], SortDesc(s[..|s| - 1]));
      InsertDescPerm(s[|s| - 1], SortDesc(s[..|s| - 1]));
      assert s == s[..|s| - 1] + [s[|s| - 1]];
    }
  }

  /** The entries of s with count c, in their order in s. */
  function WithCount(s: seq<Entry>, c: nat): seq<Entry>
  {
    if s == [] then [] else (if s[0].1 == c then [s[0]] else []) + WithCount(s[1..], c)
  }

  lemma {:induction false} WithCountAppend(a: seq<Entry>, b: seq<Entry>, c: nat)
    ensures WithCount(a + b, c) == WithCount(a, c) + WithCount(b, c)
  {
    if a == [] {
      assert a + b == b;
    } else {
      var head := if a[0].1 == c then [a[0]] else [];
      assert (a + b)[0] == a[0] && (a + b)[1..] == a[1..] + b;
      WithCountAppend(a[1..], b, c);
      assert WithCount(a + b, c) == head + (WithCount(a[1..], c) + WithCount(b, c));
      assert head + (WithCount(a[1..], c) + WithCount(b, c)) == (head + WithCount(a[1..], c)) + WithCount(b, c);
    }
  }

  lemma {:induction false} WithCountNone(s: seq<Entry>, c: nat)
    requires forall k :: 0 <= k < |s| ==> s[k].1 < c
    ensures WithCount(s, c) == []
  {
    if s != [] {
      WithCountNone(s[1..], c);
    }
  }

  lemma WithCountCons(x: Entry, r: seq<Entry>, c: nat)
    ensures WithCount([x] + r, c) == (if x.1 == c then [x] else []) + WithCount(r, c)
  {
    var xr := [x] + r;
    assert xr[0] == x && xr[1..] == r;
  }

  lemma NonIncreasingTail(s: seq<Entry>)
    requires s != [] && NonIncreasing(s)
    ensures NonIncreasing(s[1..])
  {
    var t := s[1..];
    forall i, j | 0 <= i < j < |t| ensures t[i].1 >= t[j].1 {
      assert t[i] == s[i + 1] && t[j] == s[j + 1];
    }
  }

  /** Below the head of a non-increasing list means below all of it. */
  lemma BelowHead(s: seq<Entry>, c: nat)
    requires s != [] && NonIncreasing(s) && s[0].1 < c
    ensures forall k :: 0 <= k < |s| ==> s[k].1 < c
  {
    forall k | 0 <= k < |s| ensures s[k].1 < c {
      if k > 0 {
        assert s[0].1 >= s[k].1;
      }
    }
  }

  /** Inserting e into a non-increasing list puts it after every entry with its count. */
  lemma {:induction false} InsertDescWithCount(e: Entry, s: seq<Entry>, c: nat)
    requires NonIncreasing(s)
    ensures WithCount(InsertDesc(e, s), c) == WithCount(s, c) + (if e.1 == c then [e] else [])
  {
    var tail := if e.1 == c then [e] else [];
    if s == [] {
      WithCountCons(e, [], c);
      assert [e] == [e] + [];
      assert tail + [] == [] + tail;
    } else if s[0].1 >= e.1 {
      var t := s[1..];
      assert s == [s[0]] + t;
      NonIncreasingTail(s);
      InsertDescWithCount(e, t, c);
      var head := if s[0].1 == c then [s[0]] else [];
      assert InsertDesc(e, s) == [s[0]] + InsertDesc(e, t);
      WithCountCons(s[0], InsertDesc(e, t), c);
      WithCountCons(s[0], t, c);
      assert head + (WithCount(t, c) + tail) == (head + WithCount(t, c)) + tail;
    } else {
      assert InsertDesc(e, s) == [e] + s;
      WithCountCons(e, s, c);
      if e.1 == c {
        BelowHead(s, c);
        WithCountNone(s, c);
        assert [e] + [] == [] + [e];
      } else {
        assert [] + WithCount(s, c) == WithCount(s, c) + [];
      }
    }
  }

  /**
   * Collections.sort is stable: entries with the same count keep their
   * relative order, which PutUnescaped's last-put-wins relies on.
   */
  lemma {:induction false} SortDescStable(s: seq<Entry>, c: nat)
    ensures WithCount(SortDesc(s), c) == WithCount(s, c)
  {
    if s != [] {
      var init, last := s[..|s| - 1], s[|s| - 1];
      SortDescStable(init, c);
      SortDescSorted(init);
      InsertDescWithCount(last, SortDesc(init), c);
      WithCountSnoc(s, c);
    }
  }

  lemma WithCountSnoc(s: seq<Entry>, c: nat)
    requires s != []
    ensures WithCount(s, c) == WithCount(s[..|s| - 1], c) + (if s[|s| - 1].1 == c then [s[|s| - 1]] else [])
  {
    var init, last := s[..|s| - 1], s[|s| - 1];
    assert s == init + [last];
    WithCountAppend(init, [last], c);
    assert WithCount([last], c) == (if last.1 == c then [last] else []) + WithCount([], c);
  }

  /** LinkedHashMap.put on an insertion-ordered entry list: a present key keeps its place and takes the new count. */
  function Put(m: seq<Entry>, k: string, v: nat): seq<Entry>
  {
    if m == [] then [(k, v)]
    else if m[0].0 == k then [(k, v)] + m[1..]
    else [m[0]] + Put(m[1..], k, v)
  }

  /** The LinkedHashMap getListInDesc fills: each sorted entry put under its unescaped key. */
  function PutUnescaped(sorted: seq<Entry>): seq<Entry>
  {
    if sorted == [] then []
    else
      var e := sorted[|sorted| - 1];
      Put(PutUnescaped(sorted[..|sorted| - 1]), Unescape(e.0), e.1)
  }

  function KeySet(m: seq<Entry>): set<string>
  {
    set i | 0 <= i < |m| :: m[i].0
  }

  /** The keys of the entries, unescaped. */
  function UnescapedKeys(s: seq<Entry>): set<string>
  {
    set i | 0 <= i < |s| :: Unescape(s[i].0)
  }

  /** The keys of the map, unescaped. */
  function UnescapedMapKeys(m: map<string, nat>): set<string>
  {
    set k | k in m :: Unescape(k)
  }

  predicate DistinctKeys(m: seq<Entry>)
  {
    forall i, j :: 0 <= i < j < |m| ==> m[i].0 != m[j].0
  }

  /** The entries with their keys unescaped. */
  function UnescapeKeys(s: seq<Entry>): seq<Entry>
  {
    seq(|s|, i requires 0 <= i < |s| => (Unescape(s[i].0), s[i].1))
  }

  lemma KeySetCons(e: Entry, r: seq<Entry>)
    ensures KeySet([e] + r) == {e.0} + KeySet(r)
  {
    var c := [e] + r;
    forall x | x in KeySet(c)
      ensures x in {e.0} + KeySet(r)
    {
      var i :| 0 <= i < |c| && c[i].0 == x;
      if i > 0 {
        assert r[i - 1].0 == x;
      }
    }
    assert c[0].0 == e.0;
    forall x | x in KeySet(r)
      ensures x in KeySet(c)
    {
      var i :| 0 <= i < |r| && r[i].0 == x;
      assert c[i + 1].0 == x;
    }
  }

  lemma {:induction false} PutKeys(m: seq<Entry>, k: string, v: nat)
    requires DistinctKeys(m)
    ensures DistinctKeys(Put(m, k, v))
    ensures KeySet(Put(m, k, v)) == KeySet(m) + {k}
    ensures k !in KeySet(m) ==> Put(m, k, v) == m + [(k, v)]
  {
    if m == [] {
      KeySetCons((k, v), []);
      assert KeySet([]) == {};
      assert [(k, v)] == [(k, v)] + [];
      DistinctCons((k, v), []);
    } else {
      var h, t := m[0], m[1..];
      assert m == [h] + t;
      KeySetCons(h, t);
      DistinctCons(h, t);
      if h.0 == k {
        assert Put(m, k, v) == [(k, v)] + t;
        KeySetCons((k, v), t);
        DistinctCons((k, v), t);
        assert k in KeySet(m);
      } else {
        PutKeys(t, k, v);
        var r := Put(t, k, v);
        assert Put(m, k, v) == [h] + r;
        KeySetCons(h, r);
        DistinctCons(h, r);
        if k !in KeySet(m) {
          assert k !in KeySet(t);
          assert r == t + [(k, v)];
          assert [h] + (t + [(k, v)]) == m + [(k, v)];
        }
      }
    }
  }

  /** A list with a head has distinct keys iff its tail does and the head's key is not among them. */
  lemma DistinctCons(e: Entry, r: seq<Entry>)
    ensures DistinctKeys([e] + r) <==> DistinctKeys(r) && e.0 !in KeySet(r)
  {
    var c := [e] + r;
    if DistinctKeys(c) {
      forall i, j | 0 <= i < j < |r|
        ensures r[i].0 != r[j].0
      {
        assert r[i] == c[i + 1] && r[j] == c[j + 1];
      }
      forall x | x in KeySet(r)
        ensures x != e.0
      {
        var i :| 0 <= i < |r| && r[i].0 == x;
        assert c[i + 1] == r[i] && c[0] == e;
      }
    }
    if DistinctKeys(r) && e.0 !in KeySet(r) {
      forall i, j | 0 <= i < j < |c|
        ensures c[i].0 != c[j].0
      {
        assert c[j] == r[j - 1];
        if i > 0 {
          assert c[i] == r[i - 1];
        } else {
          assert r[j - 1].0 in KeySet(r);
        }
      }
    }
  }


  /** An old key keeps its place and takes the new count; every other entry stays. */
  lemma {:induction false} PutInPlace(m: seq<Entry>, k: string, v: nat)
    requires k in KeySet(m)
    ensures exists i :: 0 <= i < |m| && m[i].0 == k && Put(m, k, v) == m[i := (k, v)]
  {
    if m[0].0 == k {
      assert Put(m, k, v) == m[0 := (k, v)];
    } else {
      var j :| 0 <= j < |m| && m[j].0 == k;
      assert m[1..][j - 1].0 == k;
      PutInPlace(m[1..], k, v);
      var i :| 0 <= i < |m[1..]| && m[1..][i].0 == k && Put(m[1..], k, v) == m[1..][i := (k, v)];
      assert Put(m, k, v) == m[i + 1 := (k, v)];
    }
  }

  /** The result holds each unescaped key once, and nothing else. */
  lemma {:induction false} PutUnescapedKeys(sorted: seq<Entry>)
    ensures DistinctKeys(PutUnescaped(sorted))
    ensures KeySet(PutUnescaped(sorted)) == UnescapedKeys(sorted)
  {
    if sorted != [] {
      var init := sorted[..|sorted| - 1];
      var e := sorted[|sorted| - 1];
      PutUnescapedKeys(init);
      PutKeys(PutUnescaped(init), Unescape(e.0), e.1);
      var lhs := UnescapedKeys(sorted);
      var rhs := (set i | 0 <= i < |init| :: Unescape(init[i].0)) + {Unescape(e.0)};
      assert lhs == rhs by {
        forall x | x in lhs ensures x in rhs {
          var i :| 0 <= i < |sorted| && Unescape(sorted[i].0) == x;
          if i < |init| { assert init[i] == sorted[i]; }
        }
        forall x | x in rhs ensures x in lhs {
          if x != Unescape(e.0) {
            var i :| 0 <= i < |init| && Unescape(init[i].0) == x;
            assert sorted[i] == init[i];
          }
        }
      }
    } else {
      assert KeySet([]) == {};
    }
  }

  /** x is the j-th sorted entry with its key unescaped, and no later entry unescapes to the same key. */
  predicate LastUnder(sorted: seq<Entry>, j: nat, x: Entry)
  {
    j < |sorted| && x == (Unescape(sorted[j].0), sorted[j].1)
    && forall l :: j < l < |sorted| ==> Unescape(sorted[l].0) != x.0
  }

  /** An entry that is last in a prefix stays last when an entry with another key follows. */
  lemma LastUnderSnoc(init: seq<Entry>, e: Entry, j: nat, x: Entry)
    requires LastUnder(init, j, x) && Unescape(e.0) != x.0
    ensures LastUnder(init + [e], j, x)
  {
    var sorted := init + [e];
    assert sorted[j] == init[j];
    forall l | j < l < |sorted|
      ensures Unescape(sorted[l].0) != x.0
    {
      if l < |init| {
        assert sorted[l] == init[l];
      }
    }
  }

  /**
   * Each listed entry is the last sorted entry under its unescaped key, with
   * that entry's count: a later put overwrites an earlier one.
   */
  lemma {:induction false} PutUnescapedLast(sorted: seq<Entry>, i: nat)
    requires i < |PutUnescaped(sorted)|
    ensures exists j: nat :: LastUnder(sorted, j, PutUnescaped(sorted)[i])
  {
    var init := sorted[..|sorted| - 1];
    var e := sorted[|sorted| - 1];
    assert sorted == init + [e];
    var u := Unescape(e.0);
    var r0 := PutUnescaped(init);
    var r := PutUnescaped(sorted);
    assert r == Put(r0, u, e.1);
    PutUnescapedKeys(init);
    PutKeys(r0, u, e.1);
    var i0 := |r0|;
    if u in KeySet(r0) {
      PutInPlace(r0, u, e.1);
      var i1 :| 0 <= i1 < |r0| && r0[i1].0 == u && r == r0[i1 := (u, e.1)];
      i0 := i1;
    }
    if i == i0 {
      assert LastUnder(sorted, |sorted| - 1, r[i]);
    } else {
      assert r[i] == r0[i];
      assert r0[i].0 != u by {
        if u !in KeySet(r0) {
          assert r0[i].0 in KeySet(r0);
        }
      }
      PutUnescapedLast(init, i);
      var j: nat :| LastUnder(init, j, r0[i]);
      LastUnderSnoc(init, e, j, r0[i]);
    }
  }

  /** When no two entries unescape to the same key, the result is the sorted list with keys unescaped, so it stays non-increasing. */
  lemma PutUnescapedWithoutCollision(sorted: seq<Entry>)
    requires forall i, j :: 0 <= i < j < |sorted| ==> Unescape(sorted[i].0) != Unescape(sorted[j].0)
    ensures PutUnescaped(sorted) == UnescapeKeys(sorted)
    ensures NonIncreasing(sorted) ==> NonIncreasing(PutUnescaped(sorted))
  {
    PutUnescapedDistinct(sorted);
    var u := UnescapeKeys(sorted);
    assert forall i :: 0 <= i < |u| ==> u[i].1 == sorted[i].1;
  }

  lemma {:induction false} PutUnescapedDistinct(sorted: seq<Entry>)
    requires forall i, j :: 0 <= i < j < |sorted| ==> Unescape(sorted[i].0) != Unescape(sorted[j].0)
    ensures PutUnescaped(sorted) == UnescapeKeys(sorted)
  {
    if sorted != [] {
      var init := sorted[..|sorted| - 1];
      var e := sorted[|sorted| - 1];
      assert forall i, j :: 0 <= i < j < |init| ==> Unescape(init[i].0) != Unescape(init[j].0) by {
        forall i, j | 0 <= i < j < |init|
          ensures Unescape(init[i].0) != Unescape(init[j].0)
        {
          assert init[i] == sorted[i] && init[j] == sorted[j];
        }
      }
      PutUnescapedDistinct(init);
      PutUnescapedKeys(init);
      assert UnescapedKeys(init) == KeySet(UnescapeKeys(init));
      assert Unescape(e.0) !in KeySet(PutUnescaped(init)) by {
        forall i | 0 <= i < |init|
          ensures Unescape(init[i].0) != Unescape(e.0)
        {
          assert sorted[i] == init[i];
        }
      }
      PutKeys(PutUnescaped(init), Unescape(e.0), e.1);
      var lhs, rhs := UnescapeKeys(sorted), UnescapeKeys(init) + [(Unescape(e.0), e.1)];
      assert |lhs| == |rhs|;
      forall i | 0 <= i < |lhs|
        ensures lhs[i] == rhs[i]
      {
        if i < |init| {
          assert sorted[i] == init[i];
        }
      }
    }
  }

  /** Two keys that unescape alike: the later, smaller count takes the first place, and the order is lost. */
  lemma CollidingKeysBreakOrder()
    ensures var sorted: seq<Entry> := [("a\"", 5), ("b", 4), ("a", 3)];
      NonIncreasing(sorted) && PutUnescaped(sorted) == [("a", 3), ("b", 4)] && !NonIncreasing(PutUnescaped(sorted))
  {
    var s1: seq<Entry> := [("a\"", 5)];
    var s2: seq<Entry> := [("a\"", 5), ("b", 4)];
    var s3: seq<Entry> := [("a\"", 5), ("b", 4), ("a", 3)];
    assert Unescape("a\"") == "a" by {
      assert "a\""[1..] == "\"";
      assert "\""[1..] == "";
    }
    assert Unescape("a") == "a" by {
      assert "a"[1..] == "";
    }
    assert Unescape("b") == "b" by {
      assert "b"[1..] == "";
    }
    assert s1[..0] == [] && s2[..1] == s1 && s3[..2] == s2;
    assert PutUnescaped(s1) == [("a", 5)];
    assert PutUnescaped(s2) == Put([("a", 5)], "b", 4);
    assert Put([("a", 5)], "b", 4) == [("a", 5)] + Put([], "b", 4);
    assert PutUnescaped(s2) == [("a", 5), ("b", 4)];
    assert PutUnescaped(s3) == Put([("a", 5), ("b", 4)], "a", 3);
    var r := PutUnescaped(s3);
    assert r == [("a", 3), ("b", 4)];
    assert r[0].1 < r[1].1;
  }

  /** An enumeration of the map's entries, each key once (the entry set in some iteration order). */
  predicate IsEntryList(m: map<string, nat>, entries: seq<Entry>)
  {
    DistinctKeys(entries)
    && KeySet(entries) == m.Keys
    && forall i :: 0 <= i < |entries| ==> entries[i].0 in m && entries[i].1 == m[entries[i].0]
  }

  class WordCounter {
    var keywordsStat: map<string, nat>

    constructor ()
      ensures keywordsStat == map[]
    {
      keywordsStat := map[];
    }

    /** Count: an unseen word gets count 1, a seen word one more; every other entry stays. */
    method Count(keyword: string)
      modifies this
      ensures keyword in keywordsStat
      ensures keyword in old(keywordsStat) ==> keywordsStat[keyword] == old(keywordsStat)[keyword] + 1
      ensures keyword !in old(keywordsStat) ==> keywordsStat[keyword] == 1
      ensures forall w :: w != keyword ==> (w in keywordsStat <==> w in old(keywordsStat))
      ensures forall w :: w != keyword && w in keywordsStat ==> keywordsStat[w] == old(keywordsStat)[w]
      ensures keywordsStat == old(keywordsStat)[keyword := (if keyword in old(keywordsStat) then old(keywordsStat)[keyword] else 0) + 1]
    {
      if keyword in keywordsStat {
        var keywordCounter := keywordsStat[keyword];
        keywordCounter := keywordCounter + 1;
        keywordsStat := keywordsStat[keyword := keywordCounter];
      } else {
        keywordsStat := keywordsStat[keyword := 1];
      }
    }

    /** The entry set, in whatever order the map iterates. */
    method EntryList() returns (entries: seq<Entry>)
      ensures IsEntryList(keywordsStat, entries)
    {
      entries := [];
      var remaining := keywordsStat.Keys;
      while remaining != {}
        invariant remaining <= keywordsStat.Keys
        invariant DistinctKeys(entries)
        invariant KeySet(entries) !! remaining
        invariant KeySet(entries) + remaining == keywordsStat.Keys
        invariant forall i :: 0 <= i < |entries| ==> entries[i].0 in keywordsStat && entries[i].1 == keywordsStat[entries[i].0]
        decreases remaining
      {
        var k :| k in remaining;
        assert k !in KeySet(entries);
        var old_entries := entries;
        entries := entries + [(k, keywordsStat[k])];
        assert KeySet(entries) == KeySet(old_entries) + {k} by {
          forall x | x in KeySet(entries) ensures x in KeySet(old_entries) + {k} {
            var i :| 0 <= i < |entries| && entries[i].0 == x;
            if i < |old_entries| { assert old_entries[i].0 == x; }
          }
          forall x | x in KeySet(old_entries) ensures x in KeySet(entries) {
            var i :| 0 <= i < |old_entries| && old_entries[i].0 == x;
            assert entries[i].0 == x;
          }
          assert entries[|old_entries|].0 == k;
        }
        forall i | 0 <= i < |old_entries| ensures old_entries[i].0 != k {
          assert old_entries[i].0 in KeySet(old_entries);
        }
        remaining := remaining - {k};
      }
    }

    /**
     * getListInDesc: the entries sorted by non-increasing count, then put
     * into an insertion-ordered map under their unescaped keys.
     */
    method GetListInDesc() returns (result: seq<Entry>)
      ensures exists entries :: IsEntryList(keywordsStat, entries) && result == PutUnescaped(SortDesc(entries))
      ensures DistinctKeys(result)
      ensures KeySet(result) == UnescapedMapKeys(keywordsStat)
      ensures forall i :: 0 <= i < |result| ==> exists k :: k in keywordsStat && result[i] == (Unescape(k), keywordsStat[k])
      ensures (forall k1, k2 :: k1 in keywordsStat && k2 in keywordsStat && k1 != k2 ==> Unescape(k1) != Unescape(k2))
        ==> (NonIncreasing(result) && |result| == |keywordsStat|
          && forall k :: k in keywordsStat ==> (Unescape(k), keywordsStat[k]) in result)
    {
      var entries := EntryList();
      result := PutAllUnescaped(SortDesc(entries));
      ListInDescProperties(keywordsStat, entries);
    }
  }

  /** The put loop of getListInDesc over the sorted entries. */
  method PutAllUnescaped(sorted: seq<Entry>) returns (result: seq<Entry>)
    ensures result == PutUnescaped(sorted)
  {
    result := [];
    for i := 0 to |sorted|
      invariant result == PutUnescaped(sorted[..i])
    {
      assert sorted[..i + 1][..i] == sorted[..i];
      result := Put(result, Unescape(sorted[i].0), sorted[i].1);
    }
    assert sorted[..|sorted|] == sorted;
  }

  /** The result of getListInDesc, for any iteration order of the entries. */
  lemma ListInDescProperties(m: map<string, nat>, entries: seq<Entry>)
    requires IsEntryList(m, entries)
    ensures DistinctKeys(PutUnescaped(SortDesc(entries)))
    ensures KeySet(PutUnescaped(SortDesc(entries))) == UnescapedMapKeys(m)
    ensures forall i :: 0 <= i < |PutUnescaped(SortDesc(entries))| ==>
      exists k :: k in m && PutUnescaped(SortDesc(entries))[i] == (Unescape(k), m[k])
    ensures (forall k1, k2 :: k1 in m && k2 in m && k1 != k2 ==> Unescape(k1) != Unescape(k2))
      ==> NonIncreasing(PutUnescaped(SortDesc(entries))) && |PutUnescaped(SortDesc(entries))| == |m|
    ensures (forall k1, k2 :: k1 in m && k2 in m && k1 != k2 ==> Unescape(k1) != Unescape(k2))
      ==> forall k :: k in m ==> (Unescape(k), m[k]) in PutUnescaped(SortDesc(entries))
  {
    ListInDescKeys(m, entries);
    ListInDescEntries(m, entries);
    if forall k1, k2 :: k1 in m && k2 in m && k1 != k2 ==> Unescape(k1) != Unescape(k2) {
      ListInDescWithoutCollision(m, entries);
    }
  }

  /** getListInDesc's keys are distinct: the counted keywords, unescaped. */
  lemma ListInDescKeys(m: map<string, nat>, entries: seq<Entry>)
    requires IsEntryList(m, entries)
    ensures DistinctKeys(PutUnescaped(SortDesc(entries)))
    ensures KeySet(PutUnescaped(SortDesc(entries))) == UnescapedMapKeys(m)
  {
    var sorted := SortDesc(entries);
    SortDescSorted(entries);
    PutUnescapedKeys(sorted);
    SortedEntriesKeys(m, entries, sorted);
  }

  /** Every entry getListInDesc returns is a counted keyword, unescaped, with its count. */
  lemma ListInDescEntries(m: map<string, nat>, entries: seq<Entry>)
    requires IsEntryList(m, entries)
    ensures forall i :: 0 <= i < |PutUnescaped(SortDesc(entries))| ==>
      exists k :: k in m && PutUnescaped(SortDesc(entries))[i] == (Unescape(k), m[k])
  {
    var sorted := SortDesc(entries);
    var r := PutUnescaped(sorted);
    SortDescSorted(entries);
    forall i | 0 <= i < |r|
      ensures exists k :: k in m && r[i] == (Unescape(k), m[k])
    {
      PutUnescapedLast(sorted, i);
      var j: nat :| LastUnder(sorted, j, r[i]);
      SortedEntryOfMap(m, entries, sorted, j);
    }
  }

  /** Without two keys unescaping alike, getListInDesc returns every counted keyword once, in non-increasing order. */
  lemma ListInDescWithoutCollision(m: map<string, nat>, entries: seq<Entry>)
    requires IsEntryList(m, entries)
    requires forall k1, k2 :: k1 in m && k2 in m && k1 != k2 ==> Unescape(k1) != Unescape(k2)
    ensures NonIncreasing(PutUnescaped(SortDesc(entries))) && |PutUnescaped(SortDesc(entries))| == |m|
    ensures forall k :: k in m ==> (Unescape(k), m[k]) in PutUnescaped(SortDesc(entries))
  {
    var sorted := SortDesc(entries);
    var r := PutUnescaped(sorted);
    SortDescSorted(entries);
    SortedEntriesDistinct(m, entries, sorted);
    PutUnescapedWithoutCollision(sorted);
    DistinctKeysCount(entries, m.Keys);
    assert |sorted| == |entries| by {
      assert |multiset(sorted)| == |multiset(entries)|;
    }
    forall k | k in m
      ensures (Unescape(k), m[k]) in r
    {
      assert k in KeySet(entries);
      var j :| 0 <= j < |entries| && entries[j].0 == k;
      assert entries[j] in multiset(sorted);
      var i :| 0 <= i < |sorted| && sorted[i] == entries[j];
      assert r[i] == (Unescape(k), m[k]);
    }
  }

  /** An entry of a permutation of the entry list is a map entry. */
  lemma SortedEntryOfMap(m: map<string, nat>, entries: seq<Entry>, sorted: seq<Entry>, j: nat)
    requires IsEntryList(m, entries) && multiset(sorted) == multiset(entries) && j < |sorted|
    ensures sorted[j].0 in m && sorted[j].1 == m[sorted[j].0]
  {
    assert sorted[j] in multiset(entries);
    var a :| 0 <= a < |entries| && entries[a] == sorted[j];
  }

  /** A permutation of the entry list names the same keys. */
  lemma SortedEntriesKeys(m: map<string, nat>, entries: seq<Entry>, sorted: seq<Entry>)
    requires IsEntryList(m, entries) && multiset(sorted) == multiset(entries)
    ensures UnescapedKeys(sorted) == UnescapedMapKeys(m)
  {
    var fromSorted := UnescapedKeys(sorted);
    var fromMap := UnescapedMapKeys(m);
    forall x | x in fromSorted ensures x in fromMap {
      var i :| 0 <= i < |sorted| && Unescape(sorted[i].0) == x;
      assert sorted[i] in multiset(entries);
      var j :| 0 <= j < |entries| && entries[j] == sorted[i];
      assert entries[j].0 in m;
    }
    forall x | x in fromMap ensures x in fromSorted {
      var k :| k in m && Unescape(k) == x;
      assert k in KeySet(entries);
      var j :| 0 <= j < |entries| && entries[j].0 == k;
      assert entries[j] in multiset(sorted);
      var i :| 0 <= i < |sorted| && sorted[i] == entries[j];
      assert Unescape(sorted[i].0) == x;
    }
    assert fromSorted == fromMap;
  }

  lemma MultisetDistinct(s: seq<Entry>, x: Entry)
    requires DistinctKeys(s)
    ensures multiset(s)[x] <= 1
  {
    if s != [] {
      MultisetDistinct(s[1..], x);
      assert s == [s[0]] + s[1..];
      if s[0] == x {
        forall j | 0 <= j < |s[1..]| ensures s[1..][j] != x {
          assert s[1..][j] == s[j + 1];
        }
        assert x !in s[1..];
      }
    }
  }

  lemma MultisetTwice(s: seq<Entry>, i: nat, j: nat)
    requires i < j < |s| && s[i] == s[j]
    ensures multiset(s)[s[i]] >= 2
  {
    assert s == s[..j] + s[j..];
    assert s[i] in s[..j];
    assert s[j] == s[j..][0];
    assert multiset(s) == multiset(s[..j]) + multiset(s[j..]);
  }

  /** Sorting keeps the unescaped keys apart when the map's keys unescape apart. */
  lemma SortedEntriesDistinct(m: map<string, nat>, entries: seq<Entry>, sorted: seq<Entry>)
    requires IsEntryList(m, entries) && multiset(sorted) == multiset(entries)
    requires forall k1, k2 :: k1 in m && k2 in m && k1 != k2 ==> Unescape(k1) != Unescape(k2)
    ensures forall i, j :: 0 <= i < j < |sorted| ==> Unescape(sorted[i].0) != Unescape(sorted[j].0)
  {
    forall i, j | 0 <= i < j < |sorted|
      ensures Unescape(sorted[i].0) != Unescape(sorted[j].0)
    {
      assert sorted[i] in multiset(entries);
      assert sorted[j] in multiset(entries);
      var a :| 0 <= a < |entries| && entries[a] == sorted[i];
      var b :| 0 <= b < |entries| && entries[b] == sorted[j];
      if Unescape(sorted[i].0) == Unescape(sorted[j].0) {
        assert sorted[i].0 == sorted[j].0;
        assert sorted[i] == sorted[j];
        MultisetTwice(sorted, i, j);
        MultisetDistinct(entries, sorted[i]);
      }
    }
  }

  lemma {:induction false} DistinctKeysCount(entries: seq<Entry>, keys: set<string>)
    requires DistinctKeys(entries) && KeySet(entries) == keys
    ensures |entries| == |keys|
    decreases |entries|
  {
    if entries != [] {
      var init := entries[..|entries| - 1];
      var last := entries[|entries| - 1];
      assert KeySet(init) == keys - {last.0} by {
        forall x | x in KeySet(init) ensures x in keys - {last.0} {
          var i :| 0 <= i < |init| && init[i].0 == x;
          assert entries[i].0 == x;
        }
        forall x | x in keys - {last.0} ensures x in KeySet(init) {
          var i :| 0 <= i < |entries| && entries[i].0 == x;
          assert i < |init|;
          assert init[i].0 == x;
        }
      }
      assert last.0 in keys by {
        assert entries[|entries| - 1].0 == last.0;
      }
      DistinctKeysCount(init, keys - {last.0});
    } else {
      assert keys == {};
    }
  }
}

/** HashMapStatHandler: the statements that use a HashMap, as a growing list. */
module HashMapStatHandler {
  import opened JavaString

  /** isStatementUsingHashMap: the text names HashMap and calls put( or get(. */
  predicate IsStatementUsingHashMap(unitInString: string)
  {
    Contains(unitInString, "HashMap") && (Contains(unitInString, "put(") || Contains(unitInString, "get("))
  }

  class HashMapStatHandler {
    var jimpleUsingHashMap: seq<string>

    constructor ()
      ensures jimpleUsingHashMap == []
    {
      jimpleUsingHashMap := [];
    }

    /** inspectHashMapStatement: the text is appended verbatim iff recording is switched on. */
    method InspectHashMapStatement(unitInString: string, recordJimpleUsingHashMap: bool)
      modifies this
      ensures jimpleUsingHashMap == old(jimpleUsingHashMap) + (if recordJimpleUsingHashMap then [unitInString] else [])
      ensures |jimpleUsingHashMap| >= |old(jimpleUsingHashMap)| && jimpleUsingHashMap[..|old(jimpleUsingHashMap)|] == old(jimpleUsingHashMap)
    {
      if recordJimpleUsingHashMap {
        jimpleUsingHashMap := jimpleUsingHashMap + [unitInString];
      }
    }

    /** isStatementUsingHashMap, as the handler's test. */
    method CheckStatementUsingHashMap(unitInString: string) returns (b: bool)
      ensures b <==> IsStatementUsingHashMap(unitInString)
      ensures b ==> Contains(unitInString, "HashMap")
    {
      var hasHashMap := IndexOf(unitInString, "HashMap") >= 0;
      var hasPut := IndexOf(unitInString, "put(") >= 0;
      var hasGet := IndexOf(unitInString, "get(") >= 0;
      b := hasHashMap && (hasPut || hasGet);
    }
  }
}
