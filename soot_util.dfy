/**
 * SootUtil.getLeadingPartsOfName: the first few dot-separated parts of a
 * package or class name. The package-level and the util/ SootUtil class hold
 * the same code.
 */
module SootUtil {
  import opened Wrappers
  import opened JavaString
  import opened StringUtil

  /** What name.substring(0, -1) throws. */
  const SubstringOutOfBounds := "StringIndexOutOfBoundsException"

  /** The position of the n-th dot of name (counting from 1), or -1 when name has fewer dots. */
  function NthDot(name: string, n: nat): (d: int)
    requires n >= 1
    ensures -1 <= d < |name|
    ensures d >= 0 ==> name[d] == '.'
  {
    if n == 1 then IndexOfChar(name, '.', 0)
    else
      var prev := NthDot(name, n - 1);
      if prev < 0 then -1 else IndexOfChar(name, '.', prev + 1)
  }

  /**
   * The value of getLeadingPartsOfName: the whole name when it has fewer than
   * partsCount dots, else the text before its partsCount-th dot. With
   * partsCount below 1 the loop never runs and substring(0, -1) throws.
   */
  function LeadingParts(name: string, partsCount: int): Result<string>
  {
    if partsCount < 1 then Failure(SubstringOutOfBounds)
    else if NthDot(name, partsCount) < 0 then Success(name)
    else Success(name[..NthDot(name, partsCount)])
  }

  lemma OccurrencesOfPrefixStep(s: string, c: char, j: nat)
    requires j < |s|
    ensures Occurrences(s[..j + 1], c) == Occurrences(s[..j], c) + (if s[j] == c then 1 else 0)
  {
    assert s[..j + 1] == s[..j] + [s[j]];
    OccurrencesAppend(s[..j], [s[j]], c);
    assert [s[j]][1..] == [];
  }

  /** A stretch without c adds no occurrence of c. */
  lemma {:induction false} OccurrencesOfGap(s: string, c: char, i: nat, j: nat)
    requires i <= j <= |s|
    requires forall k :: i <= k < j ==> s[k] != c
    ensures Occurrences(s[..j], c) == Occurrences(s[..i], c)
    decreases j - i
  {
    if i < j {
      OccurrencesOfGap(s, c, i, j - 1);
      OccurrencesOfPrefixStep(s, c, j - 1);
    }
  }

  /** The text before the n-th dot holds n - 1 dots; the n-th dot exists iff name holds at least n dots. */
  lemma {:induction false} NthDotCounts(name: string, n: nat)
    requires n >= 1
    ensures NthDot(name, n) >= 0 ==> Occurrences(name[..NthDot(name, n)], '.') == n - 1
    ensures NthDot(name, n) >= 0 <==> Occurrences(name, '.') >= n
  {
    assert name[..|name|] == name;
    var start := if n == 1 then 0 else NthDot(name, n - 1) + 1;
    if n > 1 {
      NthDotCounts(name, n - 1);
    }
    if n > 1 && NthDot(name, n - 1) < 0 {
    } else {
      var d := NthDot(name, n);
      if n == 1 {
        assert Occurrences(name[..0], '.') == 0;
      } else {
        OccurrencesOfPrefixStep(name, '.', start - 1);
      }
      // Occurrences(name[..start], '.') == n - 1
      if d >= 0 {
        OccurrencesOfGap(name, '.', start, d);
        OccurrencesOfPrefixStep(name, '.', d);
        OccurrencesAppend(name[..d + 1], name[d + 1..], '.');
        assert name[..d + 1] + name[d + 1..] == name;
      } else {
        OccurrencesOfGap(name, '.', start, |name|);
      }
    }
  }

  /** The result is a prefix of the name whenever the call does not throw. */
  lemma LeadingPartsIsPrefix(name: string, partsCount: int)
    ensures LeadingParts(name, partsCount).Success? <==> partsCount >= 1
    ensures LeadingParts(name, partsCount).Success? ==> StartsWith(name, LeadingParts(name, partsCount).value)
  {
  }

  /** A name with fewer than partsCount dots comes back whole. */
  lemma LeadingPartsOfShortName(name: string, partsCount: int)
    requires partsCount >= 1 && Occurrences(name, '.') < partsCount
    ensures LeadingParts(name, partsCount) == Success(name)
  {
    NthDotCounts(name, partsCount);
  }

  /** Otherwise the result stops just before the partsCount-th dot and holds partsCount - 1 dots. */
  lemma LeadingPartsOfLongName(name: string, partsCount: int)
    requires partsCount >= 1 && Occurrences(name, '.') >= partsCount
    ensures LeadingParts(name, partsCount).Success?
    ensures var r := LeadingParts(name, partsCount).value;
      |r| < |name| && name[|r|] == '.' && Occurrences(r, '.') == partsCount - 1
  {
    NthDotCounts(name, partsCount);
  }

  /** A missing dot stays missing for every later round of the loop. */
  lemma {:induction false} NthDotMissingLater(name: string, n: nat, m: nat)
    requires 1 <= n <= m && NthDot(name, n) < 0
    ensures NthDot(name, m) < 0
    decreases m - n
  {
    if n < m {
      NthDotMissingLater(name, n, m - 1);
    }
  }

  /** getLeadingPartsOfName: the dotPos loop with its early return. */
  method GetLeadingPartsOfName(name: string, partsCount: int) returns (r: Result<string>)
    ensures r == LeadingParts(name, partsCount)
  {
    var dotPos := -1;
    var i := 0;
    while i < partsCount
      invariant 0 <= i && (i <= partsCount || i == 0)
      invariant i == 0 ==> dotPos == -1
      invariant i > 0 ==> dotPos == NthDot(name, i) && dotPos >= 0
    {
      dotPos := IndexOfChar(name, '.', dotPos + 1);
      if dotPos < 0 {
        NthDotMissingLater(name, i + 1, partsCount);
        return Success(name);
      }
      i := i + 1;
    }
    if dotPos < 0 {
      r := Failure(SubstringOutOfBounds);
    } else {
      r := Success(name[..dotPos]);
    }
  }
}

/**
 * KeyTaintTag and the tags Soot attaches to value boxes, as one side table:
 * boxTags holds for each box the tags added to it, in the order they were
 * added (getTag answers the first), and keyConsts holds the key list of each
 * KeyTaintTag object. Two boxes that share a tag id share the tag object, so
 * a key added through one is seen through the other.
 */
module KeyTaintTags {
  import opened Wrappers
  import opened JavaString
  import opened StringUtil
  import opened Jimple

  /** KeyTaintTag.TAGNAME_KEYTAINT; every tag in the store carries this name. */
  const TagNameKeyTaint := "keyTaint"

  type TagId = nat

  /** toString: each key followed by a comma, in list order. */
  function KeysToString(keys: seq<string>): (s: string)
    ensures |s| == TotalLength(keys) + |keys|
    ensures Occurrences(s, ',') == OccurrencesIn(keys, ',') + |keys|
  {
    if keys == [] then ""
    else
      var rest := KeysToString(keys[1..]);
      OccurrencesAppend(keys[0], [','], ',');
      OccurrencesAppend(keys[0] + [','], rest, ',');
      assert [','][1..] == [];
      keys[0] + [','] + rest
  }

  lemma {:induction false} KeysToStringSnoc(keys: seq<string>, key: string)
    ensures KeysToString(keys + [key]) == KeysToString(keys) + key + [',']
  {
    if keys == [] {
      assert [key][1..] == [];
    } else {
      assert (keys + [key])[1..] == keys[1..] + [key];
      KeysToStringSnoc(keys[1..], key);
    }
  }

  /** indexOf(c, from) finds the first c at or after from. */
  lemma {:induction false} IndexOfCharFinds(s: string, c: char, from: nat, p: nat)
    requires from <= p < |s| && s[p] == c
    requires forall j :: from <= j < p ==> s[j] != c
    ensures IndexOfChar(s, c, from) == p
    decreases p - from
  {
    if from < p {
      IndexOfCharFinds(s, c, from + 1, p);
    }
  }

  lemma SplitAllAtFirst(s: string, c: char, n: nat)
    requires n < |s| && s[n] == c
    requires forall j :: 0 <= j < n ==> s[j] != c
    ensures SplitAll(s, c) == [s[..n]] + SplitAll(s[n + 1..], c)
  {
    IndexOfCharFinds(s, c, 0, n);
  }

  lemma KeysToStringUnfold(keys: seq<string>)
    requires keys != [] && ',' !in keys[0]
    ensures SplitAll(KeysToString(keys), ',') == [keys[0]] + SplitAll(KeysToString(keys[1..]), ',')
  {
    var s := KeysToString(keys);
    var n := |keys[0]|;
    assert s == keys[0] + [','] + KeysToString(keys[1..]);
    assert s[..n] == keys[0];
    assert s[n + 1..] == KeysToString(keys[1..]);
    SplitAllAtFirst(s, ',', n);
  }

  /** The printed key list splits back, on commas, into the keys and one empty tail piece. */
  lemma {:induction false} KeysToStringSplits(keys: seq<string>)
    requires forall k :: 0 <= k < |keys| ==> ',' !in keys[k]
    ensures SplitAll(KeysToString(keys), ',') == keys + [""]
  {
    if keys == [] {
      assert IndexOfChar("", ',', 0) == -1;
    } else {
      KeysToStringUnfold(keys);
      KeysToStringSplits(keys[1..]);
      assert keys == [keys[0]] + keys[1..];
    }
  }

  /** The first tag of a box in the side table. */
  function FirstTagOf(boxTags: map<BoxId, seq<TagId>>, b: BoxId): Option<TagId>
  {
    if b in boxTags && boxTags[b] != [] then Some(boxTags[b][0]) else None
  }

  /** The keys a tag contributes to a merge: none for a null tag. */
  function KeysOf(keyConsts: map<TagId, seq<string>>, tag: Option<TagId>): seq<string>
  {
    if tag.Some? && tag.value in keyConsts then keyConsts[tag.value] else []
  }

  /** The in-order concatenation of the key lists of the non-null tags. */
  function MergedKeys(keyConsts: map<TagId, seq<string>>, tags: seq<Option<TagId>>): seq<string>
  {
    if tags == [] then []
    else MergedKeys(keyConsts, tags[..|tags| - 1]) + KeysOf(keyConsts, tags[|tags| - 1])
  }

  lemma {:induction false} MergedKeysAppend(km: map<TagId, seq<string>>, a: seq<Option<TagId>>, b: seq<Option<TagId>>)
    ensures MergedKeys(km, a + b) == MergedKeys(km, a) + MergedKeys(km, b)
    decreases |b|
  {
    if b == [] {
      assert a + b == a;
    } else {
      var b' := b[..|b| - 1];
      assert (a + b)[..|a + b| - 1] == a + b';
      MergedKeysAppend(km, a, b');
    }
  }

  /** A merge yields keys iff some argument tag holds a key (hasTaintOnArgs). */
  lemma {:induction false} MergedKeysNonEmpty(km: map<TagId, seq<string>>, tags: seq<Option<TagId>>)
    ensures MergedKeys(km, tags) != [] <==> exists i :: 0 <= i < |tags| && KeysOf(km, tags[i]) != []
  {
    if tags != [] {
      var init := tags[..|tags| - 1];
      MergedKeysNonEmpty(km, init);
      if MergedKeys(km, tags) != [] {
        if KeysOf(km, tags[|tags| - 1]) == [] {
          var i :| 0 <= i < |init| && KeysOf(km, init[i]) != [];
          assert tags[i] == init[i];
        }
      } else {
        forall i | 0 <= i < |tags|
          ensures KeysOf(km, tags[i]) == []
        {
          if i < |init| {
            assert tags[i] == init[i];
          }
        }
      }
    }
  }

  /** Removing one occurrence of x from both sides of equal multisets. */
  lemma MultisetRemoveAt(a': seq<Option<TagId>>, x: Option<TagId>, b: seq<Option<TagId>>, k: nat)
    requires k < |b| && b[k] == x && multiset(a' + [x]) == multiset(b)
    ensures multiset(a') == multiset(b[..k] + b[k + 1..])
  {
    assert b == b[..k] + [x] + b[k + 1..];
    assert multiset(b) == multiset(b[..k]) + multiset{x} + multiset(b[k + 1..]);
    assert multiset(a' + [x]) == multiset(a') + multiset{x};
    assert multiset(b[..k] + b[k + 1..]) == multiset(b[..k]) + multiset(b[k + 1..]);
    assert multiset(a') == multiset(b) - multiset{x};
  }

  /** The keys merged around one tag in the middle. */
  lemma MergedKeysAround(km: map<TagId, seq<string>>, b: seq<Option<TagId>>, k: nat)
    requires k < |b|
    ensures MergedKeys(km, b) == MergedKeys(km, b[..k]) + KeysOf(km, b[k]) + MergedKeys(km, b[k + 1..])
  {
    assert b == b[..k] + [b[k]] + b[k + 1..];
    MergedKeysAppend(km, b[..k], [b[k]]);
    MergedKeysAppend(km, b[..k] + [b[k]], b[k + 1..]);
    MergedKeysOne(km, b[k]);
  }

  lemma MergedKeysOne(km: map<TagId, seq<string>>, x: Option<TagId>)
    ensures MergedKeys(km, [x]) == KeysOf(km, x)
  {
    var one: seq<Option<TagId>> := [x];
    assert one[..0] == [];
  }

  /** The multiset of merged keys does not depend on the order of the argument tags. */
  lemma {:induction false} MergedKeysOrderFree(km: map<TagId, seq<string>>, a: seq<Option<TagId>>, b: seq<Option<TagId>>)
    requires multiset(a) == multiset(b)
    ensures multiset(MergedKeys(km, a)) == multiset(MergedKeys(km, b))
    decreases |a|
  {
    if a != [] {
      var x := a[|a| - 1];
      var a' := a[..|a| - 1];
      assert a == a' + [x];
      assert x in multiset(b);
      var k :| 0 <= k < |b| && b[k] == x;
      assert MergedKeys(km, a) == MergedKeys(km, a') + KeysOf(km, x);
      var b' := b[..k] + b[k + 1..];
      MultisetRemoveAt(a', x, b, k);
      MergedKeysOrderFree(km, a', b');
      MergedKeysAppend(km, b[..k], b[k + 1..]);
      MergedKeysAround(km, b, k);
      var ka, kb, kx := MergedKeys(km, a'), MergedKeys(km, b'), KeysOf(km, x);
      var kl, kr := MergedKeys(km, b[..k]), MergedKeys(km, b[k + 1..]);
      assert multiset(ka + kx) == multiset(ka) + multiset(kx);
      assert multiset(kl + kx + kr) == multiset(kl) + multiset(kx) + multiset(kr);
      assert multiset(kl + kr) == multiset(kl) + multiset(kr);
    }
  }

  class TagStore {
    var boxTags: map<BoxId, seq<TagId>>
    var keyConsts: map<TagId, seq<string>>
    var nextTag: TagId

    /** Every attached tag exists, and nextTag is unused. */
    ghost predicate Valid()
      reads this
    {
      (forall t :: t in keyConsts ==> t < nextTag)
      && (forall b, k :: b in boxTags && 0 <= k < |boxTags[b]| ==> boxTags[b][k] in keyConsts)
    }

    constructor()
      ensures Valid()
      ensures boxTags == map[] && keyConsts == map[]
    {
      boxTags := map[];
      keyConsts := map[];
      nextTag := 0;
    }

    /** getTag(TAGNAME_KEYTAINT): the first tag added to the box, or null. */
    function GetTag(b: BoxId): (t: Option<TagId>)
      reads this
      ensures t.Some? <==> b in boxTags && boxTags[b] != []
    {
      FirstTagOf(boxTags, b)
    }

    function TagsOf(b: BoxId): seq<TagId>
      reads this
    {
      if b in boxTags then boxTags[b] else []
    }

    /** new KeyTaintTag(TAGNAME_KEYTAINT): a fresh tag with no keys. */
    method NewTag() returns (t: TagId)
      requires Valid()
      modifies this
      ensures Valid()
      ensures t !in old(keyConsts) && keyConsts == old(keyConsts)[t := []]
      ensures boxTags == old(boxTags)
    {
      t := nextTag;
      keyConsts := keyConsts[t := []];
      nextTag := nextTag + 1;
    }

    /** addKeyConst: the key is appended to the tag's list, and nothing else changes. */
    method AddKeyConst(t: TagId, key: string)
      requires Valid() && t in keyConsts
      modifies this
      ensures Valid()
      ensures keyConsts == old(keyConsts)[t := old(keyConsts)[t] + [key]]
      ensures boxTags == old(boxTags) && nextTag == old(nextTag)
    {
      keyConsts := keyConsts[t := keyConsts[t] + [key]];
    }

    /** Host.addTag: the tag object is appended to the box's tags; getTag keeps answering the first one. */
    method AddTag(b: BoxId, t: TagId)
      requires Valid() && t in keyConsts
      modifies this
      ensures Valid()
      ensures boxTags == old(boxTags)[b := old(TagsOf(b)) + [t]]
      ensures keyConsts == old(keyConsts) && nextTag == old(nextTag)
      ensures old(GetTag(b)).Some? ==> GetTag(b) == old(GetTag(b))
      ensures GetTag(b).Some?
    {
      boxTags := boxTags[b := TagsOf(b) + [t]];
    }

    /** union: the other tag's keys are appended to t's; the other tag keeps its keys (unless it is t itself). */
    method Union(t: TagId, other: TagId)
      requires Valid() && t in keyConsts && other in keyConsts
      modifies this
      ensures Valid()
      ensures keyConsts == old(keyConsts)[t := old(keyConsts)[t] + old(keyConsts)[other]]
      ensures other != t ==> keyConsts[other] == old(keyConsts)[other]
      ensures boxTags == old(boxTags) && nextTag == old(nextTag)
    {
      keyConsts := keyConsts[t := keyConsts[t] + keyConsts[other]];
    }

    /** toString of a tag. */
    method ToString(t: TagId) returns (s: string)
      requires t in keyConsts
      ensures s == KeysToString(keyConsts[t])
    {
      var keys := keyConsts[t];
      s := "";
      for i := 0 to |keys|
        invariant s == KeysToString(keys[..i])
      {
        KeysToStringSnoc(keys[..i], keys[i]);
        assert keys[..i + 1] == keys[..i] + [keys[i]];
        s := s + keys[i] + [','];
      }
      assert keys[..|keys|] == keys;
    }

    /**
     * merge: null for no tags; otherwise a fresh tag holding the
     * concatenated keys of the non-null tags, or null when that list is empty.
     * The fresh tag of an empty merge is dropped by the source at once and is
     * not allocated here.
     */
    method Merge(tags: seq<Option<TagId>>) returns (r: Option<TagId>)
      requires Valid()
      modifies this
      ensures Valid()
      ensures boxTags == old(boxTags)
      ensures r.None? <==> (tags == [] || MergedKeys(old(keyConsts), tags) == [])
      ensures r.None? ==> keyConsts == old(keyConsts)
      ensures r.Some? ==> r.value !in old(keyConsts)
      ensures r.Some? ==> keyConsts == old(keyConsts)[r.value := MergedKeys(old(keyConsts), tags)]
    {
      if tags == [] {
        return None;
      }
      var merged: seq<string> := [];
      for i := 0 to |tags|
        invariant merged == MergedKeys(keyConsts, tags[..i])
      {
        assert tags[..i + 1][..i] == tags[..i];
        if tags[i].Some? && tags[i].value in keyConsts {
          merged := merged + keyConsts[tags[i].value];
        }
      }
      assert tags[..|tags|] == tags;
      if merged == [] {
        return None;
      }
      var t := NewTag();
      assert t in keyConsts;
      keyConsts := keyConsts[t := merged];
      assert keyConsts.Keys == old(keyConsts).Keys + {t};
      r := Some(t);
    }
  }
}
