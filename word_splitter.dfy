/**
 * WordSplitter: splits a sentence into words in three passes, on delimiter
 * characters, on changes of letter case, and by longest dictionary prefix.
 */
module WordSplitter {
  import opened Wrappers
  import opened JavaString

  /** The delimiters handed to StringTokenizer; '&' is deliberately not among them. */
  const Delimiters: string := " 1234567890-=[]\\`;',./!#$%^*()_+{}|~:\"<>?\n\r\t"

  predicate IsDelimiter(c: char) { c in Delimiters }

  lemma AmpersandIsNotADelimiter()
    ensures !IsDelimiter('&')
  {
    assert |Delimiters| == 44;
    assert forall k :: 0 <= k < 44 ==> Delimiters[k] != '&';
  }

  function Concat(ws: seq<string>): string
  {
    if ws == [] then [] else ws[0] + Concat(ws[1..])
  }

  lemma {:induction false} ConcatAppend(a: seq<string>, b: seq<string>)
    ensures Concat(a + b) == Concat(a) + Concat(b)
  {
    if a == [] {
      assert a + b == b;
    } else {
      assert (a + b)[1..] == a[1..] + b;
      ConcatAppend(a[1..], b);
    }
  }

  /** The input with every delimiter character removed. */
  function RemoveDelimiters(s: string): string
  {
    if s == [] then [] else (if IsDelimiter(s[0]) then [] else [s[0]]) + RemoveDelimiters(s[1..])
  }

  /** The end of the run of non-delimiters that starts at position i. */
  function RunEnd(s: string, i: nat): (r: nat)
    requires i <= |s|
    decreases |s| - i
    ensures i <= r <= |s|
    ensures forall k :: i <= k < r ==> !IsDelimiter(s[k])
    ensures r < |s| ==> IsDelimiter(s[r])
  {
    if i == |s| || IsDelimiter(s[i]) then i else RunEnd(s, i + 1)
  }

  /** The tokens StringTokenizer yields: the maximal runs of non-delimiters, left to right. */
  function Tokens(s: string): (r: seq<string>)
    decreases |s|
    ensures forall k :: 0 <= k < |r| ==> r[k] != [] && forall j :: 0 <= j < |r[k]| ==> !IsDelimiter(r[k][j])
  {
    if s == [] then []
    else if IsDelimiter(s[0]) then Tokens(s[1..])
    else var n := RunEnd(s, 0); [s[..n]] + Tokens(s[n..])
  }

  lemma {:induction false} RemoveDelimitersRun(s: string, n: nat)
    requires n <= |s|
    requires forall k :: 0 <= k < n ==> !IsDelimiter(s[k])
    ensures RemoveDelimiters(s) == s[..n] + RemoveDelimiters(s[n..])
  {
    if n > 0 {
      RemoveDelimitersRun(s[1..], n - 1);
      assert s[1..][n - 1..] == s[n..];
      assert s[..n] == [s[0]] + s[1..][..n - 1];
    }
  }

  /** Tokenizing loses exactly the delimiters: the tokens put together are the input without them. */
  lemma {:induction false} TokensConcat(s: string)
    decreases |s|
    ensures Concat(Tokens(s)) == RemoveDelimiters(s)
  {
    if s == [] {
    } else if IsDelimiter(s[0]) {
      TokensConcat(s[1..]);
    } else {
      var n := RunEnd(s, 0);
      TokensConcat(s[n..]);
      RemoveDelimitersRun(s, n);
      assert ([s[..n]] + Tokens(s[n..]))[1..] == Tokens(s[n..]);
    }
  }

  lemma {:induction false} RunEndShift(s: string, i: nat, j: nat)
    requires i <= j <= |s|
    requires forall k :: i <= k < j ==> !IsDelimiter(s[k])
    requires j == |s| || IsDelimiter(s[j])
    ensures RunEnd(s[i..], 0) == j - i
    decreases j - i
  {
    if i < j {
      RunEndShift(s, i + 1, j);
      assert s[i..][1..] == s[i + 1..];
      RunEndSuffix(s[i..], 0);
    }
  }

  lemma {:induction false} RunEndSuffix(s: string, i: nat)
    requires i < |s| && !IsDelimiter(s[i])
    ensures RunEnd(s, i) == RunEnd(s, i + 1)
  {
  }


  /** The first position at or after j holding a lower-case letter, or |f|. */
  function NextLower(f: string, j: nat): (r: nat)
    requires j <= |f|
    decreases |f| - j
    ensures j <= r <= |f|
    ensures forall k :: j <= k < r ==> !IsLower(f[k])
    ensures r < |f| ==> IsLower(f[r])
  {
    if j == |f| || IsLower(f[j]) then j else NextLower(f, j + 1)
  }

  /** The first position at or after j holding an upper-case letter, or |f|. */
  function NextUpper(f: string, j: nat): (r: nat)
    requires j <= |f|
    decreases |f| - j
    ensures j <= r <= |f|
    ensures forall k :: j <= k < r ==> !IsUpper(f[k])
    ensures r < |f| ==> IsUpper(f[r])
  {
    if j == |f| || IsUpper(f[j]) then j else NextUpper(f, j + 1)
  }

  /**
   * The word starting at an upper-case letter f[i]: a run of capitals ends one
   * letter before the next lower-case letter (that capital starts the next
   * word); a capital followed by anything else extends to the next capital.
   */
  function WordAfterUpper(f: string, i: nat): (w: string)
    requires i < |f|
    ensures 1 <= |w| <= |f| - i && w == f[i..i + |w|]
  {
    if i + 1 < |f| then
      if IsUpper(f[i + 1]) then
        var j := NextLower(f, i + 1);
        if j < |f| then f[i..j - 1] else f[i..]
      else f[i..NextUpper(f, i + 1)]
    else f[i..]
  }

  /** The word starting at a character that is not upper case: up to the next capital. */
  function WordAfterLower(f: string, i: nat): (w: string)
    requires i < |f|
    ensures 1 <= |w| <= |f| - i && w == f[i..i + |w|]
  {
    f[i..NextUpper(f, i + 1)]
  }

  /** The word the case split takes at position i: always a non-empty prefix of f[i..]. */
  function WordAt(f: string, i: nat): (w: string)
    requires i < |f|
    ensures 1 <= |w| <= |f| - i && w == f[i..i + |w|]
  {
    if IsUpper(f[i]) then WordAfterUpper(f, i) else WordAfterLower(f, i)
  }

  /** A run of two or more capitals followed by a lower-case letter loses its last capital ("URLConnection" gives "URL"). */
  lemma UpperRunStopsBeforeLastCapital(f: string, i: nat, j: nat)
    requires i + 2 <= j < |f|
    requires forall k :: i <= k < j ==> IsUpper(f[k])
    requires IsLower(f[j])
    ensures WordAt(f, i) == f[i..j - 1]
  {
    assert NextLower(f, i + 1) == j by {
      NextLowerSkips(f, i + 1, j);
    }
  }

  /** A capital followed by lower-case letters runs up to the next capital, or to the end. */
  lemma CapitalizedWordRunsToNextCapital(f: string, i: nat, j: nat)
    requires i + 1 < j <= |f|
    requires IsUpper(f[i]) && IsLower(f[i + 1])
    requires forall k :: i + 1 <= k < j ==> !IsUpper(f[k])
    requires j == |f| || IsUpper(f[j])
    ensures WordAt(f, i) == f[i..j]
  {
    NextUpperSkips(f, i + 1, j);
  }

  /** A last character on its own is a word. */
  lemma FinalCharacterIsAWord(f: string)
    requires f != []
    ensures WordAt(f, |f| - 1) == [f[|f| - 1]]
  {
  }

  lemma {:induction false} NextLowerSkips(f: string, j: nat, l: nat)
    requires j <= l <= |f|
    requires forall k :: j <= k < l ==> !IsLower(f[k])
    requires l == |f| || IsLower(f[l])
    ensures NextLower(f, j) == l
    decreases l - j
  {
    if j < l { NextLowerSkips(f, j + 1, l); }
  }

  lemma {:induction false} NextUpperSkips(f: string, j: nat, u: nat)
    requires j <= u <= |f|
    requires forall k :: j <= k < u ==> !IsUpper(f[k])
    requires u == |f| || IsUpper(f[u])
    ensures NextUpper(f, j) == u
    decreases u - j
  {
    if j < u { NextUpperSkips(f, j + 1, u); }
  }

  /** The words of f from position i on, as splitWordsByCase takes them. */
  function CaseWordsFrom(f: string, i: nat): seq<string>
    requires i <= |f|
    decreases |f| - i
  {
    if i == |f| then [] else var w := WordAt(f, i); [w] + CaseWordsFrom(f, i + |w|)
  }

  lemma CaseWordsFromUnfold(f: string, i: nat)
    requires i < |f|
    ensures CaseWordsFrom(f, i) == [WordAt(f, i)] + CaseWordsFrom(f, i + |WordAt(f, i)|)
  {
  }

  /** Taking the word at i moves it from the words still to come to the words taken. */
  lemma CaseWordsStep(f: string, i: nat, taken: seq<string>, all: seq<string>)
    requires i < |f| && taken + CaseWordsFrom(f, i) == all
    ensures (taken + [WordAt(f, i)]) + CaseWordsFrom(f, i + |WordAt(f, i)|) == all
  {
    CaseWordsFromUnfold(f, i);
    assert (taken + [WordAt(f, i)]) + CaseWordsFrom(f, i + |WordAt(f, i)|) == taken + CaseWordsFrom(f, i);
  }

  /** The case split of one fragment: nothing for a null fragment, else the words of the trimmed fragment. */
  function CaseWords(fragment: Option<string>): seq<string>
  {
    match fragment
    case None => []
    case Some(f) => CaseWordsFrom(Trim(f), 0)
  }

  /** The words of the case split put together give back f[i..]. */
  lemma {:induction false} CaseWordsFromConcat(f: string, i: nat)
    requires i <= |f|
    decreases |f| - i
    ensures Concat(CaseWordsFrom(f, i)) == f[i..]
  {
    if i < |f| {
      var w := WordAt(f, i);
      CaseWordsFromConcat(f, i + |w|);
      assert ([w] + CaseWordsFrom(f, i + |w|))[1..] == CaseWordsFrom(f, i + |w|);
      assert f[i..] == w + f[i + |w|..];
    }
  }

  /** The case split of a fragment recovers the trimmed fragment. */
  lemma CaseWordsConcat(f: string)
    ensures Concat(CaseWords(Some(f))) == Trim(f)
  {
    CaseWordsFromConcat(Trim(f), 0);
  }

  /** Every word of the case split is non-empty. */
  lemma {:induction false} CaseWordsNonEmpty(f: string, i: nat)
    requires i <= |f|
    decreases |f| - i
    ensures forall k :: 0 <= k < |CaseWordsFrom(f, i)| ==> CaseWordsFrom(f, i)[k] != []
  {
    if i < |f| {
      CaseWordsNonEmpty(f, i + |WordAt(f, i)|);
    }
  }

  /** The case split applied to each fragment of a list, results in order. */
  function CaseWordsAll(fragments: seq<string>): seq<string>
  {
    if fragments == [] then [] else CaseWords(Some(fragments[0])) + CaseWordsAll(fragments[1..])
  }

  /**
   * The longest word of dict that is a proper prefix candidate of f among
   * f[..k], f[..k-1], ..., f[..1]; the empty string if there is none.
   */
  function LongestPrefixUpTo(f: string, dict: set<string>, k: nat): (r: string)
    requires k <= |f|
    ensures r == [] || (r in dict && StartsWith(f, r) && |r| <= k)
    ensures forall w :: w in dict && StartsWith(f, w) && 0 < |w| <= k ==> |w| <= |r|
  {
    if k == 0 then []
    else if f[..k] in dict then f[..k]
    else
      var r := LongestPrefixUpTo(f, dict, k - 1);
      assert forall w :: w in dict && StartsWith(f, w) && |w| == k ==> w == f[..k];
      r
  }

  /** The longest dictionary word that f starts with, or the empty string. */
  function LongestDictPrefix(f: string, dict: set<string>): (r: string)
    ensures r == [] || (r in dict && StartsWith(f, r))
    ensures forall w :: w in dict && StartsWith(f, w) ==> |w| <= |r|
  {
    LongestPrefixUpTo(f, dict, |f|)
  }

  /** Two strings that both satisfy LongestDictPrefix's contract are equal. */
  lemma LongestDictPrefixUnique(f: string, dict: set<string>, r: string)
    requires r == [] || (r in dict && StartsWith(f, r))
    requires forall w :: w in dict && StartsWith(f, w) ==> |w| <= |r|
    ensures r == LongestDictPrefix(f, dict)
  {
    var q := LongestDictPrefix(f, dict);
    if r == [] {
      assert q in dict ==> |q| <= |r|;
    } else {
      assert |r| <= |q|;
      if q == [] {
      } else {
        assert |q| <= |r|;
        assert r == f[..|r|] && q == f[..|q|];
      }
    }
  }

  /** splitWordsByDict on one fragment: repeatedly cut the longest dictionary prefix. */
  function DictWords(f: string, dict: set<string>): seq<string>
    decreases |f|
  {
    if f == [] then []
    else
      var p := LongestDictPrefix(f, dict);
      if p == [] then [f] else [p] + DictWords(f[|p|..], dict)
  }

  lemma DictWordsUnfold(f: string, dict: set<string>)
    requires f != []
    ensures LongestDictPrefix(f, dict) == [] ==> DictWords(f, dict) == [f]
    ensures LongestDictPrefix(f, dict) != [] ==>
      DictWords(f, dict) == [LongestDictPrefix(f, dict)] + DictWords(f[|LongestDictPrefix(f, dict)|..], dict)
  {
  }

  /** The dictionary split puts back together to the fragment. */
  lemma {:induction false} DictWordsConcat(f: string, dict: set<string>)
    decreases |f|
    ensures Concat(DictWords(f, dict)) == f
  {
    if f != [] {
      var p := LongestDictPrefix(f, dict);
      DictWordsUnfold(f, dict);
      if p == [] {
        ConcatCons(f, []);
        assert f + [] == f;
      } else {
        var rest := f[|p|..];
        DictWordsConcat(rest, dict);
        ConcatCons(p, DictWords(rest, dict));
        assert f == p + rest;
      }
    }
  }

  lemma ConcatCons(w: string, ws: seq<string>)
    ensures Concat([w] + ws) == w + Concat(ws)
  {
    assert ([w] + ws)[0] == w && ([w] + ws)[1..] == ws;
  }

  /** Every piece of the dictionary split but the last is a dictionary word; all pieces are non-empty. */
  lemma {:induction false} DictWordsAreDictWords(f: string, dict: set<string>)
    decreases |f|
    ensures forall k :: 0 <= k < |DictWords(f, dict)| ==> DictWords(f, dict)[k] != []
    ensures forall k :: 0 <= k < |DictWords(f, dict)| - 1 ==> DictWords(f, dict)[k] in dict
  {
    if f != [] {
      var p := LongestDictPrefix(f, dict);
      if p != [] {
        DictWordsAreDictWords(f[|p|..], dict);
      }
    }
  }

  /** The dictionary split applied to each fragment of a list, results in order. */
  function DictWordsAll(fragments: seq<string>, dict: set<string>): seq<string>
  {
    if fragments == [] then [] else DictWords(fragments[0], dict) + DictWordsAll(fragments[1..], dict)
  }

  /** splitWords: delimiter split, then case split, then dictionary split. */
  function SplitWordsSpec(sentence: string, dict: set<string>): seq<string>
  {
    DictWordsAll(CaseWordsAll(Tokens(sentence)), dict)
  }

  function TrimAll(fragments: seq<string>): seq<string>
  {
    if fragments == [] then [] else [Trim(fragments[0])] + TrimAll(fragments[1..])
  }

  lemma {:induction false} CaseWordsAllConcat(fragments: seq<string>)
    ensures Concat(CaseWordsAll(fragments)) == Concat(TrimAll(fragments))
  {
    if fragments != [] {
      CaseWordsAllConcat(fragments[1..]);
      CaseWordsConcat(fragments[0]);
      ConcatAppend(CaseWords(Some(fragments[0])), CaseWordsAll(fragments[1..]));
      assert ([Trim(fragments[0])] + TrimAll(fragments[1..]))[1..] == TrimAll(fragments[1..]);
    }
  }

  lemma {:induction false} DictWordsAllConcat(fragments: seq<string>, dict: set<string>)
    ensures Concat(DictWordsAll(fragments, dict)) == Concat(fragments)
  {
    if fragments != [] {
      DictWordsAllConcat(fragments[1..], dict);
      DictWordsConcat(fragments[0], dict);
      ConcatAppend(DictWords(fragments[0], dict), DictWordsAll(fragments[1..], dict));
    }
  }

  /** Splitting loses only delimiters and the characters trim removes from each token. */
  lemma SplitWordsConcat(sentence: string, dict: set<string>)
    ensures Concat(SplitWordsSpec(sentence, dict)) == Concat(TrimAll(Tokens(sentence)))
  {
    DictWordsAllConcat(CaseWordsAll(Tokens(sentence)), dict);
    CaseWordsAllConcat(Tokens(sentence));
  }

  lemma SeqAppendAssoc(a: seq<string>, b: seq<string>, c: seq<string>)
    ensures (a + b) + c == a + (b + c)
  {
  }

  class WordSplitter {
    const dictForWordSplit: set<string>

    constructor (dictForWordSplit: set<string>)
      ensures this.dictForWordSplit == dictForWordSplit
    {
      this.dictForWordSplit := dictForWordSplit;
    }

    /** WordSplitter.splitWordsByDelimiter: one scan collecting the runs of non-delimiters. */
    method SplitWordsByDelimiter(s: string) returns (words: seq<string>)
      ensures words == Tokens(s)
    {
      words := [];
      var i := 0;
      while i < |s|
        invariant 0 <= i <= |s|
        invariant words + Tokens(s[i..]) == Tokens(s)
      {
        if IsDelimiter(s[i]) {
          assert s[i..][1..] == s[i + 1..];
          i := i + 1;
        } else {
          var j := i;
          while j < |s| && !IsDelimiter(s[j])
            invariant i <= j <= |s|
            invariant forall k :: i <= k < j ==> !IsDelimiter(s[k])
          {
            j := j + 1;
          }
          RunEndShift(s, i, j);
          assert s[i..][..j - i] == s[i..j];
          assert s[i..][j - i..] == s[j..];
          words := words + [s[i..j]];
          i := j;
        }
      }
      assert s[|s|..] == [];
    }

    /** WordSplitter.findOutWordAfterUpperCaseChar. */
    method FindOutWordAfterUpperCaseChar(fragment: string, i: nat) returns (word: string)
      requires i < |fragment|
      ensures word == WordAfterUpper(fragment, i)
      ensures IsUpper(fragment[i]) ==> word == WordAt(fragment, i)
    {
      if i + 1 < |fragment| {
        if IsUpper(fragment[i + 1]) {
          for j := i + 1 to |fragment|
            invariant forall k :: i + 1 <= k < j ==> !IsLower(fragment[k])
          {
            if IsLower(fragment[j]) {
              NextLowerSkips(fragment, i + 1, j);
              return fragment[i..j - 1];
            }
          }
          NextLowerSkips(fragment, i + 1, |fragment|);
          return fragment[i..];
        } else {
          for j := i + 1 to |fragment|
            invariant forall k :: i + 1 <= k < j ==> !IsUpper(fragment[k])
          {
            if IsUpper(fragment[j]) {
              NextUpperSkips(fragment, i + 1, j);
              return fragment[i..j];
            }
          }
          NextUpperSkips(fragment, i + 1, |fragment|);
          return fragment[i..];
        }
      } else {
        return fragment[i..];
      }
    }

    /** WordSplitter.findOutWordAfterLowerCaseChar (its assertion is disabled, so it also serves non-letters). */
    method FindOutWordAfterLowerCaseChar(fragment: string, i: nat) returns (word: string)
      requires i < |fragment|
      ensures word == WordAfterLower(fragment, i)
      ensures !IsUpper(fragment[i]) ==> word == WordAt(fragment, i)
    {
      for j := i + 1 to |fragment|
        invariant forall k :: i + 1 <= k < j ==> !IsUpper(fragment[k])
      {
        if IsUpper(fragment[j]) {
          NextUpperSkips(fragment, i + 1, j);
          return fragment[i..j];
        }
      }
      NextUpperSkips(fragment, i + 1, |fragment|);
      return fragment[i..];
    }

    /** WordSplitter.splitWordsByCase(String, List): appends the case split of one fragment to wordsOut. */
    method SplitWordsByCaseInto(fragment: Option<string>, wordsOut: seq<string>) returns (out: seq<string>)
      ensures out == wordsOut + CaseWords(fragment)
    {
      out := wordsOut;
      if fragment.None? {
        return;
      }
      out := SplitTrimmedByCase(Trim(fragment.value), wordsOut);
    }

    /** The word loop of splitWordsByCase, on the already trimmed fragment f. */
    method SplitTrimmedByCase(f: string, wordsOut: seq<string>) returns (out: seq<string>)
      ensures out == wordsOut + CaseWordsFrom(f, 0)
    {
      out := wordsOut;
      var i := 0;
      ghost var all := wordsOut + CaseWordsFrom(f, 0);
      while i < |f|
        invariant 0 <= i <= |f|
        invariant out + CaseWordsFrom(f, i) == all
        decreases |f| - i
      {
        var word;
        if IsUpper(f[i]) {
          word := FindOutWordAfterUpperCaseChar(f, i);
        } else {
          word := FindOutWordAfterLowerCaseChar(f, i);
        }
        assert word == WordAt(f, i);
        CaseWordsStep(f, i, out, all);
        out := out + [word];
        i := i + |word|;
      }
      assert CaseWordsFrom(f, |f|) == [];
    }

    /** WordSplitter.splitWordsByCase(List). */
    method SplitWordsByCase(fragments: seq<string>) returns (words: seq<string>)
      ensures words == CaseWordsAll(fragments)
    {
      words := [];
      for i := 0 to |fragments|
        invariant words + CaseWordsAll(fragments[i..]) == CaseWordsAll(fragments)
      {
        assert fragments[i..][1..] == fragments[i + 1..];
        assert CaseWordsAll(fragments[i..]) == CaseWords(Some(fragments[i])) + CaseWordsAll(fragments[i + 1..]);
        SeqAppendAssoc(words, CaseWords(Some(fragments[i])), CaseWordsAll(fragments[i + 1..]));
        words := SplitWordsByCaseInto(Some(fragments[i]), words);
      }
      assert fragments[|fragments|..] == [];
    }

    /** WordSplitter.longestPrefix: a scan over the dictionary keeping the longest word the fragment starts with. */
    method LongestPrefix(fragment: string) returns (longest: string)
      ensures longest == LongestDictPrefix(fragment, dictForWordSplit)
    {
      longest := "";
      var remaining := dictForWordSplit;
      while remaining != {}
        invariant remaining <= dictForWordSplit
        invariant longest == [] || (longest in dictForWordSplit && StartsWith(fragment, longest))
        invariant forall w :: w in dictForWordSplit && w !in remaining && StartsWith(fragment, w) ==> |w| <= |longest|
        decreases |remaining|
      {
        var w :| w in remaining;
        if StartsWith(fragment, w) && |w| > |longest| {
          longest := w;
        }
        remaining := remaining - {w};
      }
      LongestDictPrefixUnique(fragment, dictForWordSplit, longest);
    }

    /** WordSplitter.splitWordsByDict(String, List): appends the dictionary split of one fragment to wordsOut. */
    method SplitWordsByDictInto(fragment: string, wordsOut: seq<string>) returns (out: seq<string>)
      ensures out == wordsOut + DictWords(fragment, dictForWordSplit)
    {
      out := wordsOut;
      var f := fragment;
      while |f| > 0
        invariant out + DictWords(f, dictForWordSplit) == wordsOut + DictWords(fragment, dictForWordSplit)
        decreases |f|
      {
        var prefix := LongestPrefix(f);
        DictWordsUnfold(f, dictForWordSplit);
        if |prefix| == 0 {
          assert DictWords(f, dictForWordSplit) == [f];
          out := out + [f];
          return;
        } else {
          var rest := f[|prefix|..];
          assert DictWords(f, dictForWordSplit) == [prefix] + DictWords(rest, dictForWordSplit);
          SeqAppendAssoc(out, [prefix], DictWords(rest, dictForWordSplit));
          out := out + [prefix];
          f := rest;
        }
      }
      assert DictWords(f, dictForWordSplit) == [];
    }

    /** WordSplitter.splitWordsByDict(List). */
    method SplitWordsByDict(fragments: seq<string>) returns (words: seq<string>)
      ensures words == DictWordsAll(fragments, dictForWordSplit)
    {
      words := [];
      for i := 0 to |fragments|
        invariant words + DictWordsAll(fragments[i..], dictForWordSplit) == DictWordsAll(fragments, dictForWordSplit)
      {
        assert fragments[i..][1..] == fragments[i + 1..];
        assert DictWordsAll(fragments[i..], dictForWordSplit)
          == DictWords(fragments[i], dictForWordSplit) + DictWordsAll(fragments[i + 1..], dictForWordSplit);
        SeqAppendAssoc(words, DictWords(fragments[i], dictForWordSplit), DictWordsAll(fragments[i + 1..], dictForWordSplit));
        words := SplitWordsByDictInto(fragments[i], words);
      }
      assert fragments[|fragments|..] == [];
    }

    /** WordSplitter.splitWords: the three passes in order. */
    method SplitWords(sentence: string) returns (words: seq<string>)
      ensures words == SplitWordsSpec(sentence, dictForWordSplit)
    {
      words := SplitWordsByDelimiter(sentence);
      words := SplitWordsByCase(words);
      words := SplitWordsByDict(words);
    }
  }
}
