/**
 * text/KeywordDetector: finds a keyword inside the string constants of a
 * Jimple statement. Constants are cut out between double quotes, split into
 * words, stemmed, re-joined and lower-cased, and then matched against the
 * keyword list with a check that the keyword starts a word.
 */
module KeywordDetector {
  import opened Wrappers
  import opened JavaString
  import opened StringUtil
  import opened ListFiles
  import opened WordSplitter
  import opened KeywordList

  /** The exception extractStringConst raises when a backslash is the last character. */
  const TrailingBackslash: string := "StringIndexOutOfBoundsException"

  /** Prepends c to a successful result; a failure stays a failure. */
  function Cons(c: string, r: Result<seq<string>>): Result<seq<string>>
  {
    if r.Failure? then r else Success([c] + r.value)
  }

  /** Appends the results of a scan to the constants found so far. */
  function After(found: seq<string>, r: Result<seq<string>>): Result<seq<string>>
  {
    if r.Failure? then r else Success(found + r.value)
  }

  /**
   * The scan of extractStringConst from position i, with stringConstBegin =
   * begin (0 meaning "no constant open"). A backslash followed by a quote
   * skips that quote; a backslash in last position makes charAt fail.
   */
  function ExtractFrom(s: string, i: nat, begin: nat): Result<seq<string>>
    requires i <= |s| && (begin == 0 || begin < i)
    decreases |s| - i
  {
    if i == |s| then Success([])
    else if s[i] == '"' then
      if begin == 0 then ExtractFrom(s, i + 1, i)
      else Cons(s[begin + 1..i], ExtractFrom(s, i + 1, 0))
    else if s[i] == '\\' then
      if i + 1 >= |s| then Failure(TrailingBackslash)
      else if s[i + 1] == '"' then ExtractFrom(s, i + 2, begin)
      else ExtractFrom(s, i + 1, begin)
    else ExtractFrom(s, i + 1, begin)
  }

  /** extractStringConst: the string constants of the statement text, in textual order. */
  function ExtractStringConsts(s: string): Result<seq<string>>
  {
    ExtractFrom(s, 0, 0)
  }

  /** b and e are the opening and closing quote of a constant: neither is escaped, and b is not 0. */
  predicate ConstSpan(s: string, b: int, e: int)
  {
    0 < b < e < |s| && s[b] == '"' && s[e] == '"' && s[b - 1] != '\\' && s[e - 1] != '\\'
  }

  ghost predicate IsConstOf(s: string, c: string)
  {
    exists b, e :: ConstSpan(s, b, e) && c == s[b + 1..e]
  }

  /** The scanner never arrives at a quote right after a backslash it has just read. */
  predicate Arrived(s: string, i: nat)
  {
    0 < i < |s| && s[i - 1] == '\\' ==> s[i] != '"'
  }

  lemma {:induction false} ExtractFromSpans(s: string, i: nat, begin: nat)
    requires i <= |s| && (begin == 0 || begin < i)
    requires Arrived(s, i)
    requires begin > 0 ==> begin < i && s[begin] == '"' && s[begin - 1] != '\\'
    decreases |s| - i
    ensures ExtractFrom(s, i, begin).Success? ==>
      forall k :: 0 <= k < |ExtractFrom(s, i, begin).value| ==> IsConstOf(s, ExtractFrom(s, i, begin).value[k])
  {
    if i < |s| {
      if s[i] == '"' {
        if begin == 0 {
          ExtractFromSpans(s, i + 1, i);
        } else {
          ExtractFromSpans(s, i + 1, 0);
          assert ConstSpan(s, begin, i);
        }
      } else if s[i] == '\\' {
        if i + 1 < |s| {
          if s[i + 1] == '"' {
            ExtractFromSpans(s, i + 2, begin);
          } else {
            ExtractFromSpans(s, i + 1, begin);
          }
        }
      } else {
        ExtractFromSpans(s, i + 1, begin);
      }
    }
  }

  /**
   * Every extracted constant is the text strictly between an opening and a
   * closing quote, neither of them escaped, the opening one not at index 0.
   */
  lemma ExtractedConstantsAreQuoted(s: string)
    ensures ExtractStringConsts(s).Success? ==>
      forall k :: 0 <= k < |ExtractStringConsts(s).value| ==> IsConstOf(s, ExtractStringConsts(s).value[k])
  {
    ExtractFromSpans(s, 0, 0);
  }

  lemma {:induction false} ExtractFromFails(s: string, i: nat, begin: nat)
    requires i <= |s| && (begin == 0 || begin < i)
    requires Arrived(s, i)
    decreases |s| - i
    ensures ExtractFrom(s, i, begin).Failure? <==> i < |s| && s[|s| - 1] == '\\'
  {
    if i < |s| {
      if s[i] == '"' {
        if begin == 0 {
          ExtractFromFails(s, i + 1, i);
        } else {
          ExtractFromFails(s, i + 1, 0);
        }
      } else if s[i] == '\\' {
        if i + 1 < |s| {
          if s[i + 1] == '"' {
            ExtractFromFails(s, i + 2, begin);
          } else {
            ExtractFromFails(s, i + 1, begin);
          }
        }
      } else {
        ExtractFromFails(s, i + 1, begin);
      }
    }
  }

  /** The scan fails exactly when the text ends in a backslash. */
  lemma ExtractFailsIffTrailingBackslash(s: string)
    ensures ExtractStringConsts(s).Failure? <==> s != [] && s[|s| - 1] == '\\'
  {
    ExtractFromFails(s, 0, 0);
  }

  lemma {:induction false} ExtractFromNoQuotes(s: string, i: nat, begin: nat)
    requires i <= |s| && (begin == 0 || begin < i)
    requires '"' !in s
    decreases |s| - i
    ensures ExtractFrom(s, i, begin).Success? ==> ExtractFrom(s, i, begin).value == []
  {
    if i < |s| {
      if s[i] == '\\' {
        if i + 1 < |s| {
          ExtractFromNoQuotes(s, i + 1, begin);
        }
      } else {
        ExtractFromNoQuotes(s, i + 1, begin);
      }
    }
  }

  /** A text without double quotes holds no constant. */
  lemma NoQuotesNoConstants(s: string)
    requires '"' !in s
    ensures ExtractStringConsts(s).Success? ==> ExtractStringConsts(s).value == []
  {
    ExtractFromNoQuotes(s, 0, 0);
  }

  /** A quote at index 0 leaves the scan with no constant open, so it opens nothing. */
  lemma LeadingQuoteOpensNothing()
    ensures ExtractStringConsts("\"ab\"") == Success([])
    ensures ExtractStringConsts(" \"ab\"") == Success(["ab"])
  {
    var s := "\"ab\"";
    assert ExtractFrom(s, 4, 3) == Success([]);
    assert ExtractFrom(s, 3, 0) == Success([]);
    assert ExtractFrom(s, 2, 0) == Success([]);
    assert ExtractFrom(s, 1, 0) == Success([]);
    var t := " \"ab\"";
    assert ExtractFrom(t, 5, 0) == Success([]);
    assert t[2..4] == "ab";
    assert ["ab"] + [] == ["ab"];
    assert ExtractFrom(t, 4, 1) == Success(["ab"]);
    assert ExtractFrom(t, 3, 1) == Success(["ab"]);
    assert ExtractFrom(t, 2, 1) == Success(["ab"]);
    assert ExtractFrom(t, 1, 0) == Success(["ab"]);
  }

  /** An escaped quote inside a constant neither closes it nor opens another. */
  lemma EscapedQuoteIsSkipped()
    ensures ExtractStringConsts("x\"a\\\"b\"") == Success(["a\\\"b"])
  {
    var s := "x\"a\\\"b\"";
    var c := s[2..6];
    assert c == "a\\\"b";
    assert ExtractFrom(s, 7, 0) == Success([]);
    assert [c] + [] == [c];
    assert ExtractFrom(s, 6, 1) == Success([c]);
    assert ExtractFrom(s, 5, 1) == Success([c]);
    assert ExtractFrom(s, 3, 1) == Success([c]);
    assert ExtractFrom(s, 2, 1) == Success([c]);
    assert ExtractFrom(s, 1, 0) == Success([c]);
  }

  /** The stemming pass of canonicalizeStringConst: only words longer than 4 characters are stemmed. */
  function StemLong(words: seq<string>, stem: string -> string): (r: seq<string>)
    ensures |r| == |words|
    ensures forall k :: 0 <= k < |words| ==> r[k] == if |words[k]| > 4 then stem(words[k]) else words[k]
  {
    seq(|words|, k requires 0 <= k < |words| => if |words[k]| > 4 then stem(words[k]) else words[k])
  }

  /** canonicalizeStringConst after word splitting: stem, join with single spaces, lower-case. */
  function CanonicalForm(words: seq<string>, stem: string -> string): (r: string)
    ensures IsLowerCase(r)
  {
    var joined := Join(StemLong(words, stem), ' ');
    ToLowerIsLowerCase(joined);
    ToLower(joined)
  }

  /** One separating space between consecutive words and nothing else is added. */
  lemma CanonicalFormLength(words: seq<string>, stem: string -> string)
    requires words != []
    ensures |CanonicalForm(words, stem)| == TotalLength(StemLong(words, stem)) + |words| - 1
  {
    JoinSeparators(StemLong(words, stem), ' ');
  }

  /** Words of at most 4 characters reach the canonical form unstemmed. */
  lemma ShortWordsUnstemmed(words: seq<string>, stem: string -> string)
    requires forall k :: 0 <= k < |words| ==> |words[k]| <= 4
    ensures CanonicalForm(words, stem) == ToLower(Join(words, ' '))
  {
    assert StemLong(words, stem) == words;
  }

  /**
   * figureOutKeywordInStrConst on a canonical constant: the first keyword it
   * contains, kept only if that keyword's first occurrence starts a word.
   */
  function KeywordAtWordStart(canon: string, keywords: seq<string>): (r: Option<string>)
    requires IsLowerCase(canon)
    ensures r.Some? ==> r == FirstMatch(keywords, canon)
    ensures r.Some? ==> StartsAWord(canon, r.value)
  {
    ToLowerOfLowerCase(canon);
    match FirstMatch(keywords, ToLower(canon))
    case None => None
    case Some(kw) =>
      if StartsAWord(canon, kw) then Some(kw) else None
  }

  /** The first occurrence of w in canon begins canon or follows a space. */
  predicate StartsAWord(canon: string, w: string)
  {
    var loc := IndexOf(canon, w);
    loc == 0 || (0 < loc <= |canon| && canon[loc - 1] == ' ')
  }

  /** When the first matching keyword fails the word-start test, no later keyword is tried. */
  lemma FirstMatchFailingBoundaryGivesNone(canon: string, keywords: seq<string>)
    requires IsLowerCase(canon)
    requires FirstMatch(keywords, canon).Some?
    requires var loc := IndexOf(canon, FirstMatch(keywords, canon).value); loc > 0 && canon[loc - 1] != ' '
    ensures KeywordAtWordStart(canon, keywords) == None
  {
    ToLowerOfLowerCase(canon);
  }

  /** Concretely: "pass" inside "bypass" loses to nothing, even though "by" would start a word. */
  lemma MidWordMatchHidesLaterKeywords()
    ensures KeywordAtWordStart("bypass", ["pass", "by"]) == None
  {
    var canon := "bypass";
    assert OccursAt(canon, "pass", 2);
    assert IndexOf(canon, "pass") == 2 by {
      assert canon[0..4][0] == 'b' && canon[1..5][0] == 'y';
    }
    FirstMatchIsEarliest(["pass", "by"], canon, 0);
    FirstMatchFailingBoundaryGivesNone(canon, ["pass", "by"]);
  }

  function FirstSomeFrom(rs: seq<Option<string>>, from: nat): (i: nat)
    requires from <= |rs|
    decreases |rs| - from
    ensures from <= i <= |rs|
    ensures i < |rs| ==> rs[i].Some?
    ensures forall j :: from <= j < i ==> rs[j].None?
  {
    if from == |rs| || rs[from].Some? then from else FirstSomeFrom(rs, from + 1)
  }

  /** The first present value of rs, in order, or None. */
  function FirstSome(rs: seq<Option<string>>): (r: Option<string>)
    ensures r.None? <==> forall k :: 0 <= k < |rs| ==> rs[k].None?
    ensures r.Some? ==> exists k :: 0 <= k < |rs| && rs[k] == r && (forall j :: 0 <= j < k ==> rs[j].None?)
  {
    var i := FirstSomeFrom(rs, 0);
    if i < |rs| then rs[i] else None
  }

  lemma FirstSomeAt(rs: seq<Option<string>>, i: nat)
    requires i < |rs| && rs[i].Some?
    requires forall j :: 0 <= j < i ==> rs[j].None?
    ensures FirstSome(rs) == rs[i]
  {
    var r := FirstSome(rs);
    var k :| 0 <= k < |rs| && rs[k] == r && (forall j :: 0 <= j < k ==> rs[j].None?);
    assert !(k < i) && !(i < k);
  }

  class KeywordDetector {
    const keywordList: KeywordList
    const wordSplitter: WordSplitter
    /** PorterStemmer.stripAffixes, which is not part of this model. */
    const stem: string -> string

    constructor (keywordList: KeywordList, stem: string -> string)
      ensures this.keywordList == keywordList && this.stem == stem
      ensures wordSplitter.dictForWordSplit == keywordList.wordsForSplitting
    {
      this.keywordList := keywordList;
      this.stem := stem;
      wordSplitter := new WordSplitter(keywordList.GetDictForWordSplit());
    }

    /** The canonical form of a string constant under this detector's dictionary and stemmer. */
    function Canonical(stringConst: string): (r: string)
      ensures IsLowerCase(r)
    {
      CanonicalForm(SplitWordsSpec(stringConst, wordSplitter.dictForWordSplit), stem)
    }

    /** The keyword figureOutKeywordInStrConst reports for one constant. */
    function KeywordInStrConst(stringConst: string): (r: Option<string>)
      ensures r.Some? ==> r.value in keywordList.keywordList && Contains(Canonical(stringConst), r.value)
      ensures r.Some? ==> StartsAWord(Canonical(stringConst), r.value)
    {
      var c := Canonical(stringConst);
      KeywordAtWordStart(c, keywordList.keywordList)
    }

    /** The keyword each constant yields, in the constants' order. */
    function KeywordsOfConsts(stringConsts: seq<string>): (rs: seq<Option<string>>)
      ensures |rs| == |stringConsts|
      ensures forall k :: 0 <= k < |rs| ==> rs[k] == KeywordInStrConst(stringConsts[k])
    {
      seq(|stringConsts|, k requires 0 <= k < |stringConsts| => KeywordInStrConst(stringConsts[k]))
    }

    /** KeywordDetector.extractStringConst. */
    method ExtractStringConst(jimpleInString: string) returns (r: Result<seq<string>>)
      ensures r == ExtractStringConsts(jimpleInString)
    {
      var s := jimpleInString;
      var stringConstBegin := 0;
      var stringConsts: seq<string> := [];
      var i := 0;
      if ExtractFrom(s, 0, 0).Success? {
        assert [] + ExtractFrom(s, 0, 0).value == ExtractFrom(s, 0, 0).value;
      }
      while i < |s|
        invariant 0 <= stringConstBegin <= i <= |s| && (stringConstBegin == 0 || stringConstBegin < i)
        invariant After(stringConsts, ExtractFrom(s, i, stringConstBegin)) == ExtractStringConsts(s)
        decreases |s| - i
      {
        if s[i] == '"' {
          if stringConstBegin == 0 {
            stringConstBegin := i;
          } else {
            var stringConstEnd := i;
            var stringConst := s[stringConstBegin + 1..stringConstEnd];
            assert stringConsts + [stringConst] + [] == stringConsts + [stringConst];
            if ExtractFrom(s, i + 1, 0).Success? {
              assert (stringConsts + [stringConst]) + ExtractFrom(s, i + 1, 0).value
                == stringConsts + ([stringConst] + ExtractFrom(s, i + 1, 0).value);
            }
            stringConsts := stringConsts + [stringConst];
            stringConstBegin := 0;
          }
        } else if s[i] == '\\' {
          if i + 1 >= |s| {
            return Failure(TrailingBackslash);
          }
          if s[i + 1] == '"' {
            i := i + 1;
          }
        }
        i := i + 1;
      }
      assert stringConsts + [] == stringConsts;
      return Success(stringConsts);
    }

    /** KeywordDetector.canonicalizeStringConst. */
    method CanonicalizeStringConst(stringConst: string) returns (r: string)
      ensures r == Canonical(stringConst)
    {
      var wordsInStrConst := wordSplitter.SplitWords(stringConst);
      ghost var words := wordsInStrConst;
      for i := 0 to |wordsInStrConst|
        invariant |wordsInStrConst| == |words|
        invariant forall k :: 0 <= k < i ==> wordsInStrConst[k] == StemLong(words, stem)[k]
        invariant forall k :: i <= k < |words| ==> wordsInStrConst[k] == words[k]
      {
        var word := wordsInStrConst[i];
        var stemmedWord := if |word| > 4 then stem(word) else word;
        wordsInStrConst := wordsInStrConst[i := stemmedWord];
      }
      assert wordsInStrConst == StemLong(words, stem);
      var canonicalizedStrConst := JoinString(wordsInStrConst, ' ');
      r := ToLower(canonicalizedStrConst);
    }

    /** KeywordDetector.figureOutKeywordInStrConst. */
    method FigureOutKeywordInStrConst(stringConst: string) returns (r: Option<string>)
      ensures r == KeywordInStrConst(stringConst)
    {
      var canonicalizedStrConst := CanonicalizeStringConst(stringConst);
      var keywordInStringConst := keywordList.FigureOutKeyword(canonicalizedStrConst);
      ToLowerOfLowerCase(canonicalizedStrConst);
      assert KeywordInStrConst(stringConst) == KeywordAtWordStart(canonicalizedStrConst, keywordList.keywordList);
      if keywordInStringConst.Some? {
        var locOfKeyword := IndexOf(canonicalizedStrConst, keywordInStringConst.value);
        if locOfKeyword == 0 || canonicalizedStrConst[locOfKeyword - 1] == ' ' {
          assert StartsAWord(canonicalizedStrConst, keywordInStringConst.value);
          return keywordInStringConst;
        }
        assert !StartsAWord(canonicalizedStrConst, keywordInStringConst.value);
      }
      return None;
    }

    /** The loop of figureOutKeywordInJimple: the keyword of the first constant that has one. */
    method FirstKeywordOfConsts(consts: seq<string>) returns (r: Option<string>)
      ensures r == FirstSome(KeywordsOfConsts(consts))
    {
      ghost var found := KeywordsOfConsts(consts);
      for i := 0 to |consts|
        invariant FirstSomeFrom(found, 0) == FirstSomeFrom(found, i)
      {
        var keywordInStrConst := FigureOutKeywordInStrConst(consts[i]);
        assert found[i] == keywordInStrConst;
        if keywordInStrConst.Some? {
          return keywordInStrConst;
        }
      }
      return None;
    }

    /** KeywordDetector.figureOutKeywordInJimple; a failed constant scan is passed on. */
    method FigureOutKeywordInJimple(jimpleInString: string) returns (r: Result<Option<string>>)
      ensures r.Failure? <==> ExtractStringConsts(jimpleInString).Failure?
      ensures r.Failure? ==> r.error == ExtractStringConsts(jimpleInString).error
      ensures r.Success? ==> r.value == FirstSome(KeywordsOfConsts(ExtractStringConsts(jimpleInString).value))
    {
      var stringConsts := ExtractStringConst(jimpleInString);
      if stringConsts.Failure? {
        return Failure(stringConsts.error);
      }
      var keyword := FirstKeywordOfConsts(stringConsts.value);
      return Success(keyword);
    }
  }
}
