/**
 * The three configuration lists (keywords, library packages, interested
 * APIs). Each is a text file read line by line; blank lines and lines
 * starting with '#' are skipped, the others are kept trimmed, and a query
 * returns the first kept entry, in file order, that occurs in the text.
 * File reading itself is not modelled: a list file is its sequence of lines.
 */
module ListFiles {
  import opened Wrappers
  import opened JavaString

  /** canonicalizeListLine: None for a blank or comment line, else the trimmed line. */
  function CanonicalizeListLine(listLine: string): (r: Option<string>)
    ensures r.None? <==> Trim(listLine) == [] || Trim(listLine)[0] == '#'
    ensures r.Some? ==> r.value == Trim(listLine)
  {
    var t := Trim(listLine);
    if t == [] then None
    else if t[0] == '#' then None
    else Some(t)
  }

  /** A kept line is non-empty, is not a comment, and has nothing trim would remove at either end. */
  lemma KeptLineShape(listLine: string)
    requires CanonicalizeListLine(listLine).Some?
    ensures var t := CanonicalizeListLine(listLine).value;
      t != [] && t[0] != '#' && !IsTrimmed(t[0]) && !IsTrimmed(t[|t| - 1]) && Trim(t) == t
  {
  }

  /** The kept lines of a file, in file order. */
  function KeptLines(lines: seq<string>): seq<string>
  {
    if lines == [] then []
    else
      var rest := KeptLines(lines[..|lines| - 1]);
      match CanonicalizeListLine(lines[|lines| - 1])
      case None => rest
      case Some(l) => rest + [l]
  }

  /** Keeping lines distributes over concatenation of files: no line affects another. */
  lemma {:induction false} KeptLinesAppend(a: seq<string>, b: seq<string>)
    ensures KeptLines(a + b) == KeptLines(a) + KeptLines(b)
    decreases |b|
  {
    if b == [] {
      assert a + b == a;
    } else {
      var b' := b[..|b| - 1];
      assert (a + b)[..|a + b| - 1] == a + b';
      KeptLinesAppend(a, b');
    }
  }

  /** A skipped line contributes nothing; a kept line contributes exactly its trimmed self. */
  lemma KeptLinesOfOne(line: string)
    ensures CanonicalizeListLine(line).None? ==> KeptLines([line]) == []
    ensures CanonicalizeListLine(line).Some? ==> KeptLines([line]) == [Trim(line)]
  {
    assert [line][..0] == [];
  }

  /** entry is the canonical form of one of the lines. */
  predicate IsCanonicalLineOf(lines: seq<string>, entry: string)
  {
    exists i :: 0 <= i < |lines| && CanonicalizeListLine(lines[i]) == Some(entry)
  }

  /** Every kept entry is the canonical form of some line of the file. */
  lemma {:induction false} KeptLinesComeFromLines(lines: seq<string>)
    ensures forall k :: 0 <= k < |KeptLines(lines)| ==> IsCanonicalLineOf(lines, KeptLines(lines)[k])
  {
    if lines != [] {
      var init := lines[..|lines| - 1];
      var last := lines[|lines| - 1];
      KeptLinesComeFromLines(init);
      var kept0, kept := KeptLines(init), KeptLines(lines);
      assert lines == init + [last];
      forall k | 0 <= k < |kept|
        ensures IsCanonicalLineOf(lines, kept[k])
      {
        if k < |kept0| {
          assert kept[k] == kept0[k];
          CanonicalLineOfPrefix(init, last, kept0[k]);
        } else {
          assert CanonicalizeListLine(lines[|init|]) == Some(kept[k]);
        }
      }
    }
  }

  lemma CanonicalLineOfPrefix(init: seq<string>, last: string, entry: string)
    requires IsCanonicalLineOf(init, entry)
    ensures IsCanonicalLineOf(init + [last], entry)
  {
    var i :| 0 <= i < |init| && CanonicalizeListLine(init[i]) == Some(entry);
    assert (init + [last])[i] == init[i];
  }

  /** Position of the first entry of list, from index `from` on, that occurs in text; |list| if none does. */
  function FirstMatchFrom(list: seq<string>, text: string, from: nat): (r: nat)
    requires from <= |list|
    decreases |list| - from
    ensures from <= r <= |list|
    ensures r < |list| ==> Contains(text, list[r])
    ensures forall j :: from <= j < r ==> !Contains(text, list[j])
  {
    if from == |list| then from
    else if Contains(text, list[from]) then from
    else FirstMatchFrom(list, text, from + 1)
  }

  /** The first entry of list, in list order, that is a substring of text; None if no entry is. */
  function FirstMatch(list: seq<string>, text: string): (r: Option<string>)
    ensures r.None? <==> forall j :: 0 <= j < |list| ==> !Contains(text, list[j])
    ensures r.Some? ==> r.value in list && Contains(text, r.value)
    ensures r.Some? ==> exists i :: 0 <= i < |list| && list[i] == r.value &&
                                 (forall j :: 0 <= j < i ==> !Contains(text, list[j]))
  {
    var i := FirstMatchFrom(list, text, 0);
    if i < |list| then Some(list[i]) else None
  }

  /** An entry earlier than every other occurring entry is the one returned (first match in list order). */
  lemma FirstMatchIsEarliest(list: seq<string>, text: string, i: nat)
    requires i < |list| && Contains(text, list[i])
    requires forall j :: 0 <= j < i ==> !Contains(text, list[j])
    ensures FirstMatch(list, text) == Some(list[i])
  {
    var r := FirstMatchFrom(list, text, 0);
    assert r <= i;
    assert !(r < i);
  }

  /** The linear search loop shared by figureOutKeyword, figureOutLibPackageName and figureOutInterestedApi. */
  method FindFirstMatch(list: seq<string>, text: string) returns (r: Option<string>)
    ensures r == FirstMatch(list, text)
  {
    for i := 0 to |list|
      invariant forall j :: 0 <= j < i ==> !Contains(text, list[j])
    {
      if Contains(text, list[i]) {
        FirstMatchIsEarliest(list, text, i);
        return Some(list[i]);
      }
    }
    return None;
  }

  /** The constructor loop of LibrariesList and InterestedApiList: the kept lines in order. */
  method CollectKeptLines(listLines: seq<string>) returns (kept: seq<string>)
    ensures kept == KeptLines(listLines)
  {
    kept := [];
    for i := 0 to |listLines|
      invariant kept == KeptLines(listLines[..i])
    {
      assert listLines[..i + 1][..i] == listLines[..i];
      var listLine := CanonicalizeListLine(listLines[i]);
      if listLine.None? {
        continue;
      }
      kept := kept + [listLine.value];
    }
    assert listLines[..|listLines|] == listLines;
  }
}

/** KeywordList (both the top-level and the io/ copy): keywords lower-cased, their words a dictionary. */
module KeywordList {
  import opened Wrappers
  import opened JavaString
  import opened ListFiles

  /** The keyword list: kept lines, lower-cased, in file order. */
  function Keywords(lines: seq<string>): seq<string>
  {
    if lines == [] then []
    else
      var rest := Keywords(lines[..|lines| - 1]);
      match CanonicalizeListLine(lines[|lines| - 1])
      case None => rest
      case Some(l) => rest + [ToLower(l)]
  }

  /** The members of a sequence of pieces, as a set. */
  function PieceSet(pieces: seq<string>): set<string>
  {
    set w | w in pieces
  }

  lemma PieceSetSnoc(pieces: seq<string>, j: nat)
    requires j < |pieces|
    ensures PieceSet(pieces[..j + 1]) == PieceSet(pieces[..j]) + {pieces[j]}
  {
    assert pieces[..j + 1] == pieces[..j] + [pieces[j]];
  }

  /** The words of one keyword phrase, as a set. */
  function PhraseWords(keyword: string): set<string>
  {
    PieceSet(SplitOnSpace(keyword))
  }

  /** The split dictionary: the space-separated pieces of every kept, lower-cased line. */
  function Dictionary(lines: seq<string>): set<string>
  {
    if lines == [] then {}
    else
      var rest := Dictionary(lines[..|lines| - 1]);
      match CanonicalizeListLine(lines[|lines| - 1])
      case None => rest
      case Some(l) => rest + PhraseWords(ToLower(l))
  }

  /** The union of the words of a list of phrases. */
  function AllPhraseWords(keywords: seq<string>): set<string>
  {
    if keywords == [] then {} else AllPhraseWords(keywords[..|keywords| - 1]) + PhraseWords(keywords[|keywords| - 1])
  }

  /** The keywords are exactly the kept lines, each lower-cased, in the same order. */
  lemma {:induction false} KeywordsAreLoweredKeptLines(lines: seq<string>)
    ensures |Keywords(lines)| == |KeptLines(lines)|
    ensures forall k :: 0 <= k < |Keywords(lines)| ==> Keywords(lines)[k] == ToLower(KeptLines(lines)[k])
  {
    if lines != [] {
      KeywordsAreLoweredKeptLines(lines[..|lines| - 1]);
    }
  }

  /** Every stored keyword is lower case. */
  lemma KeywordsAreLowerCase(lines: seq<string>)
    ensures forall k :: 0 <= k < |Keywords(lines)| ==> IsLowerCase(Keywords(lines)[k])
  {
    KeywordsAreLoweredKeptLines(lines);
    forall k | 0 <= k < |Keywords(lines)|
      ensures IsLowerCase(Keywords(lines)[k])
    {
      ToLowerIsLowerCase(KeptLines(lines)[k]);
    }
  }

  /** The dictionary is the union of the words of the stored keywords. */
  lemma {:induction false} DictionaryOfKeywords(lines: seq<string>)
    ensures Dictionary(lines) == AllPhraseWords(Keywords(lines))
  {
    if lines != [] {
      var init := lines[..|lines| - 1];
      DictionaryOfKeywords(init);
      match CanonicalizeListLine(lines[|lines| - 1])
      case None =>
      case Some(l) =>
        var kws := Keywords(init) + [ToLower(l)];
        assert kws[..|kws| - 1] == Keywords(init);
    }
  }

  lemma {:induction false} AllPhraseWordsMembers(keywords: seq<string>, w: string)
    ensures w in AllPhraseWords(keywords) <==> exists k :: 0 <= k < |keywords| && w in SplitOnSpace(keywords[k])
  {
    if keywords != [] {
      var init := keywords[..|keywords| - 1];
      AllPhraseWordsMembers(init, w);
      if exists k :: 0 <= k < |keywords| && w in SplitOnSpace(keywords[k]) {
        var k :| 0 <= k < |keywords| && w in SplitOnSpace(keywords[k]);
        if k < |init| {
          assert keywords[k] == init[k];
        }
      }
      if w in AllPhraseWords(init) {
        var k :| 0 <= k < |init| && w in SplitOnSpace(init[k]);
        assert keywords[k] == init[k];
      }
    }
  }

  /** A word is in the dictionary iff it is a space-separated piece of some stored keyword. */
  lemma DictionaryIsKeywordPieces(lines: seq<string>, w: string)
    ensures w in Dictionary(lines) <==> exists k :: 0 <= k < |Keywords(lines)| && w in SplitOnSpace(Keywords(lines)[k])
  {
    DictionaryOfKeywords(lines);
    AllPhraseWordsMembers(Keywords(lines), w);
  }

  /** The inner loop of the constructor: every piece of the phrase's split goes into the dictionary. */
  method AddPhraseWords(words: set<string>, phrase: string) returns (r: set<string>)
    ensures r == words + PhraseWords(phrase)
  {
    r := words;
    var wordsInCurLine := SplitOnSpace(phrase);
    for j := 0 to |wordsInCurLine|
      invariant r == words + PieceSet(wordsInCurLine[..j])
    {
      PieceSetSnoc(wordsInCurLine, j);
      r := r + {wordsInCurLine[j]};
    }
    assert wordsInCurLine[..|wordsInCurLine|] == wordsInCurLine;
  }

  class KeywordList {
    const keywordList: seq<string>
    const wordsForSplitting: set<string>

    /** The constructor's loop over the lines of the keyword list file. */
    constructor (listLines: seq<string>)
      ensures keywordList == Keywords(listLines)
      ensures wordsForSplitting == Dictionary(listLines)
    {
      var keywords: seq<string> := [];
      var words: set<string> := {};
      for i := 0 to |listLines|
        invariant keywords == Keywords(listLines[..i])
        invariant words == Dictionary(listLines[..i])
      {
        assert listLines[..i + 1][..i] == listLines[..i];
        var listLine := CanonicalizeListLine(listLines[i]);
        if listLine.None? {
          continue;
        }
        var lowered := ToLower(listLine.value);
        keywords := keywords + [lowered];
        words := AddPhraseWords(words, lowered);
      }
      assert listLines[..|listLines|] == listLines;
      keywordList := keywords;
      wordsForSplitting := words;
    }

    /** KeywordList.figureOutKeyword: the first keyword occurring in the lower-cased text. */
    method FigureOutKeyword(text: string) returns (r: Option<string>)
      ensures r == FirstMatch(keywordList, ToLower(text))
    {
      r := FindFirstMatch(keywordList, ToLower(text));
    }

    /** KeywordList.hasKeyword. */
    method HasKeyword(text: string) returns (b: bool)
      ensures b <==> exists j :: 0 <= j < |keywordList| && Contains(ToLower(text), keywordList[j])
    {
      var keyword := FigureOutKeyword(text);
      b := keyword.Some?;
    }

    /** KeywordList.getDictForWordSplit. */
    function GetDictForWordSplit(): (dict: set<string>)
      ensures dict == wordsForSplitting
    {
      wordsForSplitting
    }
  }
}

/** io/LibrariesList: the library package names, kept case-sensitive. */
module LibrariesList {
  import opened Wrappers
  import opened JavaString
  import opened ListFiles

  class LibrariesList {
    const librariesList: seq<string>

    /** The constructor's loop over the lines of the libraries list file. */
    constructor (listLines: seq<string>)
      ensures librariesList == KeptLines(listLines)
    {
      var kept := CollectKeptLines(listLines);
      librariesList := kept;
    }

    /** LibrariesList.figureOutLibPackageName: case-sensitive first match. */
    method FigureOutLibPackageName(text: string) returns (r: Option<string>)
      ensures r == FirstMatch(librariesList, text)
    {
      r := FindFirstMatch(librariesList, text);
    }

    /** LibrariesList.containLibPackageName. */
    method ContainLibPackageName(text: string) returns (b: bool)
      ensures b <==> exists j :: 0 <= j < |librariesList| && Contains(text, librariesList[j])
    {
      var name := FigureOutLibPackageName(text);
      b := name.Some?;
    }
  }

  /** new LibrariesList(): fails unless the libraries-only switch is on. */
  method NewLibrariesList(apiInLibrariesOnly: bool, listLines: seq<string>) returns (r: Result<LibrariesList>)
    ensures r.Failure? <==> !apiInLibrariesOnly
    ensures r.Success? ==> fresh(r.value) && r.value.librariesList == KeptLines(listLines)
  {
    if !apiInLibrariesOnly {
      return Failure("Config.apiInLibrariesOnly switch isn't turned on");
    }
    var list := new LibrariesList(listLines);
    return Success(list);
  }
}

/** InterestedApiList: the API names an invoke must mention to be looked at. */
module InterestedApiList {
  import opened Wrappers
  import opened JavaString
  import opened ListFiles

  class InterestedApiList {
    const interestedApiList: seq<string>

    /** The constructor's loop over the lines of the interested-API file. */
    constructor (listLines: seq<string>)
      ensures interestedApiList == KeptLines(listLines)
    {
      var kept := CollectKeptLines(listLines);
      interestedApiList := kept;
    }

    /** InterestedApiList.figureOutInterestedApi. */
    method FigureOutInterestedApi(text: string) returns (r: Option<string>)
      ensures r == FirstMatch(interestedApiList, text)
    {
      r := FindFirstMatch(interestedApiList, text);
    }

    /** InterestedApiList.containInterestedApi. */
    method ContainInterestedApi(text: string) returns (b: bool)
      ensures b <==> exists j :: 0 <= j < |interestedApiList| && Contains(text, interestedApiList[j])
    {
      var api := FigureOutInterestedApi(text);
      b := api.Some?;
    }
  }

  /** new InterestedApiList(): fails unless the interested-API switch is on. */
  method NewInterestedApiList(interestedApiOnly: bool, listLines: seq<string>) returns (r: Result<InterestedApiList>)
    ensures r.Failure? <==> !interestedApiOnly
    ensures r.Success? ==> fresh(r.value) && r.value.interestedApiList == KeptLines(listLines)
  {
    if !interestedApiOnly {
      return Failure("Config.interestedApiOnly switch isn't turned on");
    }
    var list := new InterestedApiList(listLines);
    return Success(list);
  }
}
