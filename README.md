# JimpleKeyword — a verified model of its analysis core

JimpleKeyword scans the Jimple statements of an Android application (as produced by
Soot/FlowDroid) for keywords taken from a keyword list. It finds the string constants
in each statement, canonicalises them (word splitting, stemming of long words,
lower-casing) and looks for a keyword at the start of a word. Along the way it records:

- the hits;
- the package of each hit, split into app and library packages by the company prefix;
- the HashMap statements;
- the key-value calls on the same container object (the "data blocks").

Three further analyses work on what that scan recorded:

- **taint propagation.** Keys are propagated from HashMap `put`/`get` calls along control-flow successors, into callees and back to callers, up to network sinks with an `http(s)://` argument.
- **root-caller search.** A depth-first walk over reversed call edges finds the root callers of each hit. The superclass chain names the Activity/Fragment layout.
- **grouping and export.** Data blocks are grouped by object id, and sensitive-data entries are produced for TaintDroid.

The model is one Dafny module per component of the core:

- `wrappers.dfy`, `java_string.dfy`: `Option`/`Result`, and the Java string operations the core relies on (`trim`, ASCII `toLowerCase`, `indexOf`, `split`, `compareTo`).
- `string_util.dfy`: `StringUtil` (both copies): join and C-style unescape.
- `word_splitter.dfy`: `WordSplitter`: delimiter, case and dictionary splits.
- `list_files.dfy`: `KeywordList` (both copies), `LibrariesList`, `InterestedApiList`.
- `keyword_detector.dfy`: `text/KeywordDetector`.
- `jimple.dfy`: the abstract program.
  - Statements, value boxes, methods, classes.
  - CFG successors, callers and method-of, as immutable maps.
- `jimple_selector.dfy`: `JimpleSelector`.
- `soot_util.dfy`: `getLeadingPartsOfName` (both copies) and the `KeyTaintTag` side table (`TagStore`).
- `counters.dfy`: `WordCounter` and `HashMapStatHandler`.
- `keyword_inspector.dfy`: `KeywordInspector`.
- `key_taint_analyzer.dfy`: `KeyTaintAnalyzer`.
- `root_caller_inspector.dfy`: `RootCallerInspector`.
- `root_caller_method_inspector.dfy`: `RootCallerMethodInspector`.
- `tdroid_link.dfy`: `TDroidLink`.

### How the source's forms are kept

- Objects whose fields the source updates are classes with `modifies` frames. This covers the list holders, `WordCounter`, `KeywordInspector`, `KeyTaintAnalyzer`, `RootCallerInspector` and the tag store.
- Their loops are `while`/`for` loops proved against snoc-recursive specification functions. The properties the source promises are lemmas about those functions.

### The tag side table

Soot attaches tags to value boxes. The model keeps them in a side table:

- a map from each box to the list of tags it carries;
- a map from each tag to its key list.

`getTag` answers the first tag attached. So aliasing (`leftBox.addTag(keyTag)`) and appending to a shared key list are both visible to the proofs.

### Where the model departs from the source

The model follows the code, not its comments.

- **Quote at index 0.** `extractStringConst` uses `stringConstBegin == 0` as its "no begin" sentinel, so a quote at index 0 never opens a constant (`LeadingQuoteOpensNothing`).
- **No boundary retry.** `figureOutKeywordInStrConst` checks the word boundary of the list's first match only. It never tries a later keyword (`MidWordMatchHidesLaterKeywords`).
- **Empty error paths.** `charAt(0)` on an empty trimmed argument throws in `extractValidKeyArgOfStat`. That path, and a trailing backslash in `extractStringConst`, are modelled as `Failure` results.

## Model

| member | source | states |
|---|---|---|
| StringUtil.JoinString | src/edu/fudan/JimpleKeyword/util/StringUtil.java:24-42 | the builder loop computes the items joined by the separator, with the separator only between consecutive items |
| StringUtil.JoinEmpty | src/edu/fudan/JimpleKeyword/util/StringUtil.java:24-42 | joining an empty list gives the empty string |
| StringUtil.JoinSeparators | src/edu/fudan/JimpleKeyword/util/StringUtil.java:24-42 | n ≥ 1 items give n−1 more separators than the items hold, and the length is the items' total length plus n−1 |
| StringUtil.JoinSnoc | src/edu/fudan/JimpleKeyword/util/StringUtil.java:24-42 | appending an item to a non-empty list appends the separator and then the item |
| StringUtil.UnescapeString | src/edu/fudan/JimpleKeyword/util/StringUtil.java:49-102 | the index loop with its manual skips computes the unescaping `Unescape` of the raw string; the copy at src/edu/fudan/JimpleKeyword/StringUtil.java:5-58 does the same |
| StringUtil.UnescapeDropsQuotes | src/edu/fudan/JimpleKeyword/util/StringUtil.java:59-62 | without backslashes, unescaping is exactly the removal of every bare `"`; the copy at src/edu/fudan/JimpleKeyword/StringUtil.java:15-18 does the same |
| StringUtil.UnescapeEscape | src/edu/fudan/JimpleKeyword/util/StringUtil.java:68-86 | `\"` becomes `"` and `\\` becomes `\`: unescaping a string escaped that way gives the string back; the copy at src/edu/fudan/JimpleKeyword/StringUtil.java:24-37 does the same |
| StringUtil.UnescapeAt | src/edu/fudan/JimpleKeyword/util/StringUtil.java:87-90 | one step of the scan, case by case: a bare quote is dropped, `\"` and `\\` keep their second character, any other escape pair drops both characters, and a lone trailing backslash is dropped; the copy at src/edu/fudan/JimpleKeyword/StringUtil.java:38-46 does the same |
| StringUtil.UnescapePlain | src/edu/fudan/JimpleKeyword/util/StringUtil.java:56-97 | a string with no `"` and no `\` comes back unchanged |
| StringUtil.UnescapeShorter | src/edu/fudan/JimpleKeyword/util/StringUtil.java:56-97 | the output is never longer than the input; the copy at src/edu/fudan/JimpleKeyword/StringUtil.java:12-53 does the same |
| StringUtil.UnescapeAddsNoChar | src/edu/fudan/JimpleKeyword/util/StringUtil.java:49-102 | unescaping introduces no character that was not in the input |
| WordSplitter.WordSplitter.constructor | src/edu/fudan/JimpleKeyword/WordSplitter.java:18-21 | the splitter keeps the dictionary it is given |
| WordSplitter.WordSplitter.SplitWordsByDelimiter | src/edu/fudan/JimpleKeyword/WordSplitter.java:23-39 | the tokenizer loop returns exactly the maximal delimiter-free runs (`Tokens`); each token is non-empty and holds no delimiter |
| WordSplitter.AmpersandIsNotADelimiter | src/edu/fudan/JimpleKeyword/WordSplitter.java:26-31 | `&` is deliberately not in the delimiter set |
| WordSplitter.Tokens | src/edu/fudan/JimpleKeyword/WordSplitter.java:23-39 | every token is non-empty and holds no delimiter |
| WordSplitter.TokensConcat | src/edu/fudan/JimpleKeyword/WordSplitter.java:23-39 | the tokens concatenate to the input with every delimiter removed |
| WordSplitter.WordSplitter.FindOutWordAfterUpperCaseChar | src/edu/fudan/JimpleKeyword/WordSplitter.java:41-122 | the word found at index `i` is a non-empty prefix of `fragment[i..]`; at a capital it is the case word that starts at `i` |
| WordSplitter.WordAfterUpper | src/edu/fudan/JimpleKeyword/WordSplitter.java:41-122 | the word after a capital is a non-empty slice of the fragment starting at that index |
| WordSplitter.WordAfterLower | src/edu/fudan/JimpleKeyword/WordSplitter.java:124-149 | the word after a non-capital is a non-empty slice of the fragment starting at that index |
| WordSplitter.WordAt | src/edu/fudan/JimpleKeyword/WordSplitter.java:176-196 | the word taken at each step of the case split is a non-empty slice starting there, so the loop advances |
| WordSplitter.UpperRunStopsBeforeLastCapital | src/edu/fudan/JimpleKeyword/WordSplitter.java:62-79 | in a run of two or more capitals followed by a lower-case letter, the word stops before the last capital ("URLConnection" gives "URL") |
| WordSplitter.CapitalizedWordRunsToNextCapital | src/edu/fudan/JimpleKeyword/WordSplitter.java:94-121 | a capital followed by lower-case letters gives the word up to the next capital or the end |
| WordSplitter.FinalCharacterIsAWord | src/edu/fudan/JimpleKeyword/WordSplitter.java:94-121 | a lone final character is a word by itself |
| WordSplitter.WordSplitter.FindOutWordAfterLowerCaseChar | src/edu/fudan/JimpleKeyword/WordSplitter.java:124-149 | the word found at a non-capital runs to the next capital; it is a non-empty prefix of `fragment[i..]` |
| WordSplitter.WordSplitter.SplitTrimmedByCase | src/edu/fudan/JimpleKeyword/WordSplitter.java:176-196 | the `i += word.length()` loop appends exactly the case words of the fragment, in order |
| WordSplitter.WordSplitter.SplitWordsByCaseInto | src/edu/fudan/JimpleKeyword/WordSplitter.java:164-197 | one fragment: its case words are appended to `wordsOut`; a null fragment appends nothing |
| WordSplitter.WordSplitter.SplitWordsByCase | src/edu/fudan/JimpleKeyword/WordSplitter.java:199-211 | the list version is the case words of every fragment, in order |
| WordSplitter.CaseWordsFromConcat | src/edu/fudan/JimpleKeyword/WordSplitter.java:176-196 | the words taken from index `i` on concatenate back to `fragment[i..]` |
| WordSplitter.CaseWordsConcat | src/edu/fudan/JimpleKeyword/WordSplitter.java:164-197 | the case words of a fragment concatenate back to the trimmed fragment |
| WordSplitter.CaseWordsNonEmpty | src/edu/fudan/JimpleKeyword/WordSplitter.java:176-196 | every case word is non-empty |
| WordSplitter.CaseWordsAllConcat | src/edu/fudan/JimpleKeyword/WordSplitter.java:199-211 | over a list, the case words concatenate to the trimmed fragments |
| WordSplitter.WordSplitter.LongestPrefix | src/edu/fudan/JimpleKeyword/WordSplitter.java:221-243 | the result is `""` or a dictionary word that prefixes the fragment, and no dictionary prefix is longer |
| WordSplitter.LongestDictPrefix | src/edu/fudan/JimpleKeyword/WordSplitter.java:221-243 | `""` or a dictionary word prefixing the fragment, and no dictionary prefix is longer |
| WordSplitter.LongestDictPrefixUnique | src/edu/fudan/JimpleKeyword/WordSplitter.java:221-243 | any answer with those two properties is the longest-prefix answer |
| WordSplitter.WordSplitter.SplitWordsByDictInto | src/edu/fudan/JimpleKeyword/WordSplitter.java:245-279 | the loop that reassigns `fragment` appends exactly the dictionary split of the fragment |
| WordSplitter.WordSplitter.SplitWordsByDict | src/edu/fudan/JimpleKeyword/WordSplitter.java:281-293 | the list version is the dictionary split of every fragment, in order |
| WordSplitter.DictWordsConcat | src/edu/fudan/JimpleKeyword/WordSplitter.java:245-279 | the dictionary pieces concatenate back to the fragment |
| WordSplitter.DictWordsAreDictWords | src/edu/fudan/JimpleKeyword/WordSplitter.java:245-279 | every piece is non-empty, and every piece except possibly the last is a dictionary word |
| WordSplitter.DictWordsAllConcat | src/edu/fudan/JimpleKeyword/WordSplitter.java:281-293 | over a list, the pieces concatenate to the fragments |
| WordSplitter.WordSplitter.SplitWords | src/edu/fudan/JimpleKeyword/WordSplitter.java:295-304 | the result is a delimiter split, then a case split, then a dictionary split |
| WordSplitter.SplitWordsConcat | src/edu/fudan/JimpleKeyword/WordSplitter.java:295-304 | the words concatenate to the trimmed delimiter tokens of the sentence |
| ListFiles.CanonicalizeListLine | src/edu/fudan/JimpleKeyword/KeywordList.java:47-68 | null for a line that is blank or starts with `#` after trimming; otherwise the trimmed line; the copies at src/edu/fudan/JimpleKeyword/io/KeywordList.java:30-51, src/edu/fudan/JimpleKeyword/io/LibrariesList.java:26-47 and src/edu/fudan/JimpleKeyword/InterestedApiList.java:23-44 do the same |
| ListFiles.KeptLineShape | src/edu/fudan/JimpleKeyword/KeywordList.java:47-68 | a kept line is non-empty, does not start with `#`, has no blank at either end, and trimming it again changes nothing |
| ListFiles.KeptLinesOfOne | src/edu/fudan/JimpleKeyword/KeywordList.java:122-126 | a skipped line contributes nothing; a kept line contributes its trimmed form |
| ListFiles.KeptLinesAppend | src/edu/fudan/JimpleKeyword/io/LibrariesList.java:70-82 | the kept lines of a concatenation are the kept lines of each part, in file order |
| ListFiles.KeptLinesComeFromLines | src/edu/fudan/JimpleKeyword/InterestedApiList.java:67-79 | every stored entry is the canonical form of some input line |
| ListFiles.CollectKeptLines | src/edu/fudan/JimpleKeyword/io/LibrariesList.java:70-82 | the constructor loop stores exactly the kept lines, in order and not lower-cased; the copy at src/edu/fudan/JimpleKeyword/InterestedApiList.java:67-79 does the same |
| ListFiles.FindFirstMatch | src/edu/fudan/JimpleKeyword/io/LibrariesList.java:102-116 | the early-return search loop returns the first list entry that is a substring of the text (case-sensitive), or null; the copy at src/edu/fudan/JimpleKeyword/InterestedApiList.java:99-113 does the same |
| ListFiles.FirstMatch | src/edu/fudan/JimpleKeyword/KeywordList.java:160-178 | the answer is null iff no entry is a substring; otherwise it is a list member that is a substring, and no earlier entry is one |
| ListFiles.FirstMatchIsEarliest | src/edu/fudan/JimpleKeyword/io/KeywordList.java:112-130 | the entry at index i is returned when it matches and no earlier entry does |
| KeywordList.KeywordList.constructor | src/edu/fudan/JimpleKeyword/KeywordList.java:110-141 | the keyword list is the kept lines lower-cased, in file order; the split dictionary is every space-separated piece of every keyword; the copy at src/edu/fudan/JimpleKeyword/io/KeywordList.java:59-90 does the same |
| KeywordList.AddPhraseWords | src/edu/fudan/JimpleKeyword/KeywordList.java:135-139 | the inner loop adds exactly the space-split pieces of one keyword to the dictionary |
| KeywordList.KeywordsAreLoweredKeptLines | src/edu/fudan/JimpleKeyword/KeywordList.java:118-132 | the keywords are the kept lines, one for one, each lower-cased |
| KeywordList.KeywordsAreLowerCase | src/edu/fudan/JimpleKeyword/io/KeywordList.java:67-81 | every stored keyword is lower-case |
| KeywordList.DictionaryIsKeywordPieces | src/edu/fudan/JimpleKeyword/io/KeywordList.java:84-88 | a word is in the dictionary iff it is a space-split piece of some stored keyword |
| KeywordList.DictionaryOfKeywords | src/edu/fudan/JimpleKeyword/KeywordList.java:135-139 | the dictionary is the union of the pieces of all keywords |
| KeywordList.AllPhraseWordsMembers | src/edu/fudan/JimpleKeyword/KeywordList.java:135-139 | membership in the union of pieces, in both directions |
| KeywordList.KeywordList.FigureOutKeyword | src/edu/fudan/JimpleKeyword/KeywordList.java:160-178 | the first keyword, in list order, that is a substring of the lower-cased text, or null; the copy at src/edu/fudan/JimpleKeyword/io/KeywordList.java:112-130 does the same |
| KeywordList.KeywordList.HasKeyword | src/edu/fudan/JimpleKeyword/KeywordList.java:149-152 | true iff some keyword is a substring of the lower-cased text, that is iff the keyword search is non-null; the copy at src/edu/fudan/JimpleKeyword/io/KeywordList.java:98-101 does the same |
| KeywordList.KeywordList.GetDictForWordSplit | src/edu/fudan/JimpleKeyword/KeywordList.java:180-183 | returns the split dictionary built by the constructor |
| LibrariesList.NewLibrariesList | src/edu/fudan/JimpleKeyword/io/LibrariesList.java:55-83 | construction fails when the libraries-only switch is off; otherwise the list holds exactly the kept lines |
| LibrariesList.LibrariesList.constructor | src/edu/fudan/JimpleKeyword/io/LibrariesList.java:55-83 | the stored list is the kept lines of the file |
| LibrariesList.LibrariesList.FigureOutLibPackageName | src/edu/fudan/JimpleKeyword/io/LibrariesList.java:102-116 | the first list entry that is a case-sensitive substring of the text, or null |
| LibrariesList.LibrariesList.ContainLibPackageName | src/edu/fudan/JimpleKeyword/io/LibrariesList.java:91-94 | true iff some entry is a substring, that is iff the search is non-null |
| InterestedApiList.NewInterestedApiList | src/edu/fudan/JimpleKeyword/InterestedApiList.java:52-80 | construction fails when the interested-API switch is off; otherwise the list holds exactly the kept lines |
| InterestedApiList.InterestedApiList.constructor | src/edu/fudan/JimpleKeyword/InterestedApiList.java:52-80 | the stored list is the kept lines of the file, in order |
| InterestedApiList.InterestedApiList.FigureOutInterestedApi | src/edu/fudan/JimpleKeyword/InterestedApiList.java:99-113 | the first entry that is a substring of the text, or null |
| InterestedApiList.InterestedApiList.ContainInterestedApi | src/edu/fudan/JimpleKeyword/InterestedApiList.java:88-91 | true iff some entry is a substring, that is iff the search is non-null |
| KeywordDetector.KeywordDetector.constructor | src/edu/fudan/JimpleKeyword/text/KeywordDetector.java:190-200 | the detector keeps the keyword list and the stemmer, and its word splitter uses the list's split dictionary |
| KeywordDetector.KeywordDetector.ExtractStringConst | src/edu/fudan/JimpleKeyword/text/KeywordDetector.java:33-92 | the begin/end scan computes `ExtractStringConsts`, including its failure on a trailing backslash |
| KeywordDetector.ExtractedConstantsAreQuoted | src/edu/fudan/JimpleKeyword/text/KeywordDetector.java:46-67 | each extracted constant is the text strictly between an unescaped opening quote (not at index 0) and a later unescaped quote |
| KeywordDetector.ExtractFailsIffTrailingBackslash | src/edu/fudan/JimpleKeyword/text/KeywordDetector.java:71-83 | the look-ahead past a backslash fails (an exception in the source) exactly when the text ends in a backslash |
| KeywordDetector.EscapedQuoteIsSkipped | src/edu/fudan/JimpleKeyword/text/KeywordDetector.java:71-83 | an escaped `\"` neither opens nor closes a constant and stays inside it |
| KeywordDetector.NoQuotesNoConstants | src/edu/fudan/JimpleKeyword/text/KeywordDetector.java:33-92 | a text without quotes yields no constants |
| KeywordDetector.LeadingQuoteOpensNothing | src/edu/fudan/JimpleKeyword/text/KeywordDetector.java:49-52 | a quote at index 0 opens nothing, because begin 0 is the "no begin" sentinel; the same constant after a space is found |
| KeywordDetector.KeywordDetector.CanonicalizeStringConst | src/edu/fudan/JimpleKeyword/text/KeywordDetector.java:124-151 | the result is the split words, long ones stemmed, joined by spaces and lower-cased; it is lower-case |
| KeywordDetector.CanonicalForm | src/edu/fudan/JimpleKeyword/text/KeywordDetector.java:132-150 | the canonical form is lower-case |
| KeywordDetector.KeywordDetector.Canonical | src/edu/fudan/JimpleKeyword/text/KeywordDetector.java:124-151 | the canonical form of a constant, split with the detector's splitter, is lower-case |
| KeywordDetector.StemLong | src/edu/fudan/JimpleKeyword/text/KeywordDetector.java:132-148 | words longer than 4 characters are replaced by their stem; others are kept |
| KeywordDetector.CanonicalFormLength | src/edu/fudan/JimpleKeyword/text/KeywordDetector.java:132-148 | the canonical form joins the (stemmed) words with single spaces: its length is their total plus one per gap |
| KeywordDetector.ShortWordsUnstemmed | src/edu/fudan/JimpleKeyword/text/KeywordDetector.java:132-148 | when no word is longer than 4, the canonical form is just the words joined by spaces, lower-cased |
| KeywordDetector.KeywordDetector.FigureOutKeywordInStrConst | src/edu/fudan/JimpleKeyword/text/KeywordDetector.java:94-122 | the answer is the list's first keyword contained in the canonical form, when it occurs first at index 0 or right after a space; otherwise null |
| KeywordDetector.KeywordAtWordStart | src/edu/fudan/JimpleKeyword/text/KeywordDetector.java:110-115 | a non-null answer is the list's first match and starts a word in the canonical text |
| KeywordDetector.FirstMatchFailingBoundaryGivesNone | src/edu/fudan/JimpleKeyword/text/KeywordDetector.java:102-121 | when the first matching keyword fails the boundary check the result is null; no later keyword is tried |
| KeywordDetector.MidWordMatchHidesLaterKeywords | src/edu/fudan/JimpleKeyword/text/KeywordDetector.java:102-121 | with the list ["pass", "by"], "bypass" yields null although "by" starts a word |
| KeywordDetector.KeywordDetector.KeywordInStrConst | src/edu/fudan/JimpleKeyword/text/KeywordDetector.java:94-122 | a non-null keyword is a list member contained in the canonical form, at a word start |
| KeywordDetector.KeywordDetector.FigureOutKeywordInJimple | src/edu/fudan/JimpleKeyword/text/KeywordDetector.java:163-183 | fails iff extraction fails, with the same error; otherwise it is the keyword of the first constant, in textual order, that has one, and null if there is none |
| KeywordDetector.FirstSome | src/edu/fudan/JimpleKeyword/text/KeywordDetector.java:163-183 | null iff every constant has no keyword; otherwise the value of the earliest constant that has one |
| KeywordDetector.FirstSomeAt | src/edu/fudan/JimpleKeyword/text/KeywordDetector.java:163-183 | the keyword of constant i is returned when no earlier constant has one |
| KeywordDetector.KeywordDetector.KeywordsOfConsts | src/edu/fudan/JimpleKeyword/text/KeywordDetector.java:171-182 | one answer per constant, in order, each the keyword of that constant |
| KeywordDetector.KeywordDetector.FirstKeywordOfConsts | src/edu/fudan/JimpleKeyword/text/KeywordDetector.java:171-182 | the early-return loop over the constants computes that first keyword |
| JimpleSelector.JimpleSelector.IsInvokeStmtContainKeyValue | src/edu/fudan/JimpleKeyword/JimpleSelector.java:34-64 | a special (constructor) invoke is never key-value; any other invoke is key-value iff it has exactly 2 arguments and the first is typed `java.lang.String` |
| JimpleSelector.InitialStatus | src/edu/fudan/JimpleKeyword/JimpleSelector.java:76-113 | a non-invoke is NOT_INTERESTED; a key-value invoke is DEFINITE_HIT whatever the filter says; with the API filter on, an invoke mentioning no interested API is NOT_INTERESTED; anything else needs detail inspection (each case in both directions) |
| JimpleSelector.JimpleSelector.JudgeJimpleInitially | src/edu/fudan/JimpleKeyword/JimpleSelector.java:76-113 | the if/return chain yields that classification for the current switch and list |
| JimpleSelector.JimpleSelector.JudgeJimpleInDetail | src/edu/fudan/JimpleKeyword/JimpleSelector.java:126-144 | always true with the libraries switch off; with it on, true iff the text contains a library package |
| JimpleSelector.InitInterestedApiList | src/edu/fudan/JimpleKeyword/JimpleSelector.java:154-184 | a missing list file turns the switch off and leaves no list; otherwise the switch stays as given and the list holds the file's kept lines |
| JimpleSelector.InitLibrariesList | src/edu/fudan/JimpleKeyword/JimpleSelector.java:194-224 | the same switch-disabling for the libraries list |
| JimpleSelector.JimpleSelector.constructor | src/edu/fudan/JimpleKeyword/JimpleSelector.java:231-237 | each switch ends up on iff it was requested and its file exists, and each list is the kept lines of its file |
| SootUtil.GetLeadingPartsOfName | src/edu/fudan/JimpleKeyword/SootUtil.java:44-69 | the `dotPos` loop computes `LeadingParts`; a parts count below 1 is a failure, since `substring(0, -1)` throws; the copy at src/edu/fudan/JimpleKeyword/util/SootUtil.java:44-69 does the same |
| SootUtil.LeadingPartsIsPrefix | src/edu/fudan/JimpleKeyword/util/SootUtil.java:44-69 | the result exists iff the parts count is at least 1, and it is always a prefix of the name |
| SootUtil.LeadingPartsOfShortName | src/edu/fudan/JimpleKeyword/SootUtil.java:47-61 | a name with fewer dots than the parts count comes back whole; the copy at src/edu/fudan/JimpleKeyword/util/SootUtil.java:55-61 does the same |
| SootUtil.LeadingPartsOfLongName | src/edu/fudan/JimpleKeyword/SootUtil.java:46-68 | otherwise the result stops just before the `partsCount`-th dot and holds exactly `partsCount`−1 dots; the copy at src/edu/fudan/JimpleKeyword/util/SootUtil.java:65-68 does the same |
| SootUtil.NthDotCounts | src/edu/fudan/JimpleKeyword/SootUtil.java:46-68 | the n-th dot exists iff the name has at least n dots, and n−1 dots precede it |
| KeyTaintTags.TagStore.constructor | src/edu/fudan/JimpleKeyword/SootUtil.java:125-128 | a fresh store has no tags on any box and no key lists |
| KeyTaintTags.TagStore.NewTag | src/edu/fudan/JimpleKeyword/SootUtil.java:125-128 | `new KeyTaintTag`: a tag not seen before, with an empty key list; nothing else changes |
| KeyTaintTags.TagStore.GetTag | src/edu/fudan/JimpleKeyword/KeywordInspector.java:272 | a box has a tag iff something was attached to it (Soot's `getTag` answers the first one) |
| KeyTaintTags.TagStore.AddTag | src/edu/fudan/JimpleKeyword/KeywordInspector.java:280 | `addTag` appends the tag to the box's list, so a box already tagged keeps answering its first tag; key lists are untouched |
| KeyTaintTags.TagStore.AddKeyConst | src/edu/fudan/JimpleKeyword/SootUtil.java:130-133 | exactly one key is appended at the end of that tag's list; nothing else changes |
| KeyTaintTags.TagStore.Union | src/edu/fudan/JimpleKeyword/SootUtil.java:206-212 | the other tag's keys are appended to this tag; the other tag is left unchanged |
| KeyTaintTags.TagStore.ToString | src/edu/fudan/JimpleKeyword/SootUtil.java:158-168 | the text is each key followed by `,`, in list order |
| KeyTaintTags.KeysToStringSplits | src/edu/fudan/JimpleKeyword/SootUtil.java:158-168 | with comma-free keys, splitting the text on commas gives the keys back, plus a final empty piece |
| KeyTaintTags.KeysToString | src/edu/fudan/JimpleKeyword/SootUtil.java:158-168 | the length is the keys' total plus one per key, and there is one more comma per key |
| KeyTaintTags.TagStore.Merge | src/edu/fudan/JimpleKeyword/SootUtil.java:170-204 | null for no tags, or when the concatenation is empty; otherwise a fresh tag holding the in-order concatenation of the non-null tags' lists; box tags are untouched |
| KeyTaintTags.MergedKeysNonEmpty | src/edu/fudan/JimpleKeyword/SootUtil.java:180-203 | the merged list is non-empty iff some argument tag has a non-empty list |
| KeyTaintTags.MergedKeysAppend | src/edu/fudan/JimpleKeyword/SootUtil.java:180-203 | merging a concatenation of tag arrays concatenates the merges |
| KeyTaintTags.MergedKeysOrderFree | src/edu/fudan/JimpleKeyword/SootUtil.java:180-203 | the multiset of merged keys does not depend on the order of the tags |
| WordCounter.WordCounter.constructor | src/edu/fudan/JimpleKeyword/util/WordCounter.java:21 | the counter map starts empty |
| WordCounter.WordCounter.Count | src/edu/fudan/JimpleKeyword/util/WordCounter.java:28-42 | an unseen word gets count 1; a seen word gets exactly one more; every other entry is unchanged |
| WordCounter.TallyCounts | src/edu/fudan/JimpleKeyword/util/WordCounter.java:28-42 | after counting a sequence of words, the keys are exactly the words counted and each count is the number of calls with that word |
| WordCounter.WordCounter.EntryList | src/edu/fudan/JimpleKeyword/util/WordCounter.java:54-55 | `entrySet()` copied to a list: each key exactly once, with its count |
| WordCounter.SortDescSorted | src/edu/fudan/JimpleKeyword/util/WordCounter.java:57-67 | sorting by the descending comparator gives a permutation in non-increasing count order |
| WordCounter.InsertDescPerm | src/edu/fudan/JimpleKeyword/util/WordCounter.java:57-67 | one insertion step keeps every entry and adds one |
| WordCounter.InsertDescSorted | src/edu/fudan/JimpleKeyword/util/WordCounter.java:57-67 | one insertion step keeps the list non-increasing |
| WordCounter.SortDescStable | src/edu/fudan/JimpleKeyword/util/WordCounter.java:57-67 | the sort is stable: the entries with any given count appear in the same relative order as in the input, as with `Collections.sort` |
| WordCounter.InsertDescWithCount | src/edu/fudan/JimpleKeyword/util/WordCounter.java:57-67 | one insertion step puts the entry after every entry with its count |
| WordCounter.WithCountAppend | src/edu/fudan/JimpleKeyword/util/WordCounter.java:57-67 | picking the entries with one count distributes over concatenation |
| WordCounter.WithCountSnoc | src/edu/fudan/JimpleKeyword/util/WordCounter.java:57-67 | appending one entry adds it to the picked entries exactly when it has the count |
| WordCounter.WithCountNone | src/edu/fudan/JimpleKeyword/util/WordCounter.java:57-67 | a list whose counts are all below c has no entry with count c |
| WordCounter.PutKeys | src/edu/fudan/JimpleKeyword/util/WordCounter.java:72-78 | a `LinkedHashMap.put` keeps the keys distinct and its key set gains exactly the key; a key not yet present is appended at the end with its value |
| WordCounter.PutInPlace | src/edu/fudan/JimpleKeyword/util/WordCounter.java:72-78 | putting a key already present replaces the value at that key's position and changes no other entry |
| WordCounter.PutUnescapedKeys | src/edu/fudan/JimpleKeyword/util/WordCounter.java:72-78 | the result's keys are distinct and are exactly the unescaped words |
| WordCounter.PutUnescapedLast | src/edu/fudan/JimpleKeyword/util/WordCounter.java:72-78 | each entry of the result carries the count of the last sorted entry whose key unescapes to its key: later puts overwrite earlier ones |
| WordCounter.PutUnescapedWithoutCollision | src/edu/fudan/JimpleKeyword/util/WordCounter.java:72-78 | when no two words unescape alike, the result is the sorted list with its keys unescaped, so it stays in non-increasing order |
| WordCounter.CollidingKeysBreakOrder | src/edu/fudan/JimpleKeyword/util/WordCounter.java:72-78 | with `a\"`:5, `b`:4, `a`:3 the two keys that unescape to `a` collide: the later count 3 overwrites 5 in the first key's place, so the result is no longer in descending order |
| WordCounter.WordCounter.GetListInDesc | src/edu/fudan/JimpleKeyword/util/WordCounter.java:49-81 | the result is the descending sort of an entry list of the counter map, put key by unescaped key into a `LinkedHashMap`; its keys are distinct and exactly the unescaped counted words; each entry is a counted word, unescaped, with that word's count; when no two words unescape alike, every word is there with its count, one entry per word, in non-increasing count order |
| WordCounter.ListInDescProperties | src/edu/fudan/JimpleKeyword/util/WordCounter.java:49-81 | the same facts about any entry list of a counter map: distinct keys equal to the unescaped words, each entry an unescaped word with its own count, and without collisions every word with its count in non-increasing order |
| WordCounter.PutAllUnescaped | src/edu/fudan/JimpleKeyword/util/WordCounter.java:72-78 | the put loop gives the `LinkedHashMap` that putting each sorted entry under its unescaped key yields, in order |
| WordCounter.ListInDescKeys | src/edu/fudan/JimpleKeyword/util/WordCounter.java:49-81 | the keys of the result are distinct and are exactly the counted words, unescaped |
| WordCounter.ListInDescEntries | src/edu/fudan/JimpleKeyword/util/WordCounter.java:49-81 | every entry of the result is some counted word, unescaped, with that word's count |
| WordCounter.ListInDescWithoutCollision | src/edu/fudan/JimpleKeyword/util/WordCounter.java:49-81 | when no two counted words unescape alike, every word appears with its count, the result has one entry per word, and the counts do not increase |
| WordCounter.SortedEntryOfMap | src/edu/fudan/JimpleKeyword/util/WordCounter.java:57-67 | every entry of a permutation of the entry list is a word of the map with its count |
| WordCounter.SortedEntriesKeys | src/edu/fudan/JimpleKeyword/util/WordCounter.java:57-78 | the unescaped keys of any permutation of the entry list are the unescaped keys of the map |
| WordCounter.PutUnescapedDistinct | src/edu/fudan/JimpleKeyword/util/WordCounter.java:72-78 | when no two words unescape alike, every entry is kept, in the sorted order, with its key unescaped |
| WordCounter.SortedEntriesDistinct | src/edu/fudan/JimpleKeyword/util/WordCounter.java:57-78 | when the map's words unescape apart, so do the entries of any permutation of the entry list |
| WordCounter.DistinctKeysCount | src/edu/fudan/JimpleKeyword/util/WordCounter.java:72-80 | a list with distinct keys has as many entries as keys |
| HashMapStatHandler.HashMapStatHandler.constructor | src/edu/fudan/JimpleKeyword/HashMapStatHandler.java:65-70 | the handler starts with an empty list |
| HashMapStatHandler.HashMapStatHandler.CheckStatementUsingHashMap | src/edu/fudan/JimpleKeyword/HashMapStatHandler.java:22-36 | true iff the text contains `HashMap` and also `put(` or `get(`; the copy at src/edu/fudan/JimpleKeyword/KeywordInspector.java:113-127 does the same |
| HashMapStatHandler.HashMapStatHandler.InspectHashMapStatement | src/edu/fudan/JimpleKeyword/HashMapStatHandler.java:44-55 | the text is appended verbatim iff the record switch is on; the list only grows |
| KeywordInspector.ValidKeyOfArg | src/edu/fudan/JimpleKeyword/KeywordInspector.java:769-804 | a failure (the source's `charAt(0)` exception) iff the trimmed argument is empty; null iff it starts with `$` or contains `,`; otherwise the unescaped trimmed argument |
| KeywordInspector.KeywordInspector.ExtractValidKeyArgOfStat | src/edu/fudan/JimpleKeyword/KeywordInspector.java:769-804 | computes that validation on the statement's first argument |
| KeywordInspector.KeyArgOfCases | src/edu/fudan/JimpleKeyword/KeywordInspector.java:751-804 | fails iff the statement is not an invoke, has no argument, or its first argument trims to nothing; a key found is comma-free and is the unescaped trimmed argument |
| KeywordInspector.ValidKeyIsCommaFree | src/edu/fudan/JimpleKeyword/KeywordInspector.java:775-803 | a valid key never contains a comma and is no longer than the trimmed argument |
| KeywordInspector.KeywordInspector.IsSystemPackage | src/edu/fudan/JimpleKeyword/KeywordInspector.java:478-495 | true iff the name starts with `java.`, `dalvik.`, `android.` or `javax.` |
| KeywordInspector.KeywordInspector.InspectPackageName | src/edu/fudan/JimpleKeyword/KeywordInspector.java:502-529 | adds to the library package names exactly the library package this name contributes, and nothing else |
| KeywordInspector.LibPackageShape | src/edu/fudan/JimpleKeyword/KeywordInspector.java:502-529 | nothing is added for an empty or company name; otherwise the first three parts are added: a prefix of the trimmed name with at most two dots, the whole name when it has fewer than three |
| KeywordInspector.FindDataBlockIds | src/edu/fudan/JimpleKeyword/KeywordInspector.java:185-197 | the `intPattern` matcher loop yields the successive `[1-9][0-9]*` matches of the points-to text |
| KeywordInspector.IdsFromAreNumerals | src/edu/fudan/JimpleKeyword/KeywordInspector.java:185-197 | every id found is a numeral with no leading zero and occurs in the text |
| KeywordInspector.NoNonZeroDigitNoIds | src/edu/fudan/JimpleKeyword/KeywordInspector.java:185-197 | a text without a digit 1–9 gives no ids |
| KeywordInspector.KeywordInspector.RecordStatementInDataBlock | src/edu/fudan/JimpleKeyword/KeywordInspector.java:141-209 | one data-block line and one raw stat are appended per receiver object id, in order; the ids answered are those recorded |
| KeywordInspector.KeywordInspector.DataBlockRecords | src/edu/fudan/JimpleKeyword/KeywordInspector.java:185-206 | for each object id in order, exactly one `id,unitNum,class,unit` line and one raw stat holding the unit, the id and the unit's keyword |
| KeywordInspector.BlocksAlignedConcat | src/edu/fudan/JimpleKeyword/KeywordInspector.java:190-205 | recording keeps the statement lines and raw stats aligned one for one, each line starting with its stat's id and a comma |
| KeywordInspector.KeywordInspector.TryTaintHashMap | src/edu/fudan/JimpleKeyword/KeywordInspector.java:236-300 | changes nothing for a non-invoke, an invalid key or a static invoke, and fails only on a failing key; otherwise it adds exactly one seed and puts the key on the base box's tag |
| KeywordInspector.KeywordInspector.SeedKeyTag | src/edu/fudan/JimpleKeyword/KeywordInspector.java:272-287 | a box without a tag gets a fresh one-key tag; a tagged box gets the key appended to the tag it answers; other boxes are unaffected |
| KeywordInspector.SeededAppendsKey | src/edu/fudan/JimpleKeyword/KeywordInspector.java:272-287 | after seeding, the box answers a tag whose keys are the old keys plus the new key, and every other box answers as before |
| KeywordInspector.KeywordInspector.InspectHashMapUse | src/edu/fudan/JimpleKeyword/KeywordInspector.java:327-337 | on a HashMap statement: the text is recorded iff the switch is on, and the statement is seeded iff its key is usable; nothing happens otherwise |
| KeywordInspector.KeywordInspector.RecordHitLine | src/edu/fudan/JimpleKeyword/KeywordInspector.java:370-390 | a hit appends the formatted line and the hit record, and adds the keyword to the set of keywords hit |
| KeywordInspector.KeywordInspector.RecordHitPackage | src/edu/fudan/JimpleKeyword/KeywordInspector.java:392-406 | the package line goes into the package set and into exactly one of the app or library sets, chosen by the company prefix |
| KeywordInspector.PackagesSplitAdd | src/edu/fudan/JimpleKeyword/KeywordInspector.java:396-406 | that addition preserves the invariant: the app and library sets partition the package set by the company prefix |
| KeywordInspector.HitsRecordedAppend | src/edu/fudan/JimpleKeyword/KeywordInspector.java:379-390 | adding a hit preserves the invariant: one line per hit, and the keyword set holds exactly the hits' keywords |
| KeywordInspector.KeywordInspector.RecordHit | src/edu/fudan/JimpleKeyword/KeywordInspector.java:370-413 | all of a hit's bookkeeping, plus the receiver ids added to the data blocks with keywords |
| KeywordInspector.KeywordInspector.RecordIfHit | src/edu/fudan/JimpleKeyword/KeywordInspector.java:353-413 | a hit is recorded only when the status is DEFINITE_HIT or the detail check passes; otherwise nothing changes |
| KeywordInspector.KeywordInspector.RecordKeyValueUse | src/edu/fudan/JimpleKeyword/KeywordInspector.java:346-350 | a key-value invoke records its data-block lines; any other statement records none |
| KeywordInspector.KeywordInspector.InspectKeywordUse | src/edu/fudan/JimpleKeyword/KeywordInspector.java:339-413 | fails iff keyword extraction fails; records data blocks, then the hit exactly when there is one |
| KeywordInspector.KeywordInspector.InspectJimpleStatement | src/edu/fudan/JimpleKeyword/KeywordInspector.java:309-414 | a NOT_INTERESTED statement changes nothing; the failure cases are listed; otherwise, in turn, the HashMap bookkeeping, the data blocks and the hit (only when there is one), each stated field by field |
| KeywordInspector.KeywordInspector.ScanBody | src/edu/fudan/JimpleKeyword/KeywordInspector.java:582-597 | the units of a body are numbered on from the running count (a unit already tagged keeps its tag); on success `jimpleHit` gains exactly one hit per hit statement, in unit order, with its keyword and its unit number, and `keywordsHit` gains exactly their keywords |
| KeywordInspector.KeywordInspector.ScanUnit | src/edu/fudan/JimpleKeyword/KeywordInspector.java:587-596 | one turn of the unit loop: the unit is tagged with the next number and inspected; on success the numbering covers one more unit and exactly that unit's hit and keyword are added |
| KeywordInspector.KeywordInspector.InspectUnit | src/edu/fudan/JimpleKeyword/KeywordInspector.java:596 | one statement inspected: `jimpleHit` gains its hit, under its unit number, exactly when it is a hit statement, and `keywordsHit` gains its keyword; the other outputs keep their invariant |
| KeywordInspector.KeywordInspector.ScanClass | src/edu/fudan/JimpleKeyword/KeywordInspector.java:553-597 | one class (a system class contributes nothing): its library package is collected, its methods' units are numbered on, and exactly their hits and keywords are recorded |
| KeywordInspector.KeywordInspector.ScanClassAt | src/edu/fudan/JimpleKeyword/KeywordInspector.java:553-597 | one turn of the class loop: on success the numbering, library packages, hits and keywords cover one more class |
| KeywordInspector.KeywordInspector.ScanMethods | src/edu/fudan/JimpleKeyword/KeywordInspector.java:574-597 | the methods of a class, in order: their units are numbered on from the running count, and the hits and keywords recorded are exactly those of the hit statements among those units, in order |
| KeywordInspector.KeywordInspector.ScanMethodAt | src/edu/fudan/JimpleKeyword/KeywordInspector.java:576-597 | one turn of the method loop: a method without a body adds nothing, otherwise its units are numbered on, and on success exactly their hits and keywords are added |
| KeywordInspector.KeywordInspector.ScanReachableMethod | src/edu/fudan/JimpleKeyword/KeywordInspector.java:434-470 | one reachable method (skipped when bodiless or in a system package): its units are numbered on, its class's library package is collected, and exactly their hits and keywords are recorded |
| KeywordInspector.KeywordInspector.ScanReachableAt | src/edu/fudan/JimpleKeyword/KeywordInspector.java:435-470 | one turn of the reachable-method loop: on success the numbering, library packages, hits and keywords cover one more reachable method |
| KeywordInspector.KeywordInspector.ScanMethodBody | src/edu/fudan/JimpleKeyword/KeywordInspector.java:449-469 | a reachable method that is scanned: its class's library package is added, its body's units are numbered on, and exactly their hits and keywords are recorded |
| KeywordInspector.KeywordInspector.ScanJimple | src/edu/fudan/JimpleKeyword/KeywordInspector.java:540-600 | on success, statements are numbered 0, 1, 2, … in class, method and unit order, the library packages of all classes are collected, and `jimpleHit`/`keywordsHit` hold exactly the hits and keywords of the hit statements, in scan order |
| KeywordInspector.KeywordInspector.ScanJimpleReachableOnly | src/edu/fudan/JimpleKeyword/KeywordInspector.java:422-472 | the same numbering, package collection and hit recording over the reachable methods only |
| KeywordInspector.KeywordInspector.ScanSelected | src/edu/fudan/JimpleKeyword/KeywordInspector.java:656-663 | the scan the configuration selects: on success, the units of that scan are numbered on, their library packages collected, and exactly their hits and keywords recorded |
| KeywordInspector.NumberedFirstVisit | src/edu/fudan/JimpleKeyword/KeywordInspector.java:590-592 | a unit is numbered iff it was scanned, and its number is its first position in the scan, because `getTag` answers the first tag |
| KeywordInspector.NumberedConsecutive | src/edu/fudan/JimpleKeyword/KeywordInspector.java:548-592 | when no unit is scanned twice, the k-th scanned unit gets number k |
| KeywordInspector.HitsAtFirstVisit | src/edu/fudan/JimpleKeyword/KeywordInspector.java:383-390 | over a fresh numbering, every recorded hit is a hit statement with its keyword, numbered with the position of its first visit, and every visited hit statement has a recorded hit |
| KeywordInspector.ScanHitsExact | src/edu/fudan/JimpleKeyword/KeywordInspector.java:383-390 | under any numbering that covers the scanned units, the recorded hits are exactly the hit statements scanned with their keywords and numbers |
| KeywordInspector.ScanAppend | src/edu/fudan/JimpleKeyword/KeywordInspector.java:540-600 | the hits and keywords recorded over two stretches of units are those of the first stretch followed by those of the second |
| KeywordInspector.NumberedGrows | src/edu/fudan/JimpleKeyword/KeywordInspector.java:590-592 | numbering more units never changes a tag already given |
| KeywordInspector.NumberedCovers | src/edu/fudan/JimpleKeyword/KeywordInspector.java:590-592 | every scanned unit carries a tag |
| KeywordInspector.KeywordInspector.PickOutRawStatInDataBlocksWithKeywords | src/edu/fudan/JimpleKeyword/KeywordInspector.java:608-628 | the raw stats whose block id has keywords, in their original order |
| KeywordInspector.WithIdsCounts | src/edu/fudan/JimpleKeyword/KeywordInspector.java:608-628 | an order-preserving filter: each selected stat occurs exactly as often as before, each other stat not at all |
| KeywordInspector.KeywordInspector.GetDataBlockWithKeywords | src/edu/fudan/JimpleKeyword/KeywordInspector.java:724-744 | as written: each line once for every listed id that is a prefix of it (see Findings) |
| KeywordInspector.AddLinePerMatchingId | src/edu/fudan/JimpleKeyword/KeywordInspector.java:734-740 | the inner loop appends the statement once for each listed id that is a prefix of it |
| KeywordInspector.PrefixIdPicksOtherBlock | src/edu/fudan/JimpleKeyword/KeywordInspector.java:732-741 | as written, block 1's id selects a line of block 12, and a line is kept twice when two listed ids prefix it |
| KeywordInspector.KeywordInspector.GetLinesOfDataBlocksWithKeywords | src/edu/fudan/JimpleKeyword/KeywordInspector.java:724-744 | the intended selection: each line once, kept when its own object id is listed |
| KeywordInspector.LinesOfBlocksMembers | src/edu/fudan/JimpleKeyword/KeywordInspector.java:724-744 | a line is selected iff it is a statement line whose leading id is listed, and no more lines come out than go in |
| KeywordInspector.LinesOfBlocksPicksOwnBlock | src/edu/fudan/JimpleKeyword/KeywordInspector.java:732-741 | the line of a block is picked exactly when that block's id is listed |
| KeywordInspector.LeadingFieldOfLine | src/edu/fudan/JimpleKeyword/KeywordInspector.java:196-197 | the leading field of a data-block line is its object id |
| KeywordInspector.KeywordInspector.GetSimplfiedDataBlocks | src/edu/fudan/JimpleKeyword/KeywordInspector.java:861-887 | the loop computes the set of `id,key` lines of the stats with a valid key; an unusable key fails |
| KeywordInspector.SimplifiedLinesShape | src/edu/fudan/JimpleKeyword/KeywordInspector.java:861-887 | every line is some stat's id, a comma and a comma-free key |
| KeywordInspector.SimplifiedLineSplits | src/edu/fudan/JimpleKeyword/KeywordInspector.java:861-887 | such a line splits back, on its comma, into the id and the key |
| KeywordInspector.SimplifiedFailsWithValidKeys | src/edu/fudan/JimpleKeyword/KeywordInspector.java:815-887 | the simplified blocks fail exactly when the key collection of `getKeywordsInDataBlocks` fails |
| KeywordInspector.SimplifiedPrefixFails | src/edu/fudan/JimpleKeyword/KeywordInspector.java:861-887 | once a stat's key fails, the whole call fails with that error |
| KeywordInspector.ValidKeysPrefixFails | src/edu/fudan/JimpleKeyword/KeywordInspector.java:815-848 | the same for the key collection |
| KeywordInspector.KeywordInspector.CountValidKeys | src/edu/fudan/JimpleKeyword/KeywordInspector.java:815-840 | fails with the first key's error; otherwise the counter holds the count of every valid key |
| KeywordInspector.KeywordInspector.GetKeywordsInDataBlocks | src/edu/fudan/JimpleKeyword/KeywordInspector.java:815-848 | fails iff some key fails, with its error; otherwise the counts are the tally of the valid keys of the picked stats, and the result is their descending list: distinct unescaped keys, each with its key's count, and without collisions every key with its count in non-increasing order |
| KeywordInspector.KeywordInspector.PickOutAndSort | src/edu/fudan/JimpleKeyword/KeywordInspector.java:666-673 | the picked raw stats are stored, and the statement lines are sorted |
| KeywordInspector.SortLinesSorted | src/edu/fudan/JimpleKeyword/KeywordInspector.java:673 | the sorted lines are in `compareTo` order |
| KeywordInspector.SortLinesPerm | src/edu/fudan/JimpleKeyword/KeywordInspector.java:673 | sorting keeps every line as often as it occurred |
| KeywordInspector.InsertLineSorted | src/edu/fudan/JimpleKeyword/KeywordInspector.java:673 | inserting a line into a sorted list keeps it sorted, and its head is the new line or the old head |
| KeywordInspector.InsertLinePerm | src/edu/fudan/JimpleKeyword/KeywordInspector.java:673 | inserting a line adds exactly that line |
| KeywordInspector.SortedFirstIsLeast | src/edu/fudan/JimpleKeyword/KeywordInspector.java:673 | the head of a sorted list is at most every line of it |
| KeywordInspector.CompareAtMostReflexive | src/edu/fudan/JimpleKeyword/KeywordInspector.java:673 | `a.compareTo(a) <= 0` for every line |
| KeywordInspector.SortLinesSortedPerm | src/edu/fudan/JimpleKeyword/KeywordInspector.java:673 | `Collections.sort` by `compareTo` gives a sorted permutation of the lines |
| KeywordInspector.SortedLinesUnique | src/edu/fudan/JimpleKeyword/KeywordInspector.java:673 | any two sorted permutations of the same lines are equal, so the model's sort gives the same list as Java's |
| KeywordInspector.ReorderedLinesOfBlocks | src/edu/fudan/JimpleKeyword/KeywordInspector.java:673 | after sorting, each line still belongs to some recorded raw stat, and there are as many lines as stats |
| KeywordInspector.CompareAtMostTransitive | src/edu/fudan/JimpleKeyword/KeywordInspector.java:673 | the `compareTo` order is transitive |
| KeywordInspector.KeywordInspector.constructor | src/edu/fudan/JimpleKeyword/KeywordInspector.java:630-651 | all output collections start empty, and the detector uses the given keyword list |
| KeywordInspector.NewKeywordInspector | src/edu/fudan/JimpleKeyword/KeywordInspector.java:630-674 | after scanning, the numbering and library packages are those of the scanned units, and the hits and keywords are exactly those of the scanned hit statements under their numbers; the picked raw stats are the filtered ones; the lines are sorted and each belongs to a stat; the package split and hit invariants hold |
| KeyTaintAnalyzer.KeyTaintAnalyzer.HasTaintOnArgs | src/edu/fudan/JimpleKeyword/KeyTaintAnalyzer.java:201-226 | true iff some argument box answers a tag with a non-empty key list |
| KeyTaintAnalyzer.TaintedArgIffMerged | src/edu/fudan/JimpleKeyword/KeyTaintAnalyzer.java:201-251 | some argument is tainted exactly when the merge of the argument tags is non-null |
| KeyTaintAnalyzer.KeyTaintAnalyzer.MergeArgKeyTags | src/edu/fudan/JimpleKeyword/KeyTaintAnalyzer.java:392-415 | null iff the argument tags merge to nothing; otherwise a fresh tag holding the merged keys; box tags are untouched |
| KeyTaintAnalyzer.KeyTaintAnalyzer.ArgContainHttpAddr | src/edu/fudan/JimpleKeyword/KeyTaintAnalyzer.java:365-390 | true iff some argument's unescaped, lower-cased text contains `http://` or `https://` |
| KeyTaintAnalyzer.HttpAddrIgnoresCase | src/edu/fudan/JimpleKeyword/KeyTaintAnalyzer.java:365-390 | the address test ignores case: a lower-cased text passes iff the text does |
| KeyTaintAnalyzer.UnescapeToLower | src/edu/fudan/JimpleKeyword/KeyTaintAnalyzer.java:380-384 | unescaping and lower-casing commute, so their order in the test does not matter |
| KeyTaintAnalyzer.KeyTaintAnalyzer.TryGetSinkPointKeys | src/edu/fudan/JimpleKeyword/KeyTaintAnalyzer.java:425-455 | the printed merged keys for an invoke with an http(s) argument and tainted arguments, null otherwise; no box tag changes |
| KeyTaintAnalyzer.SinkKeysShape | src/edu/fudan/JimpleKeyword/KeyTaintAnalyzer.java:425-455 | a unit is a sink iff it is an invoke with an http(s) argument and a tainted argument; its record reads back, split on commas, as the merged keys |
| KeyTaintAnalyzer.KeyTaintAnalyzer.TryHandleSinks | src/edu/fudan/JimpleKeyword/KeyTaintAnalyzer.java:465-484 | true iff the unit is a sink; then `sinkOutput[unit]` is overwritten with its keys (last write wins), otherwise nothing is recorded |
| KeyTaintAnalyzer.SinkKeysKept | src/edu/fudan/JimpleKeyword/KeyTaintAnalyzer.java:528-534 | the fresh tag that the sink check's merge creates does not change whether the statement is a sink or what it records, so the check's answer holds in the state after it |
| KeyTaintAnalyzer.KeyTaintAnalyzer.AliasTag | src/edu/fudan/JimpleKeyword/KeyTaintAnalyzer.java:66-71 | if the right box has a tag, that same tag object is attached to the left box as well; otherwise no box changes; key lists are untouched |
| KeyTaintAnalyzer.AliasedShares | src/edu/fudan/JimpleKeyword/KeyTaintAnalyzer.java:66-71 | after aliasing, an untagged left box answers the right box's tag, and every other box answers as before |
| KeyTaintAnalyzer.TagsGrownKeepsFirst | src/edu/fudan/JimpleKeyword/KeyTaintAnalyzer.java:66-71 | attaching more tags never changes the tag a tagged box answers |
| KeyTaintAnalyzer.TaintPersists | src/edu/fudan/JimpleKeyword/KeyTaintAnalyzer.java:66-71 | tags and keys only grow, so a box that answers a tag keeps answering one with the same keys |
| KeyTaintAnalyzer.KeyTaintAnalyzer.PropAssignStmt | src/edu/fudan/JimpleKeyword/KeyTaintAnalyzer.java:52-81 | the call inside the assignment is propagated first, with the call effect of propInvokeExpr (callee entered iff the call propagates and is enterable; an instance call tags its receiver with the merged keys); then the left box gets the first tag the right box has after the call; without a call only that aliasing happens and nothing else changes; a call that does not propagate changes no tag, key or sink; tags and keys only grow and the stack is unchanged |
| KeyTaintAnalyzer.KeyTaintAnalyzer.PropInstanceInvoke | src/edu/fudan/JimpleKeyword/KeyTaintAnalyzer.java:86-141 | no arguments, or arguments whose merged keys are empty, change no tag, key or sink; otherwise a fresh tag holding the merged keys is attached to the receiver right after its old tags, and the callee is entered iff steps remain and it is enterable; tags and keys only grow, sinks stay recorded, the stack is unchanged |
| KeyTaintAnalyzer.KeyTaintAnalyzer.PropStaticInvoke | src/edu/fudan/JimpleKeyword/KeyTaintAnalyzer.java:228-253 | with no tainted argument nothing changes; the callee is entered iff some argument is tainted and the callee can be entered |
| KeyTaintAnalyzer.KeyTaintAnalyzer.CallEffectGrown | src/edu/fudan/JimpleKeyword/KeyTaintAnalyzer.java:86-141 | a call effect stays true when tags and keys grow later, so a receiver keeps the merged tag where it was attached |
| KeyTaintAnalyzer.KeyTaintAnalyzer.PropInvokeExpr | src/edu/fudan/JimpleKeyword/KeyTaintAnalyzer.java:261-271 | the callee is entered iff the call propagates (an instance call with merged keys, or a static call with a tainted argument) and the callee is enterable; an instance call that propagates tags its receiver with the merge; a call that does not propagate, and every dynamic invoke, changes nothing |
| KeyTaintAnalyzer.KeyTaintAnalyzer.PropInMethodBody | src/edu/fudan/JimpleKeyword/KeyTaintAnalyzer.java:143-199 | never enters a dummyMain method, a method on the stack or a bodiless method (nor when out of steps); then nothing changes; the stack is the same afterwards |
| KeyTaintAnalyzer.KeyTaintAnalyzer.PropByUnit | src/edu/fudan/JimpleKeyword/KeyTaintAnalyzer.java:273-311 | an assignment has the effect of propAssignStmt (call effect, then aliasing), an invoke statement the call effect of propInvokeExpr; an invoke that does not propagate and any other unit change no tag, key or sink |
| KeyTaintAnalyzer.KeyTaintAnalyzer.DoPropForCallers | src/edu/fudan/JimpleKeyword/KeyTaintAnalyzer.java:324-361 | visits, in order, exactly the callers that are not in dummyMain and whose method is not on the stack; the stack is restored |
| KeyTaintAnalyzer.KeyTaintAnalyzer.PropFromCaller | src/edu/fudan/JimpleKeyword/KeyTaintAnalyzer.java:354-358 | the visit of one caller: its method is pushed, the run starts at the call site, and the stack is the same afterwards; tags and keys only grow, and recorded sinks stay recorded |
| KeyTaintAnalyzer.VisitedCallersFilter | src/edu/fudan/JimpleKeyword/KeyTaintAnalyzer.java:333-360 | a caller is visited iff it is a caller that can be entered; no more are visited than there are callers |
| KeyTaintAnalyzer.KeyTaintAnalyzer.PropAtUnit | src/edu/fudan/JimpleKeyword/KeyTaintAnalyzer.java:510-539 | one worklist step: it ends with a return exactly on a return statement, after visiting exactly the enterable callers of the unit's method, and a non-return visits no caller; a non-return unit ends the traversal exactly when it is a sink under the tags it sees, and then `sinkOutput` holds that sink's printed keys; tags and keys only grow |
| KeyTaintAnalyzer.KeyTaintAnalyzer.PropStep | src/edu/fudan/JimpleKeyword/KeyTaintAnalyzer.java:510-539 | one loop iteration: the head is taken into the processed list and its successors are enqueued at the back, keeping the FIFO invariant; the traversal ends with a return exactly when the taken unit is a return, and otherwise ends exactly when the taken unit is a sink, whose printed keys are then recorded; the tag state after the step is added to the snapshots, and a unit that did not end the run was no sink under it; tags, keys and sinks only grow |
| KeyTaintAnalyzer.KeyTaintAnalyzer.PropFromUnit | src/edu/fudan/JimpleKeyword/KeyTaintAnalyzer.java:495-541 | the units processed start at the given unit and each is a FIFO successor of earlier ones; none before the last is a return, and none before the last was a sink under the tag state its check saw (one snapshot per unit, each grown from the one before); the run stops at a return exactly when the last unit is one, and a non-return last unit stopped it exactly when it is a sink, with its printed keys recorded; draining and the step budget are the other stops; tags and keys only grow |
| KeyTaintAnalyzer.KeyTaintAnalyzer.PropWorklist | src/edu/fudan/JimpleKeyword/KeyTaintAnalyzer.java:502-540 | the while loop: it stops only when a step ends the run, the queue is empty or the budget is spent; the processed units and the queue together are the start unit followed by the successors of each processed unit, in order; the per-step return and sink facts hold for the last unit, and every earlier unit was neither a return nor a sink when it was processed |
| KeyTaintAnalyzer.FifoEnqueue | src/edu/fudan/JimpleKeyword/KeyTaintAnalyzer.java:528-539 | taking the head and enqueueing its successors keeps the FIFO invariant |
| KeyTaintAnalyzer.FifoTake | src/edu/fudan/JimpleKeyword/KeyTaintAnalyzer.java:510-514 | the processed units always extend a prefix of the start unit followed by the successors of those processed |
| KeyTaintAnalyzer.KeyTaintAnalyzer.DoTaintProp | src/edu/fudan/JimpleKeyword/KeyTaintAnalyzer.java:543-559 | the stack holds the seed's method, and the run from the seed statement has every fact of PropFromUnit: the FIFO prefix, no return and no sink before the last unit, the stop reason of the last unit with the sink's printed keys, and the drained and budget stops |
| KeyTaintAnalyzer.KeyTaintAnalyzer.DoTaintPropAll | src/edu/fudan/JimpleKeyword/KeyTaintAnalyzer.java:561-569 | every seed is propagated; tags and keys only grow, and recorded sinks stay recorded |
| KeyTaintAnalyzer.KeyTaintAnalyzer.constructor | src/edu/fudan/JimpleKeyword/KeyTaintAnalyzer.java:571-580 | the analyser keeps the program, the store and the seeds; after propagating every seed at construction, no tag is detached and no key is lost |
| KeyTaintAnalyzer.KeyTaintAnalyzer.GetSinkOutput | src/edu/fudan/JimpleKeyword/KeyTaintAnalyzer.java:587-602 | one line per recorded sink, and the lines are exactly the sinks' formatted records |
| RootCallerInspector.RootCallerInspector.IsChildOfDisplayableClass | src/edu/fudan/JimpleKeyword/RootCallerInspector.java:58-88 | the superclass while-loop computes whether the class or an ancestor is displayable |
| RootCallerInspector.DisplayableOnChain | src/edu/fudan/JimpleKeyword/RootCallerInspector.java:58-88 | true iff some class on the superclass chain has a name containing `android.app.Activity` or `android.app.Fragment` |
| RootCallerInspector.SuperChainLinks | src/edu/fudan/JimpleKeyword/RootCallerInspector.java:62-87 | on an ending chain, the walk starts at the class, follows each superclass link and stops at a class without superclass |
| RootCallerInspector.DisplayableIffOnChain | src/edu/fudan/JimpleKeyword/RootCallerInspector.java:58-88 | within any bound, the loop's answer is whether some class on the walked chain has a display name |
| RootCallerInspector.SomeDisplayNameCons | src/edu/fudan/JimpleKeyword/RootCallerInspector.java:62-87 | a chain has a display name iff its first class does or the rest of the chain does |
| RootCallerInspector.DisplayableBoundFree | src/edu/fudan/JimpleKeyword/RootCallerInspector.java:62-87 | the answer does not depend on the step bound used to show the chain is finite |
| RootCallerInspector.RootCallerInspector.GetActivityIdFromSuperClass | src/edu/fudan/JimpleKeyword/RootCallerInspector.java:95-146 | no superclass, or a non-displayable one, gives `UNDETERMINED`, with the cache unchanged; otherwise the superclass's id with exactly one `S` prefix |
| RootCallerInspector.SuperId | src/edu/fudan/JimpleKeyword/RootCallerInspector.java:125-145 | the id derived from a superclass's id is never empty |
| RootCallerInspector.SuperIdShape | src/edu/fudan/JimpleKeyword/RootCallerInspector.java:125-145 | the `S` prefix is added once: an id already prefixed is kept (never `SS`), `UNDETERMINED` stays, and prefixing twice is prefixing once |
| RootCallerInspector.RootCallerInspector.LayoutIdOfBody | src/edu/fudan/JimpleKeyword/RootCallerInspector.java:213-262 | the first printed argument of the first set-layout invoke of a body |
| RootCallerInspector.LayoutIdIsFirst | src/edu/fudan/JimpleKeyword/RootCallerInspector.java:156-176 | an id is found iff some unit is a set-layout invoke (`setContentView` by name, or `inflate` with `LayoutInflater` in the text); it is the first such unit's argument |
| RootCallerInspector.RootCallerInspector.FindLayoutId | src/edu/fudan/JimpleKeyword/RootCallerInspector.java:207-264 | the first id over the class's methods in order |
| RootCallerInspector.LayoutIdNonEmpty | src/edu/fudan/JimpleKeyword/RootCallerInspector.java:207-264 | a layout id found is never empty, given that the arguments print non-empty |
| RootCallerInspector.RootCallerInspector.GetIdOfActivityClass | src/edu/fudan/JimpleKeyword/RootCallerInspector.java:193-269 | a cached id is returned and nothing changes; otherwise the first layout id of the class's methods; failing that, `UNDETERMINED` when there is no displayable superclass, and the superclass's cached id with one `S` prefix when there is; the id is non-empty, the class's entry caches it, and no entry is dropped |
| RootCallerInspector.RootCallerInspector.InspectRootCallerClass | src/edu/fudan/JimpleKeyword/RootCallerInspector.java:279-297 | a non-displayable class records nothing; a displayable one records its line with the cached id |
| RootCallerInspector.RootCallerInspector.AreCallersFromDummyMain | src/edu/fudan/JimpleKeyword/RootCallerInspector.java:309-333 | `true` iff every caller is a known unit in a class whose name contains `dummyMainClass`; `false` iff a known caller outside it comes before any unknown one; a NullPointerException iff an unknown caller (no method) comes before any caller outside it |
| RootCallerInspector.DummyMainScanOutcomes | src/edu/fudan/JimpleKeyword/RootCallerInspector.java:309-333 | exactly one of the three outcomes holds for any caller list |
| RootCallerInspector.FirstUnknownCaller | src/edu/fudan/JimpleKeyword/RootCallerInspector.java:315-332 | a scan that meets no caller outside dummyMain either passes every caller or stops at an unknown one |
| RootCallerInspector.KnownCallersNeverThrow | src/edu/fudan/JimpleKeyword/RootCallerInspector.java:318-319 | when every call site has a known method, the scan never throws |
| RootCallerInspector.NoCallersIsRoot | src/edu/fudan/JimpleKeyword/RootCallerInspector.java:440-451 | a method without callers is a root |
| RootCallerInspector.RootCallerInspector.RecordRootCallerID | src/edu/fudan/JimpleKeyword/RootCallerInspector.java:370-389 | the signature (keyword, chain head or root, root) is added, and the call reports whether it was new |
| RootCallerInspector.RootCallerInspector.RecordRootCallerMethodInfo | src/edu/fudan/JimpleKeyword/RootCallerInspector.java:335-357 | appends the chain block for the hit |
| RootCallerInspector.ChainBlockLines | src/edu/fudan/JimpleKeyword/RootCallerInspector.java:335-357 | the block is, line by line: `unitNum,keyword`, the root signature, the stack from top to bottom, then a blank line |
| RootCallerInspector.StackLinesAreLines | src/edu/fudan/JimpleKeyword/RootCallerInspector.java:345-352 | the stack loop prints the signatures from the top of the stack down, one per line |
| RootCallerInspector.LinesSplit | src/edu/fudan/JimpleKeyword/RootCallerInspector.java:335-357 | lines each ended by a newline split back, on newlines, into the same lines |
| RootCallerInspector.TopDownOneLine | src/edu/fudan/JimpleKeyword/RootCallerInspector.java:345-352 | each printed stack entry is a single line when the signatures hold no newline |
| RootCallerInspector.SummaryOneLine | src/edu/fudan/JimpleKeyword/RootCallerInspector.java:337-343 | the `unitNum,keyword` summary is a single line when the keyword holds no newline |
| RootCallerInspector.TopDown | src/edu/fudan/JimpleKeyword/RootCallerInspector.java:345-352 | the k-th printed signature is that of the k-th method from the top of the stack |
| RootCallerInspector.RootCallerInspector.InspectRootCallerMethod | src/edu/fudan/JimpleKeyword/RootCallerInspector.java:399-416 | chain info is appended only the first time a signature is seen; root-class inspection runs every time |
| RootCallerInspector.RootCallerInspector.InspectCaller | src/edu/fudan/JimpleKeyword/RootCallerInspector.java:426-481 | a statement without a method changes nothing; an unknown caller met first by the dummyMain scan throws and changes nothing; a root is recorded with the current stack as its chain; a non-root already on the stack changes nothing; the stack is restored unless an exception was thrown; outputs only grow |
| RootCallerInspector.RootCallerInspector.InspectRootCaller | src/edu/fudan/JimpleKeyword/RootCallerInspector.java:483-500 | each hit is inspected from an empty stack; an exception ends the loop and is a NullPointerException; outputs only grow |
| RootCallerInspector.RootCallerInspector.constructor | src/edu/fudan/JimpleKeyword/RootCallerInspector.java:34-45 | the field initialisers: empty cache, empty outputs and an empty stack, with the invariant (finite superclass chains, non-empty cached ids) established |
| RootCallerInspector.NewRootCallerInspector | src/edu/fudan/JimpleKeyword/RootCallerInspector.java:502-509 | the root callers of every hit are inspected; an exception is reported as a NullPointerException failure; on success the inspector keeps the program and the hits and its invariant |
| RootCallerMethodInspector.RootCallerMethodInspector.RefineIntoMap | src/edu/fudan/JimpleKeyword/RootCallerMethodInspector.java:27-54 | the loop builds the refined map `Refined` from the raw stats in order |
| RootCallerMethodInspector.RefinedKeys | src/edu/fudan/JimpleKeyword/RootCallerMethodInspector.java:31-54 | the map has exactly one record per distinct data-block id |
| RootCallerMethodInspector.RefinedKeywords | src/edu/fudan/JimpleKeyword/RootCallerMethodInspector.java:33-48 | a record's keywords are those of all raw stats with its id, null included |
| RootCallerMethodInspector.RefinedFirstMethod | src/edu/fudan/JimpleKeyword/RootCallerMethodInspector.java:44-52 | a record's method is the method of the first raw stat with its id |
| RootCallerMethodInspector.RefinedRecords | src/edu/fudan/JimpleKeyword/RootCallerMethodInspector.java:27-54 | the three facts together |
| RootCallerMethodInspector.ListedRecords | src/edu/fudan/JimpleKeyword/RootCallerMethodInspector.java:58-59 | listing the values in any order of distinct ids gives each record once, with distinct ids |
| RootCallerMethodInspector.RootCallerMethodInspector.RefineDataBlockInfo | src/edu/fudan/JimpleKeyword/RootCallerMethodInspector.java:22-62 | exactly one record per distinct id, the list holds exactly the map's values, and each record's keywords are its id's keywords |
| RootCallerMethodInspector.RootCallerMethodInspector.constructor | src/edu/fudan/JimpleKeyword/RootCallerMethodInspector.java:64-76 | the stored list holds exactly the refined records, one per id |
| RootCallerMethodInspector.RootCallerMethodInspector.GetRootCallerMethodInfo | src/edu/fudan/JimpleKeyword/RootCallerMethodInspector.java:83-86 | always returns the empty string |
| TDroidLink.TDroidLink.GenSensitiveDataInfo | src/edu/fudan/JimpleKeyword/TDroidLink.java:35-65 | the loop adds the entry of every raw stat that has a keyword, and nothing else |
| TDroidLink.SensitiveInfoEntries | src/edu/fudan/JimpleKeyword/TDroidLink.java:35-65 | an entry is in the set iff some raw stat with a keyword produces it |
| TDroidLink.NullKeywordContributesNothing | src/edu/fudan/JimpleKeyword/TDroidLink.java:41-44 | a raw stat with a null keyword adds nothing |
| TDroidLink.InfoLineFields | src/edu/fudan/JimpleKeyword/TDroidLink.java:58-59 | an entry reads back, split on commas, as `1`, the keyword and `class.method` (names without commas) |
| TDroidLink.SensitiveInfoBound | src/edu/fudan/JimpleKeyword/TDroidLink.java:37-64 | duplicates collapse, so there are at most as many entries as raw stats with a keyword |
| TDroidLink.TDroidLink.constructor | src/edu/fudan/JimpleKeyword/TDroidLink.java:67-75 | the constructor leaves exactly the entries of the raw stats |
| TDroidLink.TDroidLink.GetSensitiveDataInfo | src/edu/fudan/JimpleKeyword/TDroidLink.java:77-80 | returns the entry set |

## Left out

- Soot, FlowDroid and `Main.java` plumbing is not modelled: CLI parsing, scene setup, manifest processing and section printing. The program is an input:
  - classes, methods and statements;
  - CFG successors, callers and method-of;
  - each statement's text;
  - the points-to text of each receiver.
- `SootUtil.ensureMethodActiveBody` and the points-to query are foreign calls. A method's body and a receiver's points-to string are given.
- `FileUtil`: list files are given as sequences of lines, and a missing file as `None`.
- `Config`: the switches are explicit parameters or fields. This includes the apk company id (`Main.apkCompanyId`) and `reachableMethodsOnly`.
- `IntTag` (both copies): a statement's number is a map from unit to number, `unitNumTags`.
- `PorterStemmer` is not part of this model. The stemmer is a function parameter, and only the "longer than 4 characters" gate is specified.
- `text/KeywordDetector` uses a `text/WordSplitter` that is not part of this model. The top-level `WordSplitter` stands in for it.
- Debug printing (`Config.DEBUG`) has no modelled behaviour.
- Iteration order of `HashMap`/`HashSet` outputs (`keywordsHit`, the package sets, `sinkOutput`, the refined data blocks, `sensitiveDataInfo`) is not modelled. The model keeps sets and maps, and proves set and multiset facts.
- KeywordInspector.KeywordInspector.GetSimplfiedDataBlocks and RootCallerInspector.RootCallerInspector.InspectRootCallerClass: two outputs are Java `TreeSet`s, which iterate in sorted order: the simplified data blocks and `rootActivityClassInfo`. The model keeps them as `set<string>`, so their sorted iteration order is not stated.
- Java's `toLowerCase`, `Character.isUpperCase` and `Character.isLowerCase` are modelled on ASCII letters only (`JavaString.ToLower`, `JavaString.IsUpper`, `JavaString.IsLower`). Java's `trim` strips characters up to `' '`.
- WordSplitter.WordSplitter.FindOutWordAfterUpperCaseChar, WordSplitter.WordSplitter.FindOutWordAfterLowerCaseChar, WordSplitter.WordSplitter.SplitTrimmedByCase, WordSplitter.WordSplitter.SplitWordsByCaseInto, WordSplitter.WordSplitter.SplitWordsByCase and WordSplitter.WordSplitter.SplitWords: the case split sees only `A`–`Z` as capitals and `a`–`z` as lower-case letters. A non-ASCII letter such as `É` counts as neither, so a word split by Java at such a capital is not split in the model. The lemmas about the case words (WordSplitter.UpperRunStopsBeforeLastCapital, WordSplitter.CapitalizedWordRunsToNextCapital, WordSplitter.WordAfterUpper, WordSplitter.WordAfterLower, WordSplitter.WordAt) carry the same restriction.
- KeywordDetector.KeywordDetector.CanonicalizeStringConst and KeywordDetector.CanonicalForm: the lower-casing, and the lower-case property they state, are about ASCII letters only.
- KeywordInspector.SortLinesSortedPerm, KeywordInspector.KeywordInspector.PickOutAndSort and KeywordInspector.SortedLinesUnique: `compareTo` is modelled as `JavaString.CompareAtMost` over Unicode scalar values. Java compares UTF-16 code units, and the two orders differ for a character above U+FFFF against one in U+E000–U+FFFF.
- 32-bit `int` overflow of the unit counter and the word counts is not modelled, since integers are unbounded.
- KeyTaintAnalyzer.KeyTaintAnalyzer.PropFromUnit: the source's worklist has no visited set and may not terminate on a CFG cycle that reaches neither a return nor a sink. The model threads a step budget (`fuel`) through the mutually recursive propagation methods and stops when it runs out. Termination on such cycles is not claimed.
- KeyTaintAnalyzer.KeyTaintAnalyzer.DoTaintPropAll: the contract states only that tags and keys grow and that sink records persist, not which sinks are reached. Reachability depends on the step budget.
- KeyTaintAnalyzer.KeyTaintAnalyzer.constructor: the contract states that nothing is lost (as DoTaintPropAll), not which sinks are found. The program must be closed, meaning every successor, caller and callee body unit has a known method. `getMethodOf` on an unknown unit would fail in the source.
- RootCallerInspector.NewRootCallerInspector: the contract states the invariant and the failure case but not the recorded outputs, which InspectCaller states hit by hit. The superclass chains must be acyclic within a ghost depth bound, because the source's while-loop would not stop on a cycle. The first argument of `setContentView` is assumed to print non-empty.
- RootCallerInspector.RootCallerInspector.constructor: the same two assumptions as NewRootCallerInspector, which it establishes as the invariant.
- RootCallerInspector.RootCallerInspector.InspectCaller: the contract states the no-method, throwing, root and "already on the stack" cases and that outputs only grow. For a non-root method it does not list each caller's contribution, and after an exception it does not state the partial effects.
- RootCallerInspector.RootCallerInspector.InspectRootCaller: states only that outputs grow and what a failure is, not the per-hit contents.
- KeyTaintAnalyzer.KeyTaintAnalyzer.HasTaintOnArgs: `KeyTaintTag.isEmpty()` is not defined in the modelled sources; it is read as "the tag's key list is empty".
- TDroidLink.TDroidLink.constructor: requires a known method for every raw stat with a keyword, because `getMethodOf(...).getDeclaringClass()` would throw on an unknown statement.
- RootCallerMethodInspector: the commented-out root-caller step of the constructor has no behaviour and is not modelled.
- KeywordInspector.KeywordInspector.ScanJimple: the contract states the unit numbering, the library package names and the hits and keywords recorded. The statement's other outputs are summarized only by the invariant `Valid()`, and each is stated separately by InspectJimpleStatement. These outputs are the HashMap lines, the taint seeds, the data-block lines and raw stats, and the package-keyword and `jimpleWithKeywords` lines. A failing scan states nothing about the partial effects.
- KeywordInspector.KeywordInspector.ScanJimpleReachableOnly: the same gap as ScanJimple.
- KeywordInspector.KeywordInspector.ScanClass: the same gap as ScanJimple.
- KeywordInspector.KeywordInspector.ScanMethods: the same gap as ScanJimple.
- KeywordInspector.KeywordInspector.ScanReachableMethod: the same gap as ScanJimple.
- KeywordInspector.KeywordInspector.ScanMethodBody: the same gap as ScanJimple.
- KeywordInspector.KeywordInspector.ScanBody: the same gap as ScanJimple.
- KeywordInspector.KeywordInspector.ScanSelected: the same gap as ScanJimple.
- KeywordInspector.KeywordInspector.ScanUnit: the same gap as ScanJimple.
- KeywordInspector.KeywordInspector.ScanMethodAt: the same gap as ScanJimple.
- KeywordInspector.KeywordInspector.ScanClassAt: the same gap as ScanJimple.
- KeywordInspector.KeywordInspector.ScanReachableAt: the same gap as ScanJimple.
- KeywordInspector.KeywordInspector.InspectUnit: states the hit it records and the invariant. The other outputs are stated by InspectJimpleStatement, which it calls.
- KeywordInspector.NewKeywordInspector: the same gap as ScanJimple for the outputs other than numbering, packages, hits, data-block selection and sorting.
- The plain getters of `KeywordInspector` (`getJimpleWithKeywords`, `getJimpleHit`, `getKeywordsHit` and the like) and of `RootCallerInspector` are not separate members. Their fields are read directly. `KeyTaintAnalyzer.getSinkOutput` is not a getter and is modelled as `KeyTaintAnalyzer.KeyTaintAnalyzer.GetSinkOutput`.

## Findings

| source | as written | input that shows it | evidently intended | confidence | as-written member | corrected member |
|---|---|---|---|---|---|---|
| src/edu/fudan/JimpleKeyword/KeywordInspector.java:732-741 | a data-block line is kept when `statement.startsWith(id)` for a listed id, once per such id | only block `1` has keywords, and the line `12,0,C,s` of block 12 is selected; with ids `1` and `12` listed, that line is kept twice | keep a line, once, when its own object id (the text before the first comma) is listed | not executed | KeywordInspector.PrefixIdPicksOtherBlock | KeywordInspector.LinesOfBlocksPicksOwnBlock |
