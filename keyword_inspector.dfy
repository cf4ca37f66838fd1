/**
 * KeywordInspector: the scan over the statements of the app. Every statement
 * the selector finds interesting is checked for HashMap use (recorded, and
 * its container tagged with the key), searched for a keyword in its string
 * constants and, when it is a key-value call, recorded under the ids of the
 * data-block objects its receiver may point to. Keyword hits are recorded with
 * their unit number, package and text. After the scan the statements of data
 * blocks with keywords are picked out and summarised.
 */
module KeywordInspector {
  import opened Wrappers
  import opened JavaString
  import opened StringUtil
  import opened Jimple
  import opened SootUtil
  import opened KeyTaintTags
  import KeywordList
  import KeywordDetector
  import JimpleSelector
  import WordCounter
  import HashMapStatHandler

  /** A keyword hit, kept for the root-caller inspection. */
  datatype JimpleHit = JimpleHit(jimple: UnitId, keyword: string, keywordUnitNum: nat)

  /** A key-value statement on a data-block object; keyword is None where the source has null. */
  datatype DataBlockRawStat = DataBlockRawStat(statement: UnitId, dataBlockId: string, keyword: Option<string>)

  /** A container variable tainted with a key, and the statement that tainted it. */
  datatype KeyTaintedVar = KeyTaintedVar(taintSrcStmt: UnitId, varBox: BoxId)

  const FixedSystemPackages: seq<string> := ["java.", "dalvik.", "android.", "javax."]

  const CharAtOutOfBounds := "StringIndexOutOfBoundsException"
  const ArgOutOfBounds := "IndexOutOfBoundsException"
  const ClassCast := "ClassCastException"

  /** isSystemPackage: the name starts with one of the fixed system prefixes. */
  predicate SystemPackage(packageName: string)
  {
    exists j :: 0 <= j < |FixedSystemPackages| && StartsWith(packageName, FixedSystemPackages[j])
  }

  /**
   * extractValidKeyArgOfStat on the printed first argument. charAt(0) is
   * evaluated before the isEmpty test, so an argument that trims to nothing
   * raises instead of being rejected.
   */
  function ValidKeyOfArg(argText: string): (r: Result<Option<string>>)
    ensures r.Failure? <==> Trim(argText) == []
    ensures r == Success(None) <==> Trim(argText) != [] && (Trim(argText)[0] == '$' || Contains(Trim(argText), ","))
    ensures r.Success? && r.value.Some? ==> r.value.value == Unescape(Trim(argText))
  {
    var t := Trim(argText);
    if |t| == 0 then Failure(CharAtOutOfBounds)
    else if t[0] == '$' then Success(None)
    else if Contains(t, ",") then Success(None)
    else Success(Some(Unescape(t)))
  }

  /** A string that does not contain "," holds no comma. */
  lemma NotContainsComma(t: string)
    requires !Contains(t, ",")
    ensures ',' !in t
  {
    forall i | 0 <= i < |t| ensures t[i] != ',' {
      assert !OccursAt(t, ",", i);
      assert t[i..i + 1] == [t[i]];
    }
  }

  /** A valid key holds no comma and is no longer than the trimmed argument. */
  lemma ValidKeyIsCommaFree(argText: string)
    requires ValidKeyOfArg(argText).Success? && ValidKeyOfArg(argText).value.Some?
    ensures ',' !in ValidKeyOfArg(argText).value.value
    ensures |ValidKeyOfArg(argText).value.value| <= |Trim(argText)|
  {
    var t := Trim(argText);
    NotContainsComma(t);
    UnescapeAddsNoChar(t, ',');
    UnescapeShorter(t);
  }

  /** extractValidKeyArgOfStat on a statement: it is cast to an invoke statement and its first argument read. */
  function KeyArgOf(s: Stmt): (r: Result<Option<string>>)
  {
    if !s.InvokeStmt? then Failure(ClassCast)
    else if |s.invoke.args| == 0 then Failure(ArgOutOfBounds)
    else ValidKeyOfArg(s.invoke.args[0].text)
  }

  /** The key of a statement fails exactly for a non-invoke, a call without arguments, or a blank first argument. */
  lemma KeyArgOfCases(s: Stmt)
    ensures KeyArgOf(s).Failure? <==> !s.InvokeStmt? || s.invoke.args == [] || Trim(s.invoke.args[0].text) == []
    ensures KeyArgOf(s).Success? && KeyArgOf(s).value.Some? ==>
      ',' !in KeyArgOf(s).value.value && KeyArgOf(s).value.value == Unescape(Trim(s.invoke.args[0].text))
  {
    if s.InvokeStmt? && s.invoke.args != [] && KeyArgOf(s).Success? && KeyArgOf(s).value.Some? {
      ValidKeyIsCommaFree(s.invoke.args[0].text);
    }
  }

  // Data-block object ids

  predicate IsDigit(c: char) { '0' <= c <= '9' }

  /** A match of the pattern [1-9][0-9]*. */
  predicate IsIdNumeral(id: string)
  {
    |id| > 0 && '1' <= id[0] <= '9' && forall k :: 0 <= k < |id| ==> IsDigit(id[k])
  }

  /** The end of the run of digits that starts at j. */
  function DigitRunEnd(s: string, j: nat): (r: nat)
    requires j <= |s|
    ensures j <= r <= |s|
    ensures forall k :: j <= k < r ==> IsDigit(s[k])
    ensures r < |s| ==> !IsDigit(s[r])
    decreases |s| - j
  {
    if j < |s| && IsDigit(s[j]) then DigitRunEnd(s, j + 1) else j
  }

  /** The successive matches Matcher.find reports for [1-9][0-9]*, searching from position i. */
  function IdsFrom(s: string, i: nat): seq<string>
    requires i <= |s|
    decreases |s| - i
  {
    if i == |s| then []
    else if '1' <= s[i] <= '9' then
      var j := DigitRunEnd(s, i + 1);
      [s[i..j]] + IdsFrom(s, j)
    else IdsFrom(s, i + 1)
  }

  /** The object ids in the printed points-to set. */
  function DataBlockIds(pointsTo: string): seq<string>
  {
    IdsFrom(pointsTo, 0)
  }

  /** Every id found is a numeral of the pattern and occurs in the string. */
  lemma {:induction false} IdsFromAreNumerals(s: string, i: nat)
    requires i <= |s|
    ensures forall k :: 0 <= k < |IdsFrom(s, i)| ==> IsIdNumeral(IdsFrom(s, i)[k]) && Contains(s, IdsFrom(s, i)[k])
    decreases |s| - i
  {
    if i < |s| {
      if '1' <= s[i] <= '9' {
        var j := DigitRunEnd(s, i + 1);
        IdsFromAreNumerals(s, j);
        var id := s[i..j];
        assert forall k :: 0 <= k < |id| ==> id[k] == s[i + k];
        assert IsIdNumeral(id);
        assert OccursAt(s, id, i);
        ContainsAt(s, id, i);
        assert IdsFrom(s, i) == [id] + IdsFrom(s, j);
      } else {
        IdsFromAreNumerals(s, i + 1);
      }
    }
  }

  /** A string without a non-zero digit yields no id. */
  lemma {:induction false} NoNonZeroDigitNoIds(s: string, i: nat)
    requires i <= |s|
    requires forall k :: i <= k < |s| ==> !('1' <= s[k] <= '9')
    ensures IdsFrom(s, i) == []
    decreases |s| - i
  {
    if i < |s| {
      NoNonZeroDigitNoIds(s, i + 1);
    }
  }

  /** The Matcher.find loop over the printed points-to set. */
  method FindDataBlockIds(thisInStr: string) returns (ids: seq<string>)
    ensures ids == DataBlockIds(thisInStr)
  {
    ids := [];
    var i := 0;
    while i < |thisInStr|
      invariant 0 <= i <= |thisInStr|
      invariant ids + IdsFrom(thisInStr, i) == DataBlockIds(thisInStr)
      decreases |thisInStr| - i
    {
      if '1' <= thisInStr[i] <= '9' {
        var j := i + 1;
        while j < |thisInStr| && IsDigit(thisInStr[j])
          invariant i + 1 <= j <= |thisInStr|
          invariant DigitRunEnd(thisInStr, j) == DigitRunEnd(thisInStr, i + 1)
          decreases |thisInStr| - j
        {
          j := j + 1;
        }
        assert (ids + [thisInStr[i..j]]) + IdsFrom(thisInStr, j) == ids + ([thisInStr[i..j]] + IdsFrom(thisInStr, j));
        ids := ids + [thisInStr[i..j]];
        i := j;
      } else {
        i := i + 1;
      }
    }
    assert ids + [] == ids;
  }

  // The recorded lines

  /** A data-block line, "%s,%d,%s,%s": object id, unit number, class name, statement. */
  function DataBlockLine(id: string, unitNum: nat, className: string, text: string): string
  {
    id + "," + NatToString(unitNum) + "," + className + "," + text
  }

  function DataBlockLines(ids: seq<string>, unitNum: nat, className: string, text: string): (r: seq<string>)
    ensures |r| == |ids|
    ensures forall k :: 0 <= k < |ids| ==> r[k] == DataBlockLine(ids[k], unitNum, className, text)
  {
    seq(|ids|, k requires 0 <= k < |ids| => DataBlockLine(ids[k], unitNum, className, text))
  }

  function RawStats(ids: seq<string>, u: UnitId, keyword: Option<string>): (r: seq<DataBlockRawStat>)
    ensures |r| == |ids|
    ensures forall k :: 0 <= k < |ids| ==> r[k] == DataBlockRawStat(u, ids[k], keyword)
  {
    seq(|ids|, k requires 0 <= k < |ids| => DataBlockRawStat(u, ids[k], keyword))
  }

  /** A keyword line, "%d,%s,%s,%s": unit number, keyword, package, statement. */
  function HitLine(unitNum: nat, keyword: string, packageName: string, text: string): string
  {
    NatToString(unitNum) + "," + keyword + "," + packageName + "," + text
  }

  /** The package-keyword pair, package + ',' + keyword. */
  function PackageLine(packageName: string, keyword: string): string
  {
    packageName + [','] + keyword
  }

  function IdSet(ids: Option<seq<string>>): set<string>
  {
    if ids.None? then {} else set k | 0 <= k < |ids.value| :: ids.value[k]
  }

  function RawIds(raws: seq<DataBlockRawStat>): set<string>
  {
    set k | 0 <= k < |raws| :: raws[k].dataBlockId
  }

  /** inspectPackageName: the first three parts of a trimmed, non-empty package outside the app's company. */
  function LibPackage(packageName: string, companyId: string): Option<string>
  {
    var t := Trim(packageName);
    if t == [] || StartsWith(t, companyId) then None
    else match LeadingParts(t, 3)
      case Success(lp) => Some(lp)
      case Failure(_) => None
  }

  /** LibPackage in the steps inspectPackageName takes on the trimmed name. */
  lemma LibPackageOfTrimmed(packageName: string, companyId: string, name: string)
    requires name == Trim(packageName)
    ensures LeadingParts(name, 3).Success?
    ensures LibPackage(packageName, companyId)
      == if |name| == 0 || StartsWith(name, companyId) then None else Some(LeadingParts(name, 3).value)
  {
  }

  /** A recorded library package is a prefix of the trimmed name with at most two dots; short names come back whole. */
  lemma LibPackageShape(packageName: string, companyId: string)
    ensures LibPackage(packageName, companyId).None? <==> Trim(packageName) == [] || StartsWith(Trim(packageName), companyId)
    ensures LibPackage(packageName, companyId).Some? ==>
      StartsWith(Trim(packageName), LibPackage(packageName, companyId).value)
      && Occurrences(LibPackage(packageName, companyId).value, '.') <= 2
    ensures LibPackage(packageName, companyId).Some? && Occurrences(Trim(packageName), '.') < 3 ==>
      LibPackage(packageName, companyId).value == Trim(packageName)
  {
    var t := Trim(packageName);
    LeadingPartsIsPrefix(t, 3);
    if Occurrences(t, '.') < 3 {
      LeadingPartsOfShortName(t, 3);
    } else {
      LeadingPartsOfLongName(t, 3);
    }
  }

  function PackageSet(lp: Option<string>): set<string>
  {
    if lp.None? then {} else {lp.value}
  }

  // What the scans visit

  /** The units of the methods with a body, in method order. */
  function MethodsUnits(p: Program, ms: seq<MethodId>): seq<UnitId>
  {
    if ms == [] then [] else MethodsUnits(p, ms[..|ms| - 1]) + p.BodyOf(ms[|ms| - 1])
  }

  /** The units scanJimple visits in one class: none in a system package. */
  function ClassUnits(p: Program, c: Class): seq<UnitId>
  {
    if SystemPackage(c.packageName) then [] else MethodsUnits(p, c.methods)
  }

  /** The library package scanJimple records for one class. */
  function ClassPackages(c: Class, companyId: string): set<string>
  {
    if SystemPackage(c.packageName) then {} else PackageSet(LibPackage(c.packageName, companyId))
  }

  /** The units scanJimple visits: the classes outside the system packages, in scene order. */
  function ClassesUnits(p: Program, cs: seq<ClassId>): seq<UnitId>
  {
    if cs == [] then [] else ClassesUnits(p, cs[..|cs| - 1]) + ClassUnits(p, p.ClassAt(cs[|cs| - 1]))
  }

  /** The library packages scanJimple records. */
  function ClassesPackages(p: Program, cs: seq<ClassId>, companyId: string): set<string>
  {
    if cs == [] then {} else ClassesPackages(p, cs[..|cs| - 1], companyId) + ClassPackages(p.ClassAt(cs[|cs| - 1]), companyId)
  }

  /** scanJimpleReachableOnly skips a method without body before it looks at the package. */
  predicate ReachableSkipped(p: Program, m: MethodId)
  {
    p.MethodAt(m).body.None? || SystemPackage(p.ClassAt(p.MethodAt(m).declaringClass).packageName)
  }

  /** The units scanJimpleReachableOnly visits in one method. */
  function ReachableMethodUnits(p: Program, m: MethodId): seq<UnitId>
  {
    if ReachableSkipped(p, m) then [] else p.BodyOf(m)
  }

  /** The library package scanJimpleReachableOnly records for one method. */
  function ReachableMethodPackages(p: Program, m: MethodId, companyId: string): set<string>
  {
    if ReachableSkipped(p, m) then {} else PackageSet(LibPackage(p.ClassAt(p.MethodAt(m).declaringClass).packageName, companyId))
  }

  /** The units scanJimpleReachableOnly visits. */
  function ReachableUnits(p: Program, ms: seq<MethodId>): seq<UnitId>
  {
    if ms == [] then [] else ReachableUnits(p, ms[..|ms| - 1]) + ReachableMethodUnits(p, ms[|ms| - 1])
  }

  /** The library packages scanJimpleReachableOnly records. */
  function ReachablePackages(p: Program, ms: seq<MethodId>, companyId: string): set<string>
  {
    if ms == [] then {}
    else ReachablePackages(p, ms[..|ms| - 1], companyId) + ReachableMethodPackages(p, ms[|ms| - 1], companyId)
  }

  /** One more class in scene order: its units and package come last. */
  lemma ClassesStep(p: Program, cs: seq<ClassId>, i: nat, companyId: string)
    requires i < |cs|
    ensures ClassesUnits(p, cs[..i + 1]) == ClassesUnits(p, cs[..i]) + ClassUnits(p, p.ClassAt(cs[i]))
    ensures ClassesPackages(p, cs[..i + 1], companyId) == ClassesPackages(p, cs[..i], companyId) + ClassPackages(p.ClassAt(cs[i]), companyId)
  {
    assert cs[..i + 1][..i] == cs[..i];
  }

  /** One more reachable method: its units and package come last. */
  lemma ReachableStep(p: Program, ms: seq<MethodId>, i: nat, companyId: string)
    requires i < |ms|
    ensures ReachableUnits(p, ms[..i + 1]) == ReachableUnits(p, ms[..i]) + ReachableMethodUnits(p, ms[i])
    ensures ReachablePackages(p, ms[..i + 1], companyId) == ReachablePackages(p, ms[..i], companyId) + ReachableMethodPackages(p, ms[i], companyId)
  {
    assert ms[..i + 1][..i] == ms[..i];
  }

  /**
   * The unitNum tags after visiting us in order with a counter from 0: the
   * k-th visit adds the tag k, and getTag answers the first tag a unit got.
   */
  function Numbered(tags: map<UnitId, nat>, us: seq<UnitId>): map<UnitId, nat>
  {
    if us == [] then tags
    else
      var m := Numbered(tags, us[..|us| - 1]);
      var u := us[|us| - 1];
      if u in m then m else m[u := |us| - 1]
  }

  /** Position n is the first visit of u. */
  predicate FirstVisitAt(us: seq<UnitId>, n: nat, u: UnitId)
  {
    n < |us| && us[n] == u && forall j :: 0 <= j < n ==> us[j] != u
  }

  /** Starting untagged, exactly the visited units are tagged, each with the position of its first visit. */
  lemma {:induction false} NumberedFirstVisit(us: seq<UnitId>)
    ensures forall u :: u in Numbered(map[], us) <==> u in us
    ensures forall u :: u in Numbered(map[], us) ==> FirstVisitAt(us, Numbered(map[], us)[u], u)
  {
    if us != [] {
      var init := us[..|us| - 1];
      var last := us[|us| - 1];
      NumberedFirstVisit(init);
      var m := Numbered(map[], init);
      assert us == init + [last];
      forall u | u in m ensures FirstVisitAt(us, m[u], u) {
        assert FirstVisitAt(init, m[u], u);
      }
      if last !in m {
        assert FirstVisitAt(us, |init|, last);
      }
    }
  }

  /** With every unit in one body only, the numbers are 0, 1, 2, ... in visiting order. */
  lemma NumberedConsecutive(us: seq<UnitId>)
    requires forall i, j :: 0 <= i < j < |us| ==> us[i] != us[j]
    ensures forall k :: 0 <= k < |us| ==> us[k] in Numbered(map[], us) && Numbered(map[], us)[us[k]] == k
  {
    NumberedFirstVisit(us);
    forall k | 0 <= k < |us| ensures us[k] in Numbered(map[], us) && Numbered(map[], us)[us[k]] == k {
      assert us[k] in us;
      var n := Numbered(map[], us)[us[k]];
      assert FirstVisitAt(us, n, us[k]);
    }
  }

  /** Later visits keep every tag already given. */
  lemma {:induction false} NumberedGrows(tags: map<UnitId, nat>, a: seq<UnitId>, b: seq<UnitId>)
    ensures forall u :: u in Numbered(tags, a) ==> u in Numbered(tags, a + b) && Numbered(tags, a + b)[u] == Numbered(tags, a)[u]
  {
    if b == [] {
      assert a + b == a;
    } else {
      NumberedGrows(tags, a, b[..|b| - 1]);
      var ab := a + b;
      assert ab[..|ab| - 1] == a + b[..|b| - 1];
      var m := Numbered(tags, a + b[..|b| - 1]);
      assert Numbered(tags, ab) == if ab[|ab| - 1] in m then m else m[ab[|ab| - 1] := |ab| - 1];
    }
  }

  /** Every visited unit is tagged. */
  lemma {:induction false} NumberedCovers(tags: map<UnitId, nat>, us: seq<UnitId>)
    ensures forall k :: 0 <= k < |us| ==> us[k] in Numbered(tags, us)
  {
    if us != [] {
      var init := us[..|us| - 1];
      NumberedCovers(tags, init);
      NumberedGrows(tags, init, [us[|us| - 1]]);
      assert init + [us[|us| - 1]] == us;
      forall k | 0 <= k < |us| ensures us[k] in Numbered(tags, us) {
        if k < |init| {
          assert us[k] == init[k];
        }
      }
    }
  }

  // The hits a scan records

  /** The hit a scanned unit adds to jimpleHit: the keyword hk gives it, under its unitNum tag. */
  function UnitHits(hk: UnitId -> Option<string>, uid: UnitId, tags: map<UnitId, nat>): seq<JimpleHit>
  {
    if hk(uid).Some? && uid in tags then [JimpleHit(uid, hk(uid).value, tags[uid])] else []
  }

  /** The keyword a scanned unit adds to keywordsHit. */
  function UnitKeywords(hk: UnitId -> Option<string>, uid: UnitId): set<string>
  {
    if hk(uid).Some? then {hk(uid).value} else {}
  }

  /** The hits a scan over us records, in visiting order. */
  function ScanHits(hk: UnitId -> Option<string>, us: seq<UnitId>, tags: map<UnitId, nat>): seq<JimpleHit>
  {
    if us == [] then [] else ScanHits(hk, us[..|us| - 1], tags) + UnitHits(hk, us[|us| - 1], tags)
  }

  /** The keywords a scan over us adds to keywordsHit. */
  function ScanKeywords(hk: UnitId -> Option<string>, us: seq<UnitId>): set<string>
  {
    if us == [] then {} else ScanKeywords(hk, us[..|us| - 1]) + UnitKeywords(hk, us[|us| - 1])
  }

  /** h is the hit of one of the hit statements in us, carrying that statement's keyword and tag. */
  predicate HitOfScan(hk: UnitId -> Option<string>, us: seq<UnitId>, tags: map<UnitId, nat>, h: JimpleHit)
  {
    h.jimple in us && hk(h.jimple) == Some(h.keyword) && h.jimple in tags && h.keywordUnitNum == tags[h.jimple]
  }

  lemma {:induction false} ScanAppend(hk: UnitId -> Option<string>, a: seq<UnitId>, b: seq<UnitId>, tags: map<UnitId, nat>)
    ensures ScanHits(hk, a + b, tags) == ScanHits(hk, a, tags) + ScanHits(hk, b, tags)
    ensures ScanKeywords(hk, a + b) == ScanKeywords(hk, a) + ScanKeywords(hk, b)
  {
    if b == [] {
      assert a + b == a;
    } else {
      var init := b[..|b| - 1];
      ScanAppend(hk, a, init, tags);
      assert (a + b)[..|a + b| - 1] == a + init;
      assert (a + b)[|a + b| - 1] == b[|b| - 1];
    }
  }

  lemma {:induction false} ScanHitsStable(hk: UnitId -> Option<string>, us: seq<UnitId>, m: map<UnitId, nat>, m2: map<UnitId, nat>)
    requires forall k :: 0 <= k < |us| ==> us[k] in m
    requires forall u :: u in m ==> u in m2 && m2[u] == m[u]
    ensures ScanHits(hk, us, m2) == ScanHits(hk, us, m)
  {
    if us != [] {
      ScanHitsStable(hk, us[..|us| - 1], m, m2);
    }
  }

  /**
   * Scanning b after before + a keeps the hits of a, whose tags later visits
   * do not change; h0 and k0 are what was recorded before a.
   */
  lemma ScanHitsThrough(hk: UnitId -> Option<string>, tags0: map<UnitId, nat>, before: seq<UnitId>, a: seq<UnitId>, b: seq<UnitId>,
                        h0: seq<JimpleHit>, k0: set<string>)
    ensures h0 + ScanHits(hk, a, Numbered(tags0, before + a)) + ScanHits(hk, b, Numbered(tags0, before + a + b))
            == h0 + ScanHits(hk, a + b, Numbered(tags0, before + a + b))
    ensures k0 + ScanKeywords(hk, a) + ScanKeywords(hk, b) == k0 + ScanKeywords(hk, a + b)
  {
    var m := Numbered(tags0, before + a);
    var m2 := Numbered(tags0, before + a + b);
    NumberedCovers(tags0, before + a);
    forall k | 0 <= k < |a| ensures a[k] in m {
      assert a[k] == (before + a)[|before| + k];
    }
    NumberedGrows(tags0, before + a, b);
    ScanHitsStable(hk, a, m, m2);
    ScanAppend(hk, a, b, m2);
    assert h0 + ScanHits(hk, a, m) + ScanHits(hk, b, m2) == h0 + (ScanHits(hk, a, m) + ScanHits(hk, b, m2));
  }

  /** One more unit of a body: its hit comes last. */
  lemma ScanHitsUnitStep(hk: UnitId -> Option<string>, tags0: map<UnitId, nat>, done: seq<UnitId>, units: seq<UnitId>, i: nat,
                         h0: seq<JimpleHit>, k0: set<string>)
    requires i < |units|
    ensures h0 + ScanHits(hk, units[..i], Numbered(tags0, done + units[..i])) + UnitHits(hk, units[i], Numbered(tags0, done + units[..i + 1]))
            == h0 + ScanHits(hk, units[..i + 1], Numbered(tags0, done + units[..i + 1]))
    ensures k0 + ScanKeywords(hk, units[..i]) + UnitKeywords(hk, units[i]) == k0 + ScanKeywords(hk, units[..i + 1])
  {
    assert units[..i] + [units[i]] == units[..i + 1];
    assert done + units[..i] + [units[i]] == done + units[..i + 1];
    assert [units[i]][..0] == [];
    ScanHitsThrough(hk, tags0, done, units[..i], [units[i]], h0, k0);
  }

  /**
   * The hits of a scan are exactly its hit statements: every recorded hit
   * is one of them with its keyword and tag, and every one of them is
   * recorded.
   */
  lemma {:induction false} ScanHitsExact(hk: UnitId -> Option<string>, us: seq<UnitId>, tags: map<UnitId, nat>)
    requires forall k :: 0 <= k < |us| ==> us[k] in tags
    ensures forall h :: h in ScanHits(hk, us, tags) ==> HitOfScan(hk, us, tags, h)
    ensures forall k :: 0 <= k < |us| && hk(us[k]).Some? ==>
      JimpleHit(us[k], hk(us[k]).value, tags[us[k]]) in ScanHits(hk, us, tags)
  {
    if us != [] {
      var init := us[..|us| - 1];
      var last := us[|us| - 1];
      ScanHitsExact(hk, init, tags);
      assert us == init + [last];
      forall h | h in ScanHits(hk, us, tags) ensures HitOfScan(hk, us, tags, h) {
        if h in ScanHits(hk, init, tags) {
          assert HitOfScan(hk, init, tags, h);
        }
      }
      forall k | 0 <= k < |us| && hk(us[k]).Some?
        ensures JimpleHit(us[k], hk(us[k]).value, tags[us[k]]) in ScanHits(hk, us, tags)
      {
        if k < |init| {
          assert us[k] == init[k];
        }
      }
    }
  }

  /**
   * A whole scan from no tags: each hit is a hit statement with its keyword,
   * tagged with the position of its first visit, and every hit statement
   * visited is recorded.
   */
  lemma HitsAtFirstVisit(hk: UnitId -> Option<string>, us: seq<UnitId>)
    ensures forall h :: h in ScanHits(hk, us, Numbered(map[], us)) ==>
      hk(h.jimple) == Some(h.keyword) && FirstVisitAt(us, h.keywordUnitNum, h.jimple)
    ensures forall k :: 0 <= k < |us| && hk(us[k]).Some? ==>
      exists h :: h in ScanHits(hk, us, Numbered(map[], us)) && h.jimple == us[k]
  {
    var tags := Numbered(map[], us);
    NumberedFirstVisit(us);
    NumberedCovers(map[], us);
    ScanHitsExact(hk, us, tags);
    forall h | h in ScanHits(hk, us, tags)
      ensures hk(h.jimple) == Some(h.keyword) && FirstVisitAt(us, h.keywordUnitNum, h.jimple)
    {
      assert HitOfScan(hk, us, tags, h);
    }
    forall k | 0 <= k < |us| && hk(us[k]).Some?
      ensures exists h :: h in ScanHits(hk, us, tags) && h.jimple == us[k]
    {
      var h := JimpleHit(us[k], hk(us[k]).value, tags[us[k]]);
      assert h in ScanHits(hk, us, tags);
    }
  }

  // After the scan

  /** pickOutRawStatInDataBlocksWithKeywords: the raw statements whose block id is one of ids, in order. */
  function WithIds(raws: seq<DataBlockRawStat>, ids: set<string>): seq<DataBlockRawStat>
  {
    if raws == [] then []
    else
      var last := raws[|raws| - 1];
      WithIds(raws[..|raws| - 1], ids) + (if last.dataBlockId in ids then [last] else [])
  }

  /** Each raw statement with a listed id keeps its number of occurrences; the others are dropped. */
  lemma {:induction false} WithIdsCounts(raws: seq<DataBlockRawStat>, ids: set<string>)
    ensures forall x :: multiset(WithIds(raws, ids))[x] == if x.dataBlockId in ids then multiset(raws)[x] else 0
    ensures |WithIds(raws, ids)| <= |raws|
  {
    if raws != [] {
      var init := raws[..|raws| - 1];
      var last := raws[|raws| - 1];
      WithIdsCounts(init, ids);
      assert raws == init + [last];
      assert multiset(raws) == multiset(init) + multiset{last};
      if last.dataBlockId in ids {
        assert WithIds(raws, ids) == WithIds(init, ids) + [last];
        assert multiset(WithIds(raws, ids)) == multiset(WithIds(init, ids)) + multiset{last};
      } else {
        assert WithIds(raws, ids) == WithIds(init, ids) + [];
      }
    }
  }

  /** The statements a statement line is repeated for: the ids it starts with. */
  function MatchingIds(statement: string, ids: set<string>): set<string>
  {
    set id | id in ids && StartsWith(statement, id)
  }

  function Repeat(x: string, n: nat): (r: seq<string>)
    ensures |r| == n && forall k :: 0 <= k < n ==> r[k] == x
  {
    if n == 0 then [] else Repeat(x, n - 1) + [x]
  }

  /** getDataBlockWithKeywords as written: each line once for every listed id that is a prefix of it. */
  function LinesStartingWithIds(statements: seq<string>, ids: set<string>): seq<string>
  {
    if statements == [] then []
    else
      var last := statements[|statements| - 1];
      LinesStartingWithIds(statements[..|statements| - 1], ids) + Repeat(last, |MatchingIds(last, ids)|)
  }

  /** One more id, not seen before, adds one matching id exactly when the statement starts with it. */
  lemma MatchingIdsAdd(statement: string, seen: set<string>, id: string)
    requires id !in seen
    ensures |MatchingIds(statement, seen + {id})| == |MatchingIds(statement, seen)| + (if StartsWith(statement, id) then 1 else 0)
  {
    if StartsWith(statement, id) {
      assert MatchingIds(statement, seen + {id}) == MatchingIds(statement, seen) + {id};
    } else {
      assert MatchingIds(statement, seen + {id}) == MatchingIds(statement, seen);
    }
  }

  /** The inner loop of getDataBlockWithKeywords: the statement is added once for each listed id it starts with. */
  method AddLinePerMatchingId(lines0: seq<string>, statement: string, ids: set<string>) returns (lines: seq<string>)
    ensures lines == lines0 + Repeat(statement, |MatchingIds(statement, ids)|)
  {
    lines := lines0;
    var remaining := ids;
    ghost var seen: set<string> := {};
    while remaining != {}
      invariant seen + remaining == ids && seen !! remaining
      invariant lines == lines0 + Repeat(statement, |MatchingIds(statement, seen)|)
      decreases remaining
    {
      var id :| id in remaining;
      MatchingIdsAdd(statement, seen, id);
      if StartsWith(statement, id) {
        lines := lines + [statement];
      }
      remaining := remaining - {id};
      seen := seen + {id};
    }
  }

  /** The object-id field of a data-block line: the text before its first comma. */
  function LeadingField(line: string): string
  {
    var i := IndexOfChar(line, ',', 0);
    if i < 0 then line else line[..i]
  }

  /** The evidently intended selection: the lines whose own object id is listed, each once, in order. */
  function LinesOfBlocks(statements: seq<string>, ids: set<string>): seq<string>
  {
    if statements == [] then []
    else
      var last := statements[|statements| - 1];
      LinesOfBlocks(statements[..|statements| - 1], ids) + (if LeadingField(last) in ids then [last] else [])
  }

  /** A data-block line's leading field is its object id. */
  lemma LeadingFieldOfLine(id: string, unitNum: nat, className: string, text: string)
    requires ',' !in id
    ensures LeadingField(DataBlockLine(id, unitNum, className, text)) == id
  {
    var line := DataBlockLine(id, unitNum, className, text);
    assert line[|id|] == ',';
    assert forall j :: 0 <= j < |id| ==> line[j] == id[j];
    IndexOfCharFinds(line, ',', 0, |id|);
  }

  /** With the intended selection a line is picked exactly when its block is listed. */
  lemma LinesOfBlocksPicksOwnBlock(id: string, unitNum: nat, className: string, text: string, ids: set<string>)
    requires IsIdNumeral(id)
    ensures LinesOfBlocks([DataBlockLine(id, unitNum, className, text)], ids)
      == if id in ids then [DataBlockLine(id, unitNum, className, text)] else []
  {
    assert ',' !in id by {
      forall k | 0 <= k < |id| ensures id[k] != ',' {
        assert IsDigit(id[k]);
      }
    }
    LeadingFieldOfLine(id, unitNum, className, text);
    var one := [DataBlockLine(id, unitNum, className, text)];
    assert one[..0] == [];
  }

  /** The intended selection keeps exactly the listed blocks' lines, never more lines than there are. */
  lemma {:induction false} LinesOfBlocksMembers(statements: seq<string>, ids: set<string>)
    ensures forall line :: line in LinesOfBlocks(statements, ids) <==> line in statements && LeadingField(line) in ids
    ensures |LinesOfBlocks(statements, ids)| <= |statements|
  {
    if statements != [] {
      var init := statements[..|statements| - 1];
      var last := statements[|statements| - 1];
      LinesOfBlocksMembers(init, ids);
      assert statements == init + [last];
      assert LinesOfBlocks(statements, ids) == LinesOfBlocks(init, ids) + (if LeadingField(last) in ids then [last] else []);
    }
  }

  /** As written, a line of block 12 is picked (and once per matching id) when only block 1 has keywords. */
  lemma PrefixIdPicksOtherBlock()
    ensures LinesStartingWithIds([DataBlockLine("12", 0, "C", "s")], {"1"}) == [DataBlockLine("12", 0, "C", "s")]
    ensures LinesOfBlocks([DataBlockLine("12", 0, "C", "s")], {"1"}) == []
    ensures |LinesStartingWithIds([DataBlockLine("12", 0, "C", "s")], {"1", "12"})| == 2
  {
    var line := DataBlockLine("12", 0, "C", "s");
    var one := [line];
    assert one[..0] == [];
    assert StartsWith(line, "1") && StartsWith(line, "12");
    assert MatchingIds(line, {"1"}) == {"1"};
    assert MatchingIds(line, {"1", "12"}) == {"1", "12"};
    LinesOfBlocksPicksOwnBlock("12", 0, "C", "s", {"1"});
  }

  /** getSimplfiedDataBlocks: id + ',' + key for every raw statement with a valid key; a failing key raises. */
  function SimplifiedDataBlocks(p: Program, raws: seq<DataBlockRawStat>): Result<set<string>>
  {
    if raws == [] then Success({})
    else
      var last := raws[|raws| - 1];
      match SimplifiedDataBlocks(p, raws[..|raws| - 1])
      case Failure(e) => Failure(e)
      case Success(acc) =>
        match KeyArgOf(p.StmtOf(last.statement))
        case Failure(e) => Failure(e)
        case Success(None) => Success(acc)
        case Success(Some(k)) => Success(acc + {last.dataBlockId + [','] + k})
  }

  lemma SimplifiedStep(p: Program, raws: seq<DataBlockRawStat>, i: nat, acc: set<string>)
    requires i < |raws| && SimplifiedDataBlocks(p, raws[..i]) == Success(acc)
    ensures var k := KeyArgOf(p.StmtOf(raws[i].statement));
      && (k.Failure? ==> SimplifiedDataBlocks(p, raws[..i + 1]) == Failure(k.error))
      && (k == Success(None) ==> SimplifiedDataBlocks(p, raws[..i + 1]) == Success(acc))
      && (k.Success? && k.value.Some? ==>
            SimplifiedDataBlocks(p, raws[..i + 1]) == Success(acc + {raws[i].dataBlockId + [','] + k.value.value}))
  {
    var pre := raws[..i + 1];
    assert pre[..|pre| - 1] == raws[..i] && pre[|pre| - 1] == raws[i];
    var k := KeyArgOf(p.StmtOf(raws[i].statement));
    assert SimplifiedDataBlocks(p, pre) ==
      match k
      case Failure(e) => Failure(e)
      case Success(None) => Success(acc)
      case Success(Some(key)) => Success(acc + {raws[i].dataBlockId + [','] + key});
  }

  /** A simplified line splits on commas back into the object id and the key. */
  lemma SimplifiedLineSplits(id: string, key: string)
    requires IsIdNumeral(id) && ',' !in key
    ensures SplitAll(id + [','] + key, ',') == [id, key]
  {
    var s := id + [','] + key;
    assert forall k :: 0 <= k < |id| ==> s[k] == id[k] && IsDigit(id[k]);
    SplitAllAtFirst(s, ',', |id|);
    assert s[..|id|] == id && s[|id| + 1..] == key;
    assert IndexOfChar(key, ',', 0) == -1;
  }

  /** The valid keys of the raw statements, in order; a failing key raises. */
  function ValidKeys(p: Program, raws: seq<DataBlockRawStat>): Result<seq<string>>
  {
    if raws == [] then Success([])
    else
      var last := raws[|raws| - 1];
      match ValidKeys(p, raws[..|raws| - 1])
      case Failure(e) => Failure(e)
      case Success(acc) =>
        match KeyArgOf(p.StmtOf(last.statement))
        case Failure(e) => Failure(e)
        case Success(None) => Success(acc)
        case Success(Some(k)) => Success(acc + [k])
  }

  /** The summary and the counted keys fail together. */
  lemma {:induction false} SimplifiedFailsWithValidKeys(p: Program, raws: seq<DataBlockRawStat>)
    ensures SimplifiedDataBlocks(p, raws).Failure? <==> ValidKeys(p, raws).Failure?
  {
    if raws != [] {
      SimplifiedFailsWithValidKeys(p, raws[..|raws| - 1]);
    }
  }

  /** Every summary line is a listed raw statement's id, a comma and a comma-free key. */
  lemma {:induction false} SimplifiedLinesShape(p: Program, raws: seq<DataBlockRawStat>)
    requires SimplifiedDataBlocks(p, raws).Success?
    ensures forall line :: line in SimplifiedDataBlocks(p, raws).value ==>
      exists i, key :: 0 <= i < |raws| && ',' !in key && line == raws[i].dataBlockId + [','] + key
  {
    if raws != [] {
      var init := raws[..|raws| - 1];
      var last := raws[|raws| - 1];
      SimplifiedLinesShape(p, init);
      var acc := SimplifiedDataBlocks(p, init).value;
      forall line | line in acc
        ensures exists i, key :: 0 <= i < |raws| && ',' !in key && line == raws[i].dataBlockId + [','] + key
      {
        var i, key :| 0 <= i < |init| && ',' !in key && line == init[i].dataBlockId + [','] + key;
        assert raws[i] == init[i];
      }
      var s := p.StmtOf(last.statement);
      KeyArgOfCases(s);
      match KeyArgOf(s)
      case Success(Some(k)) =>
        assert raws[|raws| - 1] == last;
        assert SimplifiedDataBlocks(p, raws).value == acc + {last.dataBlockId + [','] + k};
      case Success(None) =>
      case Failure(_) =>
    }
  }

  /**
   * The tag change tryTaintHashMap makes on box b: a box with a tag gets the
   * key appended to that tag; a box without one gets a fresh tag holding only
   * the key.
   */
  predicate SeededBy(oldTags: map<BoxId, seq<TagId>>, oldKeys: map<TagId, seq<string>>,
                     newTags: map<BoxId, seq<TagId>>, newKeys: map<TagId, seq<string>>, b: BoxId, key: string)
  {
    match FirstTagOf(oldTags, b)
    case Some(t) => t in oldKeys && newTags == oldTags && newKeys == oldKeys[t := oldKeys[t] + [key]]
    case None =>
      b in newTags && |newTags[b]| == 1 && newTags[b][0] !in oldKeys
      && newTags == oldTags[b := newTags[b]] && newKeys == oldKeys[newTags[b][0] := [key]]
  }

  /** Either way, the box's first tag ends up with the key appended to what it held, and other boxes keep their first tag. */
  lemma SeededAppendsKey(oldTags: map<BoxId, seq<TagId>>, oldKeys: map<TagId, seq<string>>,
                         newTags: map<BoxId, seq<TagId>>, newKeys: map<TagId, seq<string>>, b: BoxId, key: string)
    requires SeededBy(oldTags, oldKeys, newTags, newKeys, b, key)
    ensures FirstTagOf(newTags, b).Some?
    ensures KeysOf(newKeys, FirstTagOf(newTags, b)) == KeysOf(oldKeys, FirstTagOf(oldTags, b)) + [key]
    ensures forall x :: x != b ==> FirstTagOf(newTags, x) == FirstTagOf(oldTags, x)
  {
  }

  /** The ids recordStatementInDataBlock records: none for a static call or a receiver without points-to set. */
  function ReceiverIds(e: InvokeExpr, uid: UnitId, pointsTo: map<UnitId, string>): Option<seq<string>>
  {
    if e.IsInstance() && uid in pointsTo then Some(DataBlockIds(pointsTo[uid])) else None
  }

  function IdList(ids: Option<seq<string>>): seq<string>
  {
    if ids.None? then [] else ids.value
  }

  /** tryTaintHashMap seeds a taint: an invoke statement whose call has a receiver and whose first argument is a valid key. */
  predicate Seeds(s: Stmt)
  {
    s.InvokeStmt? && KeyArgOf(s).Success? && KeyArgOf(s).value.Some? && s.invoke.IsInstance()
  }

  /** One more raw statement: its key failing fails the list, a missing key adds nothing, a key is appended. */
  lemma ValidKeysStep(p: Program, raws: seq<DataBlockRawStat>, i: nat)
    requires i < |raws| && ValidKeys(p, raws[..i]).Success?
    ensures var k := KeyArgOf(p.StmtOf(raws[i].statement));
      && (k.Failure? ==> ValidKeys(p, raws[..i + 1]) == Failure(k.error))
      && (k == Success(None) ==> ValidKeys(p, raws[..i + 1]) == ValidKeys(p, raws[..i]))
      && (k.Success? && k.value.Some? ==> ValidKeys(p, raws[..i + 1]) == Success(ValidKeys(p, raws[..i]).value + [k.value.value]))
  {
    assert raws[..i + 1][..i] == raws[..i] && raws[..i + 1][i] == raws[i];
  }

  /** Failing with the first argument's key makes the raw statements from i on fail too. */
  lemma {:induction false} ValidKeysPrefixFails(p: Program, raws: seq<DataBlockRawStat>, i: nat)
    requires i <= |raws| && ValidKeys(p, raws[..i]).Failure?
    ensures ValidKeys(p, raws) == ValidKeys(p, raws[..i])
    decreases |raws|
  {
    if i < |raws| {
      var init := raws[..|raws| - 1];
      assert init[..i] == raws[..i];
      ValidKeysPrefixFails(p, init, i);
    } else {
      assert raws[..i] == raws;
    }
  }

  lemma {:induction false} SimplifiedPrefixFails(p: Program, raws: seq<DataBlockRawStat>, i: nat)
    requires i <= |raws| && SimplifiedDataBlocks(p, raws[..i]).Failure?
    ensures SimplifiedDataBlocks(p, raws) == SimplifiedDataBlocks(p, raws[..i])
    decreases |raws|
  {
    if i < |raws| {
      var init := raws[..|raws| - 1];
      assert init[..i] == raws[..i];
      SimplifiedPrefixFails(p, init, i);
    } else {
      assert raws[..i] == raws;
    }
  }

  lemma RawIdsAppend(a: seq<DataBlockRawStat>, b: seq<DataBlockRawStat>)
    ensures RawIds(a + b) == RawIds(a) + RawIds(b)
  {
    var l := RawIds(a + b);
    var r := RawIds(a) + RawIds(b);
    forall id | id in r ensures id in l {
      if id in RawIds(a) {
        var k :| 0 <= k < |a| && a[k].dataBlockId == id;
        assert (a + b)[k].dataBlockId == id;
      } else {
        var k :| 0 <= k < |b| && b[k].dataBlockId == id;
        assert (a + b)[|a| + k].dataBlockId == id;
      }
    }
    forall id | id in l ensures id in r {
      var k :| 0 <= k < |a + b| && (a + b)[k].dataBlockId == id;
      if k < |a| {
        assert a[k].dataBlockId == id;
      } else {
        assert b[k - |a|].dataBlockId == id;
      }
    }
    assert l == r;
  }

  lemma RawStatsIds(ids: seq<string>, u: UnitId, keyword: Option<string>)
    ensures RawIds(RawStats(ids, u, keyword)) == IdSet(Some(ids))
  {
    var raws := RawStats(ids, u, keyword);
    var l := RawIds(raws);
    var r := IdSet(Some(ids));
    forall id | id in r ensures id in l {
      var k :| 0 <= k < |ids| && ids[k] == id;
      assert raws[k].dataBlockId == id;
    }
    forall id | id in l ensures id in r {
      var k :| 0 <= k < |raws| && raws[k].dataBlockId == id;
      assert ids[k] == id;
    }
    assert l == r;
  }

  /** The package-keyword pairs are the app ones, all under the company prefix, and the library ones. */
  predicate PackagesSplit(all: set<string>, app: set<string>, lib: set<string>, companyId: string)
  {
    all == app + lib && forall l :: l in app ==> StartsWith(l, companyId)
  }

  /** One keyword line per hit, and every hit's keyword among the keywords hit. */
  predicate HitsRecorded(lines: seq<string>, hits: seq<JimpleHit>, keywords: set<string>)
  {
    |lines| == |hits| && forall k :: 0 <= k < |hits| ==> hits[k].keyword in keywords
  }

  lemma HitsRecordedAppend(lines: seq<string>, hits: seq<JimpleHit>, keywords: set<string>, line: string, hit: JimpleHit)
    requires HitsRecorded(lines, hits, keywords)
    ensures HitsRecorded(lines + [line], hits + [hit], keywords + {hit.keyword})
  {
  }

  lemma PackagesSplitAdd(all: set<string>, app: set<string>, lib: set<string>, companyId: string,
                         packageName: string, keyword: string)
    requires PackagesSplit(all, app, lib, companyId)
    ensures var line := PackageLine(packageName, keyword);
      if StartsWith(packageName, companyId)
      then PackagesSplit(all + {line}, app + {line}, lib, companyId)
      else PackagesSplit(all + {line}, app, lib + {line}, companyId)
  {
    if StartsWith(packageName, companyId) {
      StartsWithGrows(packageName, [','] + keyword, companyId);
      assert PackageLine(packageName, keyword) == packageName + ([','] + keyword);
    }
  }

  /** One data-block line per raw statement, starting with its numeric object id and a comma. */
  predicate BlocksAligned(stats: seq<string>, raws: seq<DataBlockRawStat>)
  {
    |stats| == |raws|
    && forall k :: 0 <= k < |raws| ==>
         IsIdNumeral(raws[k].dataBlockId) && StartsWith(stats[k], raws[k].dataBlockId + ",")
  }

  lemma StartsWithGrows(a: string, b: string, prefix: string)
    requires StartsWith(a, prefix)
    ensures StartsWith(a + b, prefix)
  {
    assert (a + b)[..|prefix|] == a[..|prefix|];
  }

  lemma StartsWithConcat(a: string, b: string)
    ensures StartsWith(a + b, a)
  {
    assert (a + b)[..|a|] == a;
  }

  lemma LineStartsWithId(id: string, unitNum: nat, className: string, text: string)
    ensures StartsWith(DataBlockLine(id, unitNum, className, text), id + ",")
  {
    assert DataBlockLine(id, unitNum, className, text) == (id + ",") + (NatToString(unitNum) + "," + className + "," + text);
    StartsWithConcat(id + ",", NatToString(unitNum) + "," + className + "," + text);
  }

  /** Appending the lines and raw statements of numeric ids keeps them aligned. */
  lemma BlocksAlignedConcat(stats: seq<string>, raws: seq<DataBlockRawStat>, ids: seq<string>,
                            unitNum: nat, className: string, text: string, u: UnitId, keyword: Option<string>)
    requires BlocksAligned(stats, raws)
    requires forall k :: 0 <= k < |ids| ==> IsIdNumeral(ids[k])
    ensures BlocksAligned(stats + DataBlockLines(ids, unitNum, className, text), raws + RawStats(ids, u, keyword))
  {
    var s2 := stats + DataBlockLines(ids, unitNum, className, text);
    var r2 := raws + RawStats(ids, u, keyword);
    forall k | |raws| <= k < |r2|
      ensures IsIdNumeral(r2[k].dataBlockId) && StartsWith(s2[k], r2[k].dataBlockId + ",")
    {
      assert r2[k].dataBlockId == ids[k - |raws|];
      assert s2[k] == DataBlockLine(ids[k - |raws|], unitNum, className, text);
      LineStartsWithId(ids[k - |raws|], unitNum, className, text);
    }
  }

  // Collections.sort on the data-block lines

  /** Adjacent lines are in compareTo order. */
  predicate LinesSorted(s: seq<string>)
  {
    forall i :: 0 < i < |s| ==> CompareAtMost(s[i - 1], s[i])
  }

  function InsertLine(x: string, s: seq<string>): seq<string>
  {
    if s == [] then [x]
    else if CompareAtMost(x, s[0]) then [x] + s
    else [s[0]] + InsertLine(x, s[1..])
  }

  /** The lines in compareTo order, as an insertion sort; by SortedLinesUnique every sort gives this list. */
  function SortLines(s: seq<string>): seq<string>
  {
    if s == [] then [] else InsertLine(s[|s| - 1], SortLines(s[..|s| - 1]))
  }

  lemma {:induction false} InsertLinePerm(x: string, s: seq<string>)
    ensures multiset(InsertLine(x, s)) == multiset(s) + multiset{x}
  {
    if s != [] && !CompareAtMost(x, s[0]) {
      InsertLinePerm(x, s[1..]);
      assert s == [s[0]] + s[1..];
    }
  }

  lemma {:induction false} InsertLineSorted(x: string, s: seq<string>)
    requires LinesSorted(s)
    ensures LinesSorted(InsertLine(x, s))
    ensures InsertLine(x, s)[0] == x || (s != [] && InsertLine(x, s)[0] == s[0])
  {
    if s != [] && !CompareAtMost(x, s[0]) {
      var rest := InsertLine(x, s[1..]);
      InsertLineSorted(x, s[1..]);
      CompareAtMostTotal(x, s[0]);
      var r := [s[0]] + rest;
      forall i | 0 < i < |r| ensures CompareAtMost(r[i - 1], r[i]) {
        if i > 1 {
          assert r[i - 1] == rest[i - 2] && r[i] == rest[i - 1];
        }
      }
    }
  }

  lemma {:induction false} SortLinesSorted(s: seq<string>)
    ensures LinesSorted(SortLines(s))
  {
    if s != [] {
      SortLinesSorted(s[..|s| - 1]);
      InsertLineSorted(s[|s| - 1], SortLines(s[..|s| - 1]));
    }
  }

  lemma {:induction false} SortLinesPerm(s: seq<string>)
    ensures multiset(SortLines(s)) == multiset(s)
  {
    if s != [] {
      var init := s[..|s| - 1];
      var last := s[|s| - 1];
      SortLinesPerm(init);
      InsertLinePerm(last, SortLines(init));
      assert s == init + [last];
      assert multiset(s) == multiset(init) + multiset{last};
    }
  }

  /** SortLines sorts, and only reorders. */
  lemma SortLinesSortedPerm(s: seq<string>)
    ensures LinesSorted(SortLines(s))
    ensures multiset(SortLines(s)) == multiset(s)
  {
    SortLinesSorted(s);
    SortLinesPerm(s);
  }

  lemma {:induction false} CompareAtMostReflexive(a: string)
    ensures CompareAtMost(a, a)
    decreases |a|
  {
    if |a| > 0 {
      CompareAtMostReflexive(a[1..]);
    }
  }

  lemma {:induction false} CompareAtMostTransitive(a: string, b: string, c: string)
    requires CompareAtMost(a, b) && CompareAtMost(b, c)
    ensures CompareAtMost(a, c)
    decreases |a|
  {
    if |a| > 0 && a[0] == b[0] && b[0] == c[0] {
      CompareAtMostTransitive(a[1..], b[1..], c[1..]);
    }
  }

  lemma {:induction false} SortedFirstIsLeast(s: seq<string>, k: nat)
    requires LinesSorted(s) && k < |s|
    ensures CompareAtMost(s[0], s[k])
  {
    if k == 0 {
      CompareAtMostReflexive(s[0]);
    } else {
      SortedFirstIsLeast(s, k - 1);
      CompareAtMostTransitive(s[0], s[k - 1], s[k]);
    }
  }

  /** Two sorted orderings of the same lines are the same list. */
  lemma {:induction false} SortedLinesUnique(x: seq<string>, y: seq<string>)
    requires LinesSorted(x) && LinesSorted(y) && multiset(x) == multiset(y)
    ensures x == y
    decreases |x|
  {
    if x == [] {
      assert |y| == |multiset(y)| == 0;
    } else {
      assert |y| == |multiset(y)| == |x| > 0;
      SortedHeadsEqual(x, y);
      SameHeadTails(x, y);
      SortedLinesUnique(x[1..], y[1..]);
      assert x == [x[0]] + x[1..] && y == [y[0]] + y[1..];
    }
  }

  /** Two sorted orderings of the same non-empty lines start with the same line. */
  lemma SortedHeadsEqual(x: seq<string>, y: seq<string>)
    requires LinesSorted(x) && LinesSorted(y) && multiset(x) == multiset(y) && |x| > 0 && |y| > 0
    ensures x[0] == y[0]
  {
    assert x[0] in multiset(y);
    var j :| 0 <= j < |y| && y[j] == x[0];
    SortedFirstIsLeast(y, j);
    assert y[0] in multiset(x);
    var i :| 0 <= i < |x| && x[i] == y[0];
    SortedFirstIsLeast(x, i);
    CompareAtMostAntisymmetric(x[0], y[0]);
  }

  /** Removing the same first line from two orderings of the same lines leaves orderings of the same lines. */
  lemma SameHeadTails(x: seq<string>, y: seq<string>)
    requires multiset(x) == multiset(y) && |x| > 0 && |y| > 0 && x[0] == y[0]
    ensures multiset(x[1..]) == multiset(y[1..])
  {
    assert x == [x[0]] + x[1..] && y == [y[0]] + y[1..];
    assert multiset(x) == multiset{x[0]} + multiset(x[1..]);
    assert multiset(y) == multiset{y[0]} + multiset(y[1..]);
    assert multiset(x[1..]) == multiset(x) - multiset{x[0]};
    assert multiset(y[1..]) == multiset(y) - multiset{y[0]};
  }

  /** The line starts with the object id of some raw statement and a comma. */
  predicate LineOfSomeBlock(line: string, raws: seq<DataBlockRawStat>)
  {
    exists k :: 0 <= k < |raws| && StartsWith(line, raws[k].dataBlockId + ",")
  }

  /** Reordering aligned lines keeps every line the line of some block. */
  lemma ReorderedLinesOfBlocks(stats: seq<string>, raws: seq<DataBlockRawStat>, lines: seq<string>)
    requires BlocksAligned(stats, raws) && multiset(lines) == multiset(stats)
    ensures |lines| == |raws|
    ensures forall i :: 0 <= i < |lines| ==> LineOfSomeBlock(lines[i], raws)
  {
    assert |lines| == |multiset(lines)| == |stats|;
    forall i | 0 <= i < |lines| ensures LineOfSomeBlock(lines[i], raws) {
      assert lines[i] in multiset(stats);
      var j :| 0 <= j < |stats| && stats[j] == lines[i];
      assert StartsWith(lines[i], raws[j].dataBlockId + ",");
    }
  }

  class KeywordInspector {
    const keywordDetector: KeywordDetector.KeywordDetector
    const jimpleSelector: JimpleSelector.JimpleSelector
    /** Main.apkCompanyId: the package prefix of the app's own code. */
    const companyId: string
    /** Config.recordJimpleUsingHashMap. */
    const recordJimpleUsingHashMap: bool
    /** The tags on the program's value boxes. */
    const store: TagStore

    var jimpleWithKeywords: seq<string>
    var keywordsHit: set<string>
    var keywordsInPackage: set<string>
    var jimpleUsingHashMap: seq<string>
    var jimpleHit: seq<JimpleHit>
    var dataBlockStatement: seq<string>
    var dataBlockRawStat: seq<DataBlockRawStat>
    var dataBlockWithKeywordsRawStat: seq<DataBlockRawStat>
    var dataBlockWithKeywordsIds: set<string>
    var libraryPackageName: set<string>
    var keywordsInAppPackage: set<string>
    var keywordsInLibPackage: set<string>
    var keyTaintedVars: seq<KeyTaintedVar>
    /** The unitNum tags: the first one added to each unit, which is the one getTag answers. */
    var unitNumTags: map<UnitId, nat>

    /**
     * The package pairs split into app and library ones, a hit line per
     * recorded hit, one data-block line per raw statement starting with its
     * numeric object id, keyword blocks among the recorded ones, and a tag on
     * every seeded container.
     */
    ghost predicate Valid()
      reads store, this`keywordsInPackage, this`keywordsInAppPackage, this`keywordsInLibPackage,
        this`jimpleWithKeywords, this`jimpleHit, this`keywordsHit, this`dataBlockStatement,
        this`dataBlockRawStat, this`dataBlockWithKeywordsIds, this`keyTaintedVars
    {
      store.Valid()
      && jimpleSelector.Valid()
      && PackagesSplit(keywordsInPackage, keywordsInAppPackage, keywordsInLibPackage, companyId)
      && HitsRecorded(jimpleWithKeywords, jimpleHit, keywordsHit)
      && BlocksAligned(dataBlockStatement, dataBlockRawStat)
      && dataBlockWithKeywordsIds <= RawIds(dataBlockRawStat)
      && TaintsTagged()
    }

    /** Every key-tainted variable's box has a tag in the store. */
    ghost predicate TaintsTagged()
      reads store, this`keyTaintedVars
    {
      forall k :: 0 <= k < |keyTaintedVars| ==> store.GetTag(keyTaintedVars[k].varBox).Some?
    }

    constructor (keywordList: KeywordList.KeywordList, stem: string -> string,
                 jimpleSelector: JimpleSelector.JimpleSelector, companyId: string,
                 recordJimpleUsingHashMap: bool, store: TagStore)
      requires jimpleSelector.Valid() && store.Valid()
      ensures Valid()
      ensures keywordDetector.keywordList == keywordList && keywordDetector.stem == stem
      ensures this.jimpleSelector == jimpleSelector && this.companyId == companyId && this.store == store
      ensures this.recordJimpleUsingHashMap == recordJimpleUsingHashMap
      ensures jimpleWithKeywords == [] && keywordsHit == {} && keywordsInPackage == {} && jimpleUsingHashMap == []
      ensures jimpleHit == [] && dataBlockStatement == [] && dataBlockRawStat == [] && dataBlockWithKeywordsRawStat == []
      ensures dataBlockWithKeywordsIds == {} && libraryPackageName == {} && keywordsInAppPackage == {}
      ensures keywordsInLibPackage == {} && keyTaintedVars == [] && unitNumTags == map[]
    {
      var detector := new KeywordDetector.KeywordDetector(keywordList, stem);
      keywordDetector := detector;
      this.jimpleSelector := jimpleSelector;
      this.companyId := companyId;
      this.recordJimpleUsingHashMap := recordJimpleUsingHashMap;
      this.store := store;
      keywordsInPackage := {};
      jimpleWithKeywords := [];
      jimpleHit := [];
      keywordsHit := {};
      jimpleUsingHashMap := [];
      libraryPackageName := {};
      keywordsInAppPackage := {};
      keywordsInLibPackage := {};
      dataBlockStatement := [];
      dataBlockRawStat := [];
      dataBlockWithKeywordsIds := {};
      dataBlockWithKeywordsRawStat := [];
      keyTaintedVars := [];
      unitNumTags := map[];
    }

    /** judgeJimpleInitially with the selector's switches and list. */
    function Status(u: Unit): JimpleSelector.JimpleInitialJudgeStatus
    {
      JimpleSelector.InitialStatus(u, jimpleSelector.interestedApiOnly, jimpleSelector.ApiList())
    }

    /** figureOutKeywordInJimple on a statement's text; a failed constant scan raises. */
    function KeywordOf(text: string): Result<Option<string>>
    {
      match KeywordDetector.ExtractStringConsts(text)
      case Failure(e) => Failure(e)
      case Success(consts) => Success(KeywordDetector.FirstSome(keywordDetector.KeywordsOfConsts(consts)))
    }

    function KeywordIn(text: string): Option<string>
    {
      match KeywordOf(text)
      case Success(k) => k
      case Failure(_) => None
    }

    /** The statement is recorded as a keyword hit: interesting, with a keyword, and a definite hit or passing the detail check. */
    predicate Hit(u: Unit)
    {
      Status(u) != JimpleSelector.JimpleNotInterested && KeywordIn(u.text).Some?
      && (Status(u) == JimpleSelector.JimpleDefiniteHit
          || JimpleSelector.DetailPasses(u.text, jimpleSelector.apiInLibrariesOnly, jimpleSelector.Libraries()))
    }

    /** The data-block ids a statement is recorded under: only key-value calls are recorded. */
    function BlockIds(u: Unit, uid: UnitId, pointsTo: map<UnitId, string>): Option<seq<string>>
    {
      if Status(u) == JimpleSelector.JimpleDefiniteHit then ReceiverIds(u.stmt.invoke, uid, pointsTo) else None
    }

    /** The keyword the scan records for a unit: the one it holds when it is a hit, None otherwise. */
    function HitKey(p: Program, uid: UnitId): Option<string>
    {
      if Hit(p.UnitAt(uid)) then KeywordIn(p.UnitAt(uid).text) else None
    }

    /** HitKey as a function value, which the scan functions take. */
    function HitKeys(p: Program): UnitId -> Option<string>
    {
      (uid: UnitId) => HitKey(p, uid)
    }

    /** hk gives every unit its HitKey. */
    ghost predicate HitKeysOf(p: Program, hk: UnitId -> Option<string>)
    {
      forall uid {:trigger HitKey(p, uid)} :: hk(uid) == HitKey(p, uid)
    }

    /** Since h0 and k0, a scan over us has recorded exactly its hits and their keywords. */
    ghost predicate Recorded(hk: UnitId -> Option<string>, h0: seq<JimpleHit>, k0: set<string>, us: seq<UnitId>)
      reads this`jimpleHit, this`keywordsHit, this`unitNumTags
    {
      jimpleHit == h0 + ScanHits(hk, us, unitNumTags) && keywordsHit == k0 + ScanKeywords(hk, us)
    }

    /** isSystemPackage: the loop over the fixed system prefixes. */
    method IsSystemPackage(packageName: string) returns (b: bool)
      ensures b <==> StartsWith(packageName, "java.") || StartsWith(packageName, "dalvik.")
                     || StartsWith(packageName, "android.") || StartsWith(packageName, "javax.")
      ensures b <==> SystemPackage(packageName)
    {
      for i := 0 to |FixedSystemPackages|
        invariant forall j :: 0 <= j < i ==> !StartsWith(packageName, FixedSystemPackages[j])
      {
        if StartsWith(packageName, FixedSystemPackages[i]) {
          return true;
        }
      }
      assert !StartsWith(packageName, FixedSystemPackages[0]) && !StartsWith(packageName, FixedSystemPackages[1]);
      assert !StartsWith(packageName, FixedSystemPackages[2]) && !StartsWith(packageName, FixedSystemPackages[3]);
      return false;
    }

    /** extractValidKeyArgOfStat, with the cast and getArg(0) it starts with. */
    method ExtractValidKeyArgOfStat(s: Stmt) returns (r: Result<Option<string>>)
      ensures r == KeyArgOf(s)
    {
      if !s.InvokeStmt? {
        return Failure(ClassCast);
      }
      if |s.invoke.args| == 0 {
        return Failure(ArgOutOfBounds);
      }
      var firstArgInStr := Trim(s.invoke.args[0].text);
      if |firstArgInStr| == 0 {
        return Failure(CharAtOutOfBounds);
      }
      if firstArgInStr[0] == '$' {
        return Success(None);
      }
      if IndexOf(firstArgInStr, ",") >= 0 {
        return Success(None);
      }
      var unescaped := UnescapeString(firstArgInStr);
      return Success(Some(unescaped));
    }

    /** inspectPackageName. */
    method InspectPackageName(packageName: string)
      modifies this`libraryPackageName
      ensures libraryPackageName == old(libraryPackageName) + PackageSet(LibPackage(packageName, companyId))
    {
      var name := Trim(packageName);
      LibPackageOfTrimmed(packageName, companyId, name);
      if |name| == 0 {
        return;
      }
      if StartsWith(name, companyId) {
        return;
      }
      var libPackage := GetLeadingPartsOfName(name, 3);
      match libPackage
      case Success(lp) =>
        libraryPackageName := libraryPackageName + {lp};
      case Failure(_) =>
        assert false;
    }

    /**
     * tryTaintHashMap: a statement that seeds nothing changes nothing; a seed
     * appends the key to the receiver box's tag (a fresh one if it had none)
     * and records the box as key-tainted.
     */
    method TryTaintHashMap(uid: UnitId, s: Stmt) returns (r: Result<()>)
      requires Valid()
      modifies this`keyTaintedVars, store
      ensures Valid()
      ensures r.Failure? <==> s.InvokeStmt? && KeyArgOf(s).Failure?
      ensures !Seeds(s) ==>
        keyTaintedVars == old(keyTaintedVars) && store.boxTags == old(store.boxTags) && store.keyConsts == old(store.keyConsts)
      ensures Seeds(s) ==> keyTaintedVars == old(keyTaintedVars) + [KeyTaintedVar(uid, s.invoke.base)]
      ensures Seeds(s) ==>
        SeededBy(old(store.boxTags), old(store.keyConsts), store.boxTags, store.keyConsts, s.invoke.base, KeyArgOf(s).value.value)
    {
      if !s.InvokeStmt? {
        return Success(());
      }
      var key := ExtractValidKeyArgOfStat(s);
      if key.Failure? {
        return Failure(key.error);
      }
      if key.value.None? {
        return Success(());
      }
      var invokeExpr := s.invoke;
      if !invokeExpr.IsInstance() {
        return Success(());
      }
      var thisBox := invokeExpr.base;
      SeedKeyTag(thisBox, key.value.value);
      keyTaintedVars := keyTaintedVars + [KeyTaintedVar(uid, thisBox)];
      return Success(());
    }

    /** The tag part of tryTaintHashMap: key appended to the box's first tag, or to a fresh tag added to the box. */
    method SeedKeyTag(thisBox: BoxId, key: string)
      requires store.Valid()
      modifies store
      ensures store.Valid()
      ensures SeededBy(old(store.boxTags), old(store.keyConsts), store.boxTags, store.keyConsts, thisBox, key)
      ensures store.GetTag(thisBox).Some?
      ensures forall b :: old(store.GetTag(b)).Some? ==> store.GetTag(b).Some?
    {
      var thisKeyTag := store.GetTag(thisBox);
      if thisKeyTag.None? {
        ghost var keys0 := store.keyConsts;
        var keyTag := store.NewTag();
        assert store.keyConsts == keys0[keyTag := []];
        store.AddKeyConst(keyTag, key);
        assert store.keyConsts == keys0[keyTag := []][keyTag := [] + [key]];
        assert [] + [key] == [key];
        store.AddTag(thisBox, keyTag);
        assert store.boxTags[thisBox] == [keyTag];
        assert store.keyConsts == keys0[keyTag := [key]];
      } else {
        store.AddKeyConst(thisKeyTag.value, key);
      }
    }

    /** recordStatementInDataBlock's loop over the object ids: one line and one raw statement each, in order. */
    method DataBlockRecords(idList: seq<string>, uid: UnitId, unitNum: nat, curClassName: string, text: string,
                            keywordInUnit: Option<string>)
      returns (statements: seq<string>, raws: seq<DataBlockRawStat>)
      ensures statements == DataBlockLines(idList, unitNum, curClassName, text)
      ensures raws == RawStats(idList, uid, keywordInUnit)
    {
      statements := [];
      raws := [];
      for i := 0 to |idList|
        invariant statements == DataBlockLines(idList[..i], unitNum, curClassName, text)
        invariant raws == RawStats(idList[..i], uid, keywordInUnit)
      {
        var thisObjId := idList[i];
        var statement := DataBlockLine(thisObjId, unitNum, curClassName, text);
        statements := statements + [statement];
        raws := raws + [DataBlockRawStat(uid, thisObjId, keywordInUnit)];
        assert idList[..i + 1] == idList[..i] + [thisObjId];
        assert statements == DataBlockLines(idList[..i + 1], unitNum, curClassName, text);
        assert raws == RawStats(idList[..i + 1], uid, keywordInUnit);
      }
      assert idList[..|idList|] == idList;
    }

    /** recordStatementInDataBlock: one line and one raw statement per object id of the receiver. */
    method RecordStatementInDataBlock(uid: UnitId, u: Unit, curClassName: string, unitNum: nat,
                                      keywordInUnit: Option<string>, pointsTo: map<UnitId, string>)
      returns (ids: Option<seq<string>>)
      requires Valid() && u.stmt.InvokeStmt?
      modifies this`dataBlockStatement, this`dataBlockRawStat
      ensures Valid()
      ensures ids == ReceiverIds(u.stmt.invoke, uid, pointsTo)
      ensures dataBlockStatement == old(dataBlockStatement) + DataBlockLines(IdList(ids), unitNum, curClassName, u.text)
      ensures dataBlockRawStat == old(dataBlockRawStat) + RawStats(IdList(ids), uid, keywordInUnit)
      ensures IdSet(ids) <= RawIds(dataBlockRawStat)
    {
      var invokeExpr := u.stmt.invoke;
      if !invokeExpr.IsInstance() || uid !in pointsTo {
        assert DataBlockLines([], unitNum, curClassName, u.text) == [];
        assert RawStats([], uid, keywordInUnit) == [];
        return None;
      }
      var thisObjIdList := FindDataBlockIds(pointsTo[uid]);
      IdsFromAreNumerals(pointsTo[uid], 0);
      var statements, raws := DataBlockRecords(thisObjIdList, uid, unitNum, curClassName, u.text, keywordInUnit);
      BlocksAlignedConcat(dataBlockStatement, dataBlockRawStat, thisObjIdList, unitNum, curClassName, u.text, uid, keywordInUnit);
      RawIdsAppend(dataBlockRawStat, raws);
      RawStatsIds(thisObjIdList, uid, keywordInUnit);
      dataBlockStatement := dataBlockStatement + statements;
      dataBlockRawStat := dataBlockRawStat + raws;
      return Some(thisObjIdList);
    }
  
    /** The hit bookkeeping at the end of inspectJimpleStatement. */
    method RecordHit(uid: UnitId, unitNum: nat, keyword: string, packageName: string, text: string,
                     ids: Option<seq<string>>)
      requires Valid() && IdSet(ids) <= RawIds(dataBlockRawStat)
      modifies this`jimpleWithKeywords, this`jimpleHit, this`keywordsHit, this`keywordsInPackage,
        this`keywordsInAppPackage, this`keywordsInLibPackage, this`dataBlockWithKeywordsIds
      ensures Valid()
      ensures jimpleWithKeywords == old(jimpleWithKeywords) + [HitLine(unitNum, keyword, packageName, text)]
      ensures jimpleHit == old(jimpleHit) + [JimpleHit(uid, keyword, unitNum)]
      ensures keywordsHit == old(keywordsHit) + {keyword}
      ensures keywordsInPackage == old(keywordsInPackage) + {PackageLine(packageName, keyword)}
      ensures keywordsInAppPackage == old(keywordsInAppPackage)
        + (if StartsWith(packageName, companyId) then {PackageLine(packageName, keyword)} else {})
      ensures keywordsInLibPackage == old(keywordsInLibPackage)
        + (if StartsWith(packageName, companyId) then {} else {PackageLine(packageName, keyword)})
      ensures dataBlockWithKeywordsIds == old(dataBlockWithKeywordsIds) + IdSet(ids)
    {
      RecordHitLine(uid, unitNum, keyword, packageName, text);
      RecordHitPackage(packageName, keyword);
      if ids.Some? {
        dataBlockWithKeywordsIds := dataBlockWithKeywordsIds + IdSet(ids);
      }
    }

    /** The keyword line, the hit and its keyword. */
    method RecordHitLine(uid: UnitId, unitNum: nat, keyword: string, packageName: string, text: string)
      requires Valid()
      modifies this`jimpleWithKeywords, this`jimpleHit, this`keywordsHit
      ensures Valid()
      ensures jimpleWithKeywords == old(jimpleWithKeywords) + [HitLine(unitNum, keyword, packageName, text)]
      ensures jimpleHit == old(jimpleHit) + [JimpleHit(uid, keyword, unitNum)]
      ensures keywordsHit == old(keywordsHit) + {keyword}
    {
      var hitLine, hit := HitLine(unitNum, keyword, packageName, text), JimpleHit(uid, keyword, unitNum);
      HitsRecordedAppend(jimpleWithKeywords, jimpleHit, keywordsHit, hitLine, hit);
      jimpleWithKeywords, jimpleHit, keywordsHit := jimpleWithKeywords + [hitLine], jimpleHit + [hit], keywordsHit + {keyword};
    }

    /** The package line, into the app or the library packages by the company id. */
    method RecordHitPackage(packageName: string, keyword: string)
      requires Valid()
      modifies this`keywordsInPackage, this`keywordsInAppPackage, this`keywordsInLibPackage
      ensures Valid()
      ensures keywordsInPackage == old(keywordsInPackage) + {PackageLine(packageName, keyword)}
      ensures keywordsInAppPackage == old(keywordsInAppPackage)
        + (if StartsWith(packageName, companyId) then {PackageLine(packageName, keyword)} else {})
      ensures keywordsInLibPackage == old(keywordsInLibPackage)
        + (if StartsWith(packageName, companyId) then {} else {PackageLine(packageName, keyword)})
    {
      var line := PackageLine(packageName, keyword);
      var app, lib := keywordsInAppPackage, keywordsInLibPackage;
      if StartsWith(packageName, companyId) {
        app := app + {line};
      } else {
        lib := lib + {line};
      }
      PackagesSplitAdd(keywordsInPackage, keywordsInAppPackage, keywordsInLibPackage, companyId, packageName, keyword);
      keywordsInPackage, keywordsInAppPackage, keywordsInLibPackage := keywordsInPackage + {line}, app, lib;
    }

    /** The HashMap part of inspectJimpleStatement: the statement is recorded (under the switch) and may seed a taint. */
    method InspectHashMapUse(uid: UnitId, u: Unit) returns (r: Result<()>)
      requires Valid() && u.stmt.InvokeStmt?
      modifies this`jimpleUsingHashMap, this`keyTaintedVars, store
      ensures Valid()
      ensures var hm := HashMapStatHandler.IsStatementUsingHashMap(u.text);
        && (r.Failure? <==> hm && KeyArgOf(u.stmt).Failure?)
        && jimpleUsingHashMap == old(jimpleUsingHashMap) + (if hm && recordJimpleUsingHashMap then [u.text] else [])
        && (hm && Seeds(u.stmt) ==>
              keyTaintedVars == old(keyTaintedVars) + [KeyTaintedVar(uid, u.stmt.invoke.base)]
              && SeededBy(old(store.boxTags), old(store.keyConsts), store.boxTags, store.keyConsts,
                          u.stmt.invoke.base, KeyArgOf(u.stmt).value.value))
        && (!(hm && Seeds(u.stmt)) ==>
              keyTaintedVars == old(keyTaintedVars)
              && store.boxTags == old(store.boxTags) && store.keyConsts == old(store.keyConsts))
    {
      var usesHashMap := HashMapStatHandler.IsStatementUsingHashMap(u.text);
      if usesHashMap {
        if recordJimpleUsingHashMap {
          jimpleUsingHashMap := jimpleUsingHashMap + [u.text];
        }
        r := TryTaintHashMap(uid, u.stmt);
      } else {
        r := Success(());
      }
    }

    /** Only a key-value call is recorded under its receiver's data blocks. */
    method RecordKeyValueUse(uid: UnitId, u: Unit, unitNum: nat, curClassName: string,
                             keywordInUnit: Option<string>, pointsTo: map<UnitId, string>)
      returns (ids: Option<seq<string>>)
      requires Valid() && Status(u) != JimpleSelector.JimpleNotInterested
      modifies this`dataBlockStatement, this`dataBlockRawStat
      ensures Valid()
      ensures ids == BlockIds(u, uid, pointsTo)
      ensures dataBlockStatement == old(dataBlockStatement) + DataBlockLines(IdList(ids), unitNum, curClassName, u.text)
      ensures dataBlockRawStat == old(dataBlockRawStat) + RawStats(IdList(ids), uid, keywordInUnit)
      ensures IdSet(ids) <= RawIds(dataBlockRawStat)
    {
      var keyValue := jimpleSelector.IsInvokeStmtContainKeyValue(u);
      if keyValue {
        ids := RecordStatementInDataBlock(uid, u, curClassName, unitNum, keywordInUnit, pointsTo);
      } else {
        assert DataBlockLines([], unitNum, curClassName, u.text) == [];
        assert RawStats([], uid, keywordInUnit) == [];
        ids := None;
      }
    }

    /** The keyword part of inspectJimpleStatement: data-block bookkeeping for key-value calls, then the hit. */
    method InspectKeywordUse(uid: UnitId, u: Unit, status: JimpleSelector.JimpleInitialJudgeStatus, unitNum: nat,
                             curClass: Class, pointsTo: map<UnitId, string>)
      returns (r: Result<()>)
      requires Valid() && status == Status(u) && status != JimpleSelector.JimpleNotInterested
      modifies this`dataBlockStatement, this`dataBlockRawStat,
        this`jimpleWithKeywords, this`jimpleHit, this`keywordsHit, this`keywordsInPackage,
        this`keywordsInAppPackage, this`keywordsInLibPackage, this`dataBlockWithKeywordsIds
      ensures Valid()
      ensures r.Failure? <==> KeywordOf(u.text).Failure?
      ensures r.Success? ==>
        var ids := BlockIds(u, uid, pointsTo);
        && dataBlockStatement == old(dataBlockStatement) + DataBlockLines(IdList(ids), unitNum, curClass.name, u.text)
        && dataBlockRawStat == old(dataBlockRawStat) + RawStats(IdList(ids), uid, KeywordIn(u.text))
      ensures r.Success? && Hit(u) ==>
        var keyword := KeywordIn(u.text).value;
        var line := PackageLine(curClass.packageName, keyword);
        && jimpleWithKeywords == old(jimpleWithKeywords) + [HitLine(unitNum, keyword, curClass.packageName, u.text)]
        && jimpleHit == old(jimpleHit) + [JimpleHit(uid, keyword, unitNum)]
        && keywordsHit == old(keywordsHit) + {keyword}
        && keywordsInPackage == old(keywordsInPackage) + {line}
        && keywordsInAppPackage == old(keywordsInAppPackage) + (if StartsWith(curClass.packageName, companyId) then {line} else {})
        && keywordsInLibPackage == old(keywordsInLibPackage) + (if StartsWith(curClass.packageName, companyId) then {} else {line})
        && dataBlockWithKeywordsIds == old(dataBlockWithKeywordsIds) + IdSet(BlockIds(u, uid, pointsTo))
      ensures !Hit(u) ==>
        jimpleWithKeywords == old(jimpleWithKeywords) && jimpleHit == old(jimpleHit)
        && keywordsHit == old(keywordsHit) && keywordsInPackage == old(keywordsInPackage)
        && keywordsInAppPackage == old(keywordsInAppPackage) && keywordsInLibPackage == old(keywordsInLibPackage)
        && dataBlockWithKeywordsIds == old(dataBlockWithKeywordsIds)
    {
      var found := keywordDetector.FigureOutKeywordInJimple(u.text);
      assert found == KeywordOf(u.text);
      if found.Failure? {
        return Failure(found.error);
      }
      var keywordInUnit := found.value;
      assert keywordInUnit == KeywordIn(u.text);
      var dataBlockObjIdList := RecordKeyValueUse(uid, u, unitNum, curClass.name, keywordInUnit, pointsTo);
      if keywordInUnit.None? {
        return Success(());
      }
      RecordIfHit(uid, u, status, unitNum, curClass, dataBlockObjIdList);
      return Success(());
    }

    /** A statement with a keyword is a hit when it is a definite one or passes the detail check. */
    method RecordIfHit(uid: UnitId, u: Unit, status: JimpleSelector.JimpleInitialJudgeStatus, unitNum: nat,
                       curClass: Class, ids: Option<seq<string>>)
      requires Valid() && status == Status(u) && status != JimpleSelector.JimpleNotInterested && KeywordIn(u.text).Some?
      requires IdSet(ids) <= RawIds(dataBlockRawStat)
      modifies this`jimpleWithKeywords, this`jimpleHit, this`keywordsHit, this`keywordsInPackage,
        this`keywordsInAppPackage, this`keywordsInLibPackage, this`dataBlockWithKeywordsIds
      ensures Valid()
      ensures Hit(u) ==>
        var keyword := KeywordIn(u.text).value;
        var line := PackageLine(curClass.packageName, keyword);
        && jimpleWithKeywords == old(jimpleWithKeywords) + [HitLine(unitNum, keyword, curClass.packageName, u.text)]
        && jimpleHit == old(jimpleHit) + [JimpleHit(uid, keyword, unitNum)]
        && keywordsHit == old(keywordsHit) + {keyword}
        && keywordsInPackage == old(keywordsInPackage) + {line}
        && keywordsInAppPackage == old(keywordsInAppPackage) + (if StartsWith(curClass.packageName, companyId) then {line} else {})
        && keywordsInLibPackage == old(keywordsInLibPackage) + (if StartsWith(curClass.packageName, companyId) then {} else {line})
        && dataBlockWithKeywordsIds == old(dataBlockWithKeywordsIds) + IdSet(ids)
      ensures !Hit(u) ==>
        jimpleWithKeywords == old(jimpleWithKeywords) && jimpleHit == old(jimpleHit)
        && keywordsHit == old(keywordsHit) && keywordsInPackage == old(keywordsInPackage)
        && keywordsInAppPackage == old(keywordsInAppPackage) && keywordsInLibPackage == old(keywordsInLibPackage)
        && dataBlockWithKeywordsIds == old(dataBlockWithKeywordsIds)
    {
      var passes := true;
      if status == JimpleSelector.JimpleNeedDetailInspection {
        passes := jimpleSelector.JudgeJimpleInDetail(u.text);
      }
      assert passes == Hit(u);
      if !passes {
        return;
      }
      RecordHit(uid, unitNum, KeywordIn(u.text).value, curClass.packageName, u.text, ids);
    }

    /**
     * inspectJimpleStatement: an uninteresting statement changes nothing; an
     * interesting one is recorded as using a HashMap (and may seed a taint),
     * recorded under its receiver's data blocks when it is a key-value call,
     * and recorded as a hit when it holds a keyword and passes the checks.
     */
    method InspectJimpleStatement(p: Program, uid: UnitId, curClass: Class, pointsTo: map<UnitId, string>)
      returns (r: Result<()>)
      requires Valid() && uid in unitNumTags
      modifies this`jimpleUsingHashMap, this`keyTaintedVars, this`dataBlockStatement, this`dataBlockRawStat,
        this`jimpleWithKeywords, this`jimpleHit, this`keywordsHit, this`keywordsInPackage,
        this`keywordsInAppPackage, this`keywordsInLibPackage, this`dataBlockWithKeywordsIds, store
      ensures Valid()
      ensures Status(p.UnitAt(uid)) == JimpleSelector.JimpleNotInterested ==> r.Success? && unchanged(this, store)
      ensures var u := p.UnitAt(uid);
        r.Failure? <==>
          Status(u) != JimpleSelector.JimpleNotInterested
          && ((HashMapStatHandler.IsStatementUsingHashMap(u.text) && KeyArgOf(u.stmt).Failure?) || KeywordOf(u.text).Failure?)
      ensures var u := p.UnitAt(uid);
        r.Success? && Status(u) != JimpleSelector.JimpleNotInterested ==>
          var hm := HashMapStatHandler.IsStatementUsingHashMap(u.text);
          && jimpleUsingHashMap == old(jimpleUsingHashMap) + (if hm && recordJimpleUsingHashMap then [u.text] else [])
          && (hm && Seeds(u.stmt) ==>
                keyTaintedVars == old(keyTaintedVars) + [KeyTaintedVar(uid, u.stmt.invoke.base)]
                && SeededBy(old(store.boxTags), old(store.keyConsts), store.boxTags, store.keyConsts,
                            u.stmt.invoke.base, KeyArgOf(u.stmt).value.value))
          && (!(hm && Seeds(u.stmt)) ==>
                keyTaintedVars == old(keyTaintedVars)
                && store.boxTags == old(store.boxTags) && store.keyConsts == old(store.keyConsts))
      ensures var u := p.UnitAt(uid);
        r.Success? && Status(u) != JimpleSelector.JimpleNotInterested ==>
          var ids := BlockIds(u, uid, pointsTo);
          && dataBlockStatement == old(dataBlockStatement) + DataBlockLines(IdList(ids), unitNumTags[uid], curClass.name, u.text)
          && dataBlockRawStat == old(dataBlockRawStat) + RawStats(IdList(ids), uid, KeywordIn(u.text))
      ensures var u := p.UnitAt(uid);
        r.Success? && Hit(u) ==>
          var keyword := KeywordIn(u.text).value;
          var line := PackageLine(curClass.packageName, keyword);
          && jimpleWithKeywords == old(jimpleWithKeywords) + [HitLine(unitNumTags[uid], keyword, curClass.packageName, u.text)]
          && jimpleHit == old(jimpleHit) + [JimpleHit(uid, keyword, unitNumTags[uid])]
          && keywordsHit == old(keywordsHit) + {keyword}
          && keywordsInPackage == old(keywordsInPackage) + {line}
          && keywordsInAppPackage == old(keywordsInAppPackage) + (if StartsWith(curClass.packageName, companyId) then {line} else {})
          && keywordsInLibPackage == old(keywordsInLibPackage) + (if StartsWith(curClass.packageName, companyId) then {} else {line})
          && dataBlockWithKeywordsIds == old(dataBlockWithKeywordsIds) + IdSet(BlockIds(u, uid, pointsTo))
      ensures !Hit(p.UnitAt(uid)) ==>
        jimpleWithKeywords == old(jimpleWithKeywords) && jimpleHit == old(jimpleHit)
        && keywordsHit == old(keywordsHit) && keywordsInPackage == old(keywordsInPackage)
        && keywordsInAppPackage == old(keywordsInAppPackage) && keywordsInLibPackage == old(keywordsInLibPackage)
        && dataBlockWithKeywordsIds == old(dataBlockWithKeywordsIds)
    {
      var u := p.UnitAt(uid);
      var status := jimpleSelector.JudgeJimpleInitially(u);
      if status == JimpleSelector.JimpleNotInterested {
        return Success(());
      }
      var unitNum := unitNumTags[uid];
      r := InspectHashMapUse(uid, u);
      if r.Failure? {
        return;
      }
      r := InspectKeywordUse(uid, u, status, unitNum, curClass, pointsTo);
    }
  
    /** inspectJimpleStatement seen from the scan loops: the invariant it keeps and the hit it records. */
    method InspectUnit(p: Program, uid: UnitId, curClass: Class, pointsTo: map<UnitId, string>,
                       ghost hk: UnitId -> Option<string>)
      returns (r: Result<()>)
      requires Valid() && uid in unitNumTags && HitKeysOf(p, hk)
      modifies this`jimpleUsingHashMap, this`keyTaintedVars, this`dataBlockStatement, this`dataBlockRawStat,
        this`jimpleWithKeywords, this`jimpleHit, this`keywordsHit, this`keywordsInPackage,
        this`keywordsInAppPackage, this`keywordsInLibPackage, this`dataBlockWithKeywordsIds, store
      ensures Valid()
      ensures r.Success? ==>
        jimpleHit == old(jimpleHit) + UnitHits(hk, uid, unitNumTags) && keywordsHit == old(keywordsHit) + UnitKeywords(hk, uid)
    {
      assert hk(uid) == HitKey(p, uid);
      r := InspectJimpleStatement(p, uid, curClass, pointsTo);
    }

    /**
     * The unit loop both scans share: each unit gets the next unitNum tag
     * (getTag keeps answering a unit's first one) and is inspected.
     */
    method ScanBody(p: Program, units: seq<UnitId>, curClass: Class, pointsTo: map<UnitId, string>,
                    ghost tags0: map<UnitId, nat>, ghost done: seq<UnitId>, unitNum0: nat, ghost hk: UnitId -> Option<string>)
      returns (r: Result<()>, unitNum: nat)
      requires Valid() && unitNum0 == |done| && unitNumTags == Numbered(tags0, done) && HitKeysOf(p, hk)
      modifies this`unitNumTags, this`jimpleUsingHashMap, this`keyTaintedVars, this`dataBlockStatement,
        this`dataBlockRawStat, this`jimpleWithKeywords, this`jimpleHit, this`keywordsHit, this`keywordsInPackage,
        this`keywordsInAppPackage, this`keywordsInLibPackage, this`dataBlockWithKeywordsIds, store
      ensures Valid()
      ensures r.Success? ==> unitNum == |done + units| && unitNumTags == Numbered(tags0, done + units)
      ensures r.Success? ==>
        Recorded(hk, old(jimpleHit), old(keywordsHit), units)
    {
      unitNum := unitNum0;
      ghost var h0, k0 := jimpleHit, keywordsHit;
      assert done + units[..0] == done;
      for i := 0 to |units|
        invariant Valid()
        invariant unitNum == |done + units[..i]|
        invariant unitNumTags == Numbered(tags0, done + units[..i])
        invariant Recorded(hk, h0, k0, units[..i])
      {
        r, unitNum := ScanUnit(p, units, i, curClass, pointsTo, tags0, done, h0, k0, unitNum, hk);
        if r.Failure? {
          return;
        }
      }
      assert units[..|units|] == units;
      r := Success(());
    }

    /** One step of the unit loop: the unit gets the next tag unless it has one, and is inspected. */
    method ScanUnit(p: Program, units: seq<UnitId>, i: nat, curClass: Class, pointsTo: map<UnitId, string>,
                    ghost tags0: map<UnitId, nat>, ghost done: seq<UnitId>,
                    ghost h0: seq<JimpleHit>, ghost k0: set<string>, unitNum0: nat, ghost hk: UnitId -> Option<string>)
      returns (r: Result<()>, unitNum: nat)
      requires Valid() && i < |units| && unitNum0 == |done + units[..i]| && HitKeysOf(p, hk)
      requires unitNumTags == Numbered(tags0, done + units[..i]) && Recorded(hk, h0, k0, units[..i])
      modifies this`unitNumTags, this`jimpleUsingHashMap, this`keyTaintedVars, this`dataBlockStatement,
        this`dataBlockRawStat, this`jimpleWithKeywords, this`jimpleHit, this`keywordsHit, this`keywordsInPackage,
        this`keywordsInAppPackage, this`keywordsInLibPackage, this`dataBlockWithKeywordsIds, store
      ensures Valid() && unitNum == |done + units[..i + 1]|
      ensures r.Success? ==> unitNumTags == Numbered(tags0, done + units[..i + 1]) && Recorded(hk, h0, k0, units[..i + 1])
    {
      var curUnit := units[i];
      assert (done + units[..i + 1])[..|done + units[..i + 1]| - 1] == done + units[..i];
      ScanHitsUnitStep(hk, tags0, done, units, i, h0, k0);
      if curUnit !in unitNumTags {
        unitNumTags := unitNumTags[curUnit := unitNum0];
      }
      unitNum := unitNum0 + 1;
      r := InspectUnit(p, curUnit, curClass, pointsTo, hk);
    }

    /** The method loop of scanJimple: the units of every method of the class that has a body. */
    method ScanMethods(p: Program, curClass: Class, pointsTo: map<UnitId, string>,
                       ghost tags0: map<UnitId, nat>, ghost before: seq<UnitId>, unitNum0: nat,
                       ghost hk: UnitId -> Option<string>)
      returns (r: Result<()>, unitNum: nat)
      requires Valid() && unitNum0 == |before| && unitNumTags == Numbered(tags0, before) && HitKeysOf(p, hk)
      modifies this`unitNumTags, this`jimpleUsingHashMap, this`keyTaintedVars, this`dataBlockStatement,
        this`dataBlockRawStat, this`jimpleWithKeywords, this`jimpleHit, this`keywordsHit, this`keywordsInPackage,
        this`keywordsInAppPackage, this`keywordsInLibPackage, this`dataBlockWithKeywordsIds, store
      ensures Valid()
      ensures r.Success? ==>
        unitNum == |before + MethodsUnits(p, curClass.methods)|
        && unitNumTags == Numbered(tags0, before + MethodsUnits(p, curClass.methods))
      ensures r.Success? ==>
        Recorded(hk, old(jimpleHit), old(keywordsHit), MethodsUnits(p, curClass.methods))
    {
      unitNum := unitNum0;
      ghost var h0, k0 := jimpleHit, keywordsHit;
      var methods := curClass.methods;
      assert methods[..0] == [] && before + MethodsUnits(p, methods[..0]) == before;
      assert jimpleHit == h0 + ScanHits(hk, [], unitNumTags) && keywordsHit == k0 + ScanKeywords(hk, []);
      for mi := 0 to |methods|
        invariant Valid()
        invariant unitNum == |before + MethodsUnits(p, methods[..mi])|
        invariant unitNumTags == Numbered(tags0, before + MethodsUnits(p, methods[..mi]))
        invariant Recorded(hk, h0, k0, MethodsUnits(p, methods[..mi]))
      {
        r, unitNum := ScanMethodAt(p, methods, mi, curClass, pointsTo, tags0, before, h0, k0, unitNum, hk);
        if r.Failure? {
          return;
        }
      }
      assert methods[..|methods|] == methods;
      r := Success(());
    }

    /** One step of the method loop: a method without body is skipped, otherwise its units are scanned. */
    method ScanMethodAt(p: Program, methods: seq<MethodId>, mi: nat, curClass: Class, pointsTo: map<UnitId, string>,
                        ghost tags0: map<UnitId, nat>, ghost before: seq<UnitId>,
                        ghost h0: seq<JimpleHit>, ghost k0: set<string>, unitNum0: nat, ghost hk: UnitId -> Option<string>)
      returns (r: Result<()>, unitNum: nat)
      requires Valid() && mi < |methods| && HitKeysOf(p, hk)
      requires unitNum0 == |before + MethodsUnits(p, methods[..mi])|
      requires unitNumTags == Numbered(tags0, before + MethodsUnits(p, methods[..mi]))
      requires Recorded(hk, h0, k0, MethodsUnits(p, methods[..mi]))
      modifies this`unitNumTags, this`jimpleUsingHashMap, this`keyTaintedVars, this`dataBlockStatement,
        this`dataBlockRawStat, this`jimpleWithKeywords, this`jimpleHit, this`keywordsHit, this`keywordsInPackage,
        this`keywordsInAppPackage, this`keywordsInLibPackage, this`dataBlockWithKeywordsIds, store
      ensures Valid()
      ensures r.Success? ==>
        unitNum == |before + MethodsUnits(p, methods[..mi + 1])|
        && unitNumTags == Numbered(tags0, before + MethodsUnits(p, methods[..mi + 1]))
        && Recorded(hk, h0, k0, MethodsUnits(p, methods[..mi + 1]))
    {
      assert methods[..mi + 1][..mi] == methods[..mi];
      var m := p.MethodAt(methods[mi]);
      if m.body.None? {
        assert MethodsUnits(p, methods[..mi + 1]) == MethodsUnits(p, methods[..mi]) + [];
        assert MethodsUnits(p, methods[..mi]) + [] == MethodsUnits(p, methods[..mi]);
        return Success(()), unitNum0;
      }
      ghost var done := before + MethodsUnits(p, methods[..mi]);
      assert MethodsUnits(p, methods[..mi]) + m.body.value == MethodsUnits(p, methods[..mi + 1]);
      assert done + m.body.value == before + MethodsUnits(p, methods[..mi + 1]);
      ScanHitsThrough(hk, tags0, before, MethodsUnits(p, methods[..mi]), m.body.value, h0, k0);
      r, unitNum := ScanBody(p, m.body.value, curClass, pointsTo, tags0, done, unitNum0, hk);
    }

    /** One class of scanJimple: a system package is skipped, otherwise its package is recorded and its methods scanned. */
    method ScanClass(p: Program, curClass: Class, pointsTo: map<UnitId, string>,
                     ghost tags0: map<UnitId, nat>, ghost before: seq<UnitId>, unitNum0: nat,
                     ghost hk: UnitId -> Option<string>)
      returns (r: Result<()>, unitNum: nat)
      requires Valid() && unitNum0 == |before| && unitNumTags == Numbered(tags0, before) && HitKeysOf(p, hk)
      modifies this`unitNumTags, this`libraryPackageName, this`jimpleUsingHashMap, this`keyTaintedVars,
        this`dataBlockStatement, this`dataBlockRawStat, this`jimpleWithKeywords, this`jimpleHit, this`keywordsHit,
        this`keywordsInPackage, this`keywordsInAppPackage, this`keywordsInLibPackage, this`dataBlockWithKeywordsIds, store
      ensures Valid()
      ensures r.Success? ==>
        unitNum == |before + ClassUnits(p, curClass)| && unitNumTags == Numbered(tags0, before + ClassUnits(p, curClass))
        && libraryPackageName == old(libraryPackageName) + ClassPackages(curClass, companyId)
      ensures r.Success? ==>
        Recorded(hk, old(jimpleHit), old(keywordsHit), ClassUnits(p, curClass))
    {
      var system := IsSystemPackage(curClass.packageName);
      if system {
        assert before + ClassUnits(p, curClass) == before;
        return Success(()), unitNum0;
      }
      assert ClassUnits(p, curClass) == MethodsUnits(p, curClass.methods);
      assert ClassPackages(curClass, companyId) == PackageSet(LibPackage(curClass.packageName, companyId));
      InspectPackageName(curClass.packageName);
      ValidKept();
      r, unitNum := ScanMethods(p, curClass, pointsTo, tags0, before, unitNum0, hk);
    }

    /** One step of the class loop of scanJimple. */
    method ScanClassAt(p: Program, classes: seq<ClassId>, ci: nat, pointsTo: map<UnitId, string>,
                       ghost tags0: map<UnitId, nat>, ghost libs0: set<string>,
                       ghost h0: seq<JimpleHit>, ghost k0: set<string>, unitNum0: nat, ghost hk: UnitId -> Option<string>)
      returns (r: Result<()>, unitNum: nat)
      requires Valid() && ci < |classes| && HitKeysOf(p, hk)
      requires unitNum0 == |ClassesUnits(p, classes[..ci])| && unitNumTags == Numbered(tags0, ClassesUnits(p, classes[..ci]))
      requires libraryPackageName == libs0 + ClassesPackages(p, classes[..ci], companyId)
      requires Recorded(hk, h0, k0, ClassesUnits(p, classes[..ci]))
      modifies this`unitNumTags, this`libraryPackageName, this`jimpleUsingHashMap, this`keyTaintedVars,
        this`dataBlockStatement, this`dataBlockRawStat, this`jimpleWithKeywords, this`jimpleHit, this`keywordsHit,
        this`keywordsInPackage, this`keywordsInAppPackage, this`keywordsInLibPackage, this`dataBlockWithKeywordsIds, store
      ensures Valid()
      ensures r.Success? ==>
        unitNum == |ClassesUnits(p, classes[..ci + 1])| && unitNumTags == Numbered(tags0, ClassesUnits(p, classes[..ci + 1]))
        && libraryPackageName == libs0 + ClassesPackages(p, classes[..ci + 1], companyId)
        && Recorded(hk, h0, k0, ClassesUnits(p, classes[..ci + 1]))
    {
      var curClass := p.ClassAt(classes[ci]);
      ghost var done := ClassesUnits(p, classes[..ci]);
      ghost var libs := libraryPackageName;
      assert [] + done == done;
      ScanHitsThrough(hk, tags0, [], done, ClassUnits(p, curClass), h0, k0);
      ClassesStep(p, classes, ci, companyId);
      r, unitNum := ScanClass(p, curClass, pointsTo, tags0, done, unitNum0, hk);
    }

    /** scanJimple: the classes in scene order, skipping system packages and methods without body. */
    method ScanJimple(p: Program, pointsTo: map<UnitId, string>, ghost hk: UnitId -> Option<string>) returns (r: Result<()>)
      requires Valid() && HitKeysOf(p, hk)
      modifies this`unitNumTags, this`libraryPackageName, this`jimpleUsingHashMap, this`keyTaintedVars,
        this`dataBlockStatement, this`dataBlockRawStat, this`jimpleWithKeywords, this`jimpleHit, this`keywordsHit,
        this`keywordsInPackage, this`keywordsInAppPackage, this`keywordsInLibPackage, this`dataBlockWithKeywordsIds, store
      ensures Valid()
      ensures r.Success? ==> unitNumTags == Numbered(old(unitNumTags), ClassesUnits(p, p.classOrder))
      ensures r.Success? ==> libraryPackageName == old(libraryPackageName) + ClassesPackages(p, p.classOrder, companyId)
      ensures r.Success? ==>
        Recorded(hk, old(jimpleHit), old(keywordsHit), ClassesUnits(p, p.classOrder))
    {
      var unitNum := 0;
      ghost var tags0 := unitNumTags;
      ghost var libs0 := libraryPackageName;
      ghost var h0, k0 := jimpleHit, keywordsHit;
      var classes := p.classOrder;
      assert classes[..0] == [];
      assert jimpleHit == h0 + ScanHits(hk, [], unitNumTags) && keywordsHit == k0 + ScanKeywords(hk, []);
      for ci := 0 to |classes|
        invariant Valid()
        invariant unitNum == |ClassesUnits(p, classes[..ci])|
        invariant unitNumTags == Numbered(tags0, ClassesUnits(p, classes[..ci]))
        invariant libraryPackageName == libs0 + ClassesPackages(p, classes[..ci], companyId)
        invariant Recorded(hk, h0, k0, ClassesUnits(p, classes[..ci]))
      {
        r, unitNum := ScanClassAt(p, classes, ci, pointsTo, tags0, libs0, h0, k0, unitNum, hk);
        if r.Failure? {
          return;
        }
      }
      assert classes[..|classes|] == classes;
      r := Success(());
    }

    /** One reachable method: skipped without body or in a system package, otherwise its package is recorded and its body scanned. */
    method ScanReachableMethod(p: Program, mid: MethodId, pointsTo: map<UnitId, string>,
                               ghost tags0: map<UnitId, nat>, ghost before: seq<UnitId>, unitNum0: nat,
                               ghost hk: UnitId -> Option<string>)
      returns (r: Result<()>, unitNum: nat)
      requires Valid() && unitNum0 == |before| && unitNumTags == Numbered(tags0, before) && HitKeysOf(p, hk)
      modifies this`unitNumTags, this`libraryPackageName, this`jimpleUsingHashMap, this`keyTaintedVars,
        this`dataBlockStatement, this`dataBlockRawStat, this`jimpleWithKeywords, this`jimpleHit, this`keywordsHit,
        this`keywordsInPackage, this`keywordsInAppPackage, this`keywordsInLibPackage, this`dataBlockWithKeywordsIds, store
      ensures Valid()
      ensures r.Success? ==>
        unitNum == |before + ReachableMethodUnits(p, mid)| && unitNumTags == Numbered(tags0, before + ReachableMethodUnits(p, mid))
        && libraryPackageName == old(libraryPackageName) + ReachableMethodPackages(p, mid, companyId)
      ensures r.Success? ==>
        Recorded(hk, old(jimpleHit), old(keywordsHit), ReachableMethodUnits(p, mid))
    {
      var m := p.MethodAt(mid);
      if m.body.None? {
        assert before + ReachableMethodUnits(p, mid) == before;
        return Success(()), unitNum0;
      }
      var curClass := p.ClassAt(m.declaringClass);
      var system := IsSystemPackage(curClass.packageName);
      if system {
        assert before + ReachableMethodUnits(p, mid) == before;
        return Success(()), unitNum0;
      }
      assert ReachableMethodUnits(p, mid) == m.body.value;
      assert ReachableMethodPackages(p, mid, companyId) == PackageSet(LibPackage(curClass.packageName, companyId));
      r, unitNum := ScanMethodBody(p, m.body.value, curClass, pointsTo, tags0, before, unitNum0, hk);
    }

    /** Valid() reads none of the fields a package lookup changes. */
    twostate lemma ValidKept()
      requires old(Valid())
      requires unchanged(store, this`keywordsInPackage, this`keywordsInAppPackage, this`keywordsInLibPackage,
        this`jimpleWithKeywords, this`jimpleHit, this`keywordsHit, this`dataBlockStatement,
        this`dataBlockRawStat, this`dataBlockWithKeywordsIds, this`keyTaintedVars)
      ensures Valid()
    {
    }

    /** A reachable method that is not skipped: its class's package is recorded and its body scanned. */
    method ScanMethodBody(p: Program, body: seq<UnitId>, curClass: Class, pointsTo: map<UnitId, string>,
                          ghost tags0: map<UnitId, nat>, ghost before: seq<UnitId>, unitNum0: nat,
                          ghost hk: UnitId -> Option<string>)
      returns (r: Result<()>, unitNum: nat)
      requires Valid() && unitNum0 == |before| && unitNumTags == Numbered(tags0, before) && HitKeysOf(p, hk)
      modifies this`unitNumTags, this`libraryPackageName, this`jimpleUsingHashMap, this`keyTaintedVars,
        this`dataBlockStatement, this`dataBlockRawStat, this`jimpleWithKeywords, this`jimpleHit, this`keywordsHit,
        this`keywordsInPackage, this`keywordsInAppPackage, this`keywordsInLibPackage, this`dataBlockWithKeywordsIds, store
      ensures libraryPackageName == old(libraryPackageName) + PackageSet(LibPackage(curClass.packageName, companyId))
      ensures Valid()
      ensures r.Success? ==>
        unitNum == |before + body| && unitNumTags == Numbered(tags0, before + body)
        && Recorded(hk, old(jimpleHit), old(keywordsHit), body)
    {
      InspectPackageName(curClass.packageName);
      ValidKept();
      r, unitNum := ScanBody(p, body, curClass, pointsTo, tags0, before, unitNum0, hk);
    }

    /** One step of the method loop of scanJimpleReachableOnly. */
    method ScanReachableAt(p: Program, methods: seq<MethodId>, mi: nat, pointsTo: map<UnitId, string>,
                           ghost tags0: map<UnitId, nat>, ghost libs0: set<string>,
                           ghost h0: seq<JimpleHit>, ghost k0: set<string>, unitNum0: nat, ghost hk: UnitId -> Option<string>)
      returns (r: Result<()>, unitNum: nat)
      requires Valid() && mi < |methods| && HitKeysOf(p, hk)
      requires unitNum0 == |ReachableUnits(p, methods[..mi])| && unitNumTags == Numbered(tags0, ReachableUnits(p, methods[..mi]))
      requires libraryPackageName == libs0 + ReachablePackages(p, methods[..mi], companyId)
      requires Recorded(hk, h0, k0, ReachableUnits(p, methods[..mi]))
      modifies this`unitNumTags, this`libraryPackageName, this`jimpleUsingHashMap, this`keyTaintedVars,
        this`dataBlockStatement, this`dataBlockRawStat, this`jimpleWithKeywords, this`jimpleHit, this`keywordsHit,
        this`keywordsInPackage, this`keywordsInAppPackage, this`keywordsInLibPackage, this`dataBlockWithKeywordsIds, store
      ensures Valid()
      ensures r.Success? ==>
        unitNum == |ReachableUnits(p, methods[..mi + 1])| && unitNumTags == Numbered(tags0, ReachableUnits(p, methods[..mi + 1]))
        && libraryPackageName == libs0 + ReachablePackages(p, methods[..mi + 1], companyId)
        && Recorded(hk, h0, k0, ReachableUnits(p, methods[..mi + 1]))
    {
      ghost var done := ReachableUnits(p, methods[..mi]);
      ghost var libs := libraryPackageName;
      assert [] + done == done;
      ScanHitsThrough(hk, tags0, [], done, ReachableMethodUnits(p, methods[mi]), h0, k0);
      ReachableStep(p, methods, mi, companyId);
      r, unitNum := ScanReachableMethod(p, methods[mi], pointsTo, tags0, done, unitNum0, hk);
    }

    /** scanJimpleReachableOnly: the reachable methods in listener order. */
    method ScanJimpleReachableOnly(p: Program, pointsTo: map<UnitId, string>, ghost hk: UnitId -> Option<string>) returns (r: Result<()>)
      requires Valid() && HitKeysOf(p, hk)
      modifies this`unitNumTags, this`libraryPackageName, this`jimpleUsingHashMap, this`keyTaintedVars,
        this`dataBlockStatement, this`dataBlockRawStat, this`jimpleWithKeywords, this`jimpleHit, this`keywordsHit,
        this`keywordsInPackage, this`keywordsInAppPackage, this`keywordsInLibPackage, this`dataBlockWithKeywordsIds, store
      ensures Valid()
      ensures r.Success? ==> unitNumTags == Numbered(old(unitNumTags), ReachableUnits(p, p.reachable))
      ensures r.Success? ==> libraryPackageName == old(libraryPackageName) + ReachablePackages(p, p.reachable, companyId)
      ensures r.Success? ==>
        Recorded(hk, old(jimpleHit), old(keywordsHit), ReachableUnits(p, p.reachable))
    {
      var unitNum := 0;
      ghost var tags0 := unitNumTags;
      ghost var libs0 := libraryPackageName;
      ghost var h0, k0 := jimpleHit, keywordsHit;
      var methods := p.reachable;
      assert methods[..0] == [];
      assert jimpleHit == h0 + ScanHits(hk, [], unitNumTags) && keywordsHit == k0 + ScanKeywords(hk, []);
      for mi := 0 to |methods|
        invariant Valid()
        invariant unitNum == |ReachableUnits(p, methods[..mi])|
        invariant unitNumTags == Numbered(tags0, ReachableUnits(p, methods[..mi]))
        invariant libraryPackageName == libs0 + ReachablePackages(p, methods[..mi], companyId)
        invariant Recorded(hk, h0, k0, ReachableUnits(p, methods[..mi]))
      {
        r, unitNum := ScanReachableAt(p, methods, mi, pointsTo, tags0, libs0, h0, k0, unitNum, hk);
        if r.Failure? {
          return;
        }
      }
      assert methods[..|methods|] == methods;
      r := Success(());
    }

    /** pickOutRawStatInDataBlocksWithKeywords: for each raw statement, one copy per matching id, which is at most one. */
    method PickOutRawStatInDataBlocksWithKeywords() returns (rawStatList: seq<DataBlockRawStat>)
      ensures rawStatList == WithIds(dataBlockRawStat, dataBlockWithKeywordsIds)
    {
      rawStatList := [];
      for i := 0 to |dataBlockRawStat|
        invariant rawStatList == WithIds(dataBlockRawStat[..i], dataBlockWithKeywordsIds)
      {
        assert dataBlockRawStat[..i + 1][..i] == dataBlockRawStat[..i];
        var dataBlockStat := dataBlockRawStat[i];
        var remaining := dataBlockWithKeywordsIds;
        ghost var before := rawStatList;
        while remaining != {}
          invariant remaining <= dataBlockWithKeywordsIds
          invariant rawStatList
            == before + (if dataBlockStat.dataBlockId in dataBlockWithKeywordsIds - remaining then [dataBlockStat] else [])
          decreases remaining
        {
          var dataBlockWithKeywordsId :| dataBlockWithKeywordsId in remaining;
          if dataBlockStat.dataBlockId == dataBlockWithKeywordsId {
            rawStatList := rawStatList + [dataBlockStat];
          }
          remaining := remaining - {dataBlockWithKeywordsId};
        }
      }
      assert dataBlockRawStat[..|dataBlockRawStat|] == dataBlockRawStat;
    }

    /** getDataBlockWithKeywords as written: a line is kept once for every id it starts with. */
    method GetDataBlockWithKeywords() returns (lines: seq<string>)
      ensures lines == LinesStartingWithIds(dataBlockStatement, dataBlockWithKeywordsIds)
    {
      lines := [];
      for i := 0 to |dataBlockStatement|
        invariant lines == LinesStartingWithIds(dataBlockStatement[..i], dataBlockWithKeywordsIds)
      {
        assert dataBlockStatement[..i + 1][..i] == dataBlockStatement[..i];
        lines := AddLinePerMatchingId(lines, dataBlockStatement[i], dataBlockWithKeywordsIds);
      }
      assert dataBlockStatement[..|dataBlockStatement|] == dataBlockStatement;
    }
  
    /** getDataBlockWithKeywords as evidently intended: a line is kept, once, when its own object id is listed. */
    method GetLinesOfDataBlocksWithKeywords() returns (lines: seq<string>)
      ensures lines == LinesOfBlocks(dataBlockStatement, dataBlockWithKeywordsIds)
    {
      lines := [];
      for i := 0 to |dataBlockStatement|
        invariant lines == LinesOfBlocks(dataBlockStatement[..i], dataBlockWithKeywordsIds)
      {
        assert dataBlockStatement[..i + 1][..i] == dataBlockStatement[..i];
        var statement := dataBlockStatement[i];
        var comma := IndexOfChar(statement, ',', 0);
        var objectId := if comma < 0 then statement else statement[..comma];
        if objectId in dataBlockWithKeywordsIds {
          lines := lines + [statement];
        }
      }
      assert dataBlockStatement[..|dataBlockStatement|] == dataBlockStatement;
    }

    /** getSimplfiedDataBlocks: "id,key" for each raw statement with a valid key; an unusable key raises. */
    method GetSimplfiedDataBlocks(p: Program) returns (r: Result<set<string>>)
      ensures r == SimplifiedDataBlocks(p, dataBlockWithKeywordsRawStat)
    {
      var dataBlockStat: set<string> := {};
      var raws := dataBlockWithKeywordsRawStat;
      for i := 0 to |raws|
        invariant SimplifiedDataBlocks(p, raws[..i]) == Success(dataBlockStat)
      {
        SimplifiedStep(p, raws, i, dataBlockStat);
        var constKey := ExtractValidKeyArgOfStat(p.StmtOf(raws[i].statement));
        if constKey.Failure? {
          SimplifiedPrefixFails(p, raws, i + 1);
          return Failure(constKey.error);
        }
        if constKey.value.None? {
          continue;
        }
        dataBlockStat := dataBlockStat + {raws[i].dataBlockId + [','] + constKey.value.value};
      }
      assert raws[..|raws|] == raws;
      return Success(dataBlockStat);
    }

    /**
     * getKeywordsInDataBlocks: the valid keys of the raw statements are
     * counted (a raw key once per occurrence) and listed by non-increasing
     * count under their unescaped spelling; an unusable key raises.
     */
    method GetKeywordsInDataBlocks(p: Program) returns (r: Result<seq<WordCounter.Entry>>)
      ensures r.Failure? <==> ValidKeys(p, dataBlockWithKeywordsRawStat).Failure?
      ensures r.Failure? ==> r.error == ValidKeys(p, dataBlockWithKeywordsRawStat).error
      ensures r.Success? ==>
        var counts := WordCounter.Tally(ValidKeys(p, dataBlockWithKeywordsRawStat).value);
        && (exists entries :: WordCounter.IsEntryList(counts, entries) && r.value == WordCounter.PutUnescaped(WordCounter.SortDesc(entries)))
        && WordCounter.DistinctKeys(r.value)
        && WordCounter.KeySet(r.value) == WordCounter.UnescapedMapKeys(counts)
        && (forall i :: 0 <= i < |r.value| ==> exists k :: k in counts && r.value[i] == (Unescape(k), counts[k]))
        && ((forall k1, k2 :: k1 in counts && k2 in counts && k1 != k2 ==> Unescape(k1) != Unescape(k2))
            ==> (WordCounter.NonIncreasing(r.value) && |r.value| == |counts|
              && forall k :: k in counts ==> (Unescape(k), counts[k]) in r.value))
    {
      var keywordCounter := new WordCounter.WordCounter();
      var failure := CountValidKeys(p, dataBlockWithKeywordsRawStat, keywordCounter);
      if failure.Some? {
        return Failure(failure.value);
      }
      var list := keywordCounter.GetListInDesc();
      return Success(list);
    }

    /** The counting loop of getKeywordsInDataBlocks: each raw statement's valid key is counted; a failing key raises. */
    method CountValidKeys(p: Program, raws: seq<DataBlockRawStat>, keywordCounter: WordCounter.WordCounter)
      returns (failure: Option<string>)
      requires keywordCounter.keywordsStat == map[]
      modifies keywordCounter
      ensures failure.Some? <==> ValidKeys(p, raws).Failure?
      ensures failure.Some? ==> failure.value == ValidKeys(p, raws).error
      ensures failure.None? ==> keywordCounter.keywordsStat == WordCounter.Tally(ValidKeys(p, raws).value)
    {
      for i := 0 to |raws|
        invariant ValidKeys(p, raws[..i]).Success?
        invariant keywordCounter.keywordsStat == WordCounter.Tally(ValidKeys(p, raws[..i]).value)
      {
        ValidKeysStep(p, raws, i);
        var firstArgInStr := ExtractValidKeyArgOfStat(p.StmtOf(raws[i].statement));
        if firstArgInStr.Failure? {
          ValidKeysPrefixFails(p, raws, i + 1);
          return Some(firstArgInStr.error);
        }
        if firstArgInStr.value.None? {
          continue;
        }
        var key := firstArgInStr.value.value;
        ghost var keys := ValidKeys(p, raws[..i]).value;
        ghost var before := keywordCounter.keywordsStat;
        WordCounter.TallySnoc(keys, key);
        assert ValidKeys(p, raws[..i + 1]).value == keys + [key];
        assert WordCounter.Tally(keys + [key]) == before[key := (if key in before then before[key] else 0) + 1];
        keywordCounter.Count(key);
      }
      assert raws[..|raws|] == raws;
      return None;
    }

    /** The end of the constructor: the keyword blocks' raw statements are picked out, then the lines sorted. */
    method PickOutAndSort()
      modifies this`dataBlockWithKeywordsRawStat, this`dataBlockStatement
      ensures dataBlockWithKeywordsRawStat == WithIds(dataBlockRawStat, dataBlockWithKeywordsIds)
      ensures dataBlockStatement == SortLines(old(dataBlockStatement))
    {
      var picked := PickOutRawStatInDataBlocksWithKeywords();
      dataBlockWithKeywordsRawStat := picked;
      dataBlockStatement := SortLines(dataBlockStatement);
    }

    /** HitKeys(p) is the function value HitKeysOf asks for. */
    lemma HitKeysOfHitKeys(p: Program)
      ensures HitKeysOf(p, HitKeys(p))
    {
    }

    /** The scan of the constructor: scanJimpleReachableOnly or scanJimple, as Config.reachableMethodsOnly says. */
    method ScanSelected(p: Program, pointsTo: map<UnitId, string>, reachableMethodsOnly: bool, ghost hk: UnitId -> Option<string>)
      returns (r: Result<()>)
      requires Valid() && HitKeysOf(p, hk)
      modifies this`unitNumTags, this`libraryPackageName, this`jimpleUsingHashMap, this`keyTaintedVars,
        this`dataBlockStatement, this`dataBlockRawStat, this`jimpleWithKeywords, this`jimpleHit, this`keywordsHit,
        this`keywordsInPackage, this`keywordsInAppPackage, this`keywordsInLibPackage, this`dataBlockWithKeywordsIds, store
      ensures Valid()
      ensures r.Success? ==> unitNumTags == Numbered(old(unitNumTags), ScannedUnits(p, reachableMethodsOnly))
      ensures r.Success? ==>
        libraryPackageName == old(libraryPackageName) + ScannedPackages(p, reachableMethodsOnly, companyId)
      ensures r.Success? ==>
        Recorded(hk, old(jimpleHit), old(keywordsHit), ScannedUnits(p, reachableMethodsOnly))
    {
      if reachableMethodsOnly {
        r := ScanJimpleReachableOnly(p, pointsTo, hk);
      } else {
        r := ScanJimple(p, pointsTo, hk);
      }
    }
  }

  /** The statements scanned: the reachable methods or all classes, as Config.reachableMethodsOnly says. */
  function ScannedUnits(p: Program, reachableMethodsOnly: bool): seq<UnitId>
  {
    if reachableMethodsOnly then ReachableUnits(p, p.reachable) else ClassesUnits(p, p.classOrder)
  }

  function ScannedPackages(p: Program, reachableMethodsOnly: bool, companyId: string): set<string>
  {
    if reachableMethodsOnly then ReachablePackages(p, p.reachable, companyId) else ClassesPackages(p, p.classOrder, companyId)
  }

  /**
   * new KeywordInspector(keywordList): the scan Config.reachableMethodsOnly
   * selects, the pick-out and the sort. An exception during the scan is a
   * Failure.
   */
  method NewKeywordInspector(keywordList: KeywordList.KeywordList, stem: string -> string,
                             jimpleSelector: JimpleSelector.JimpleSelector, companyId: string,
                             recordJimpleUsingHashMap: bool, reachableMethodsOnly: bool,
                             store: TagStore, p: Program, pointsTo: map<UnitId, string>)
    returns (r: Result<KeywordInspector>)
    requires jimpleSelector.Valid() && store.Valid()
    modifies store
    ensures store.Valid()
    ensures r.Success? ==> fresh(r.value) && r.value.store == store && r.value.companyId == companyId
    ensures r.Success? ==> r.value.unitNumTags == Numbered(map[], ScannedUnits(p, reachableMethodsOnly))
    ensures r.Success? ==> r.value.libraryPackageName == ScannedPackages(p, reachableMethodsOnly, companyId)
    ensures r.Success? ==>
      r.value.jimpleHit == ScanHits(r.value.HitKeys(p), ScannedUnits(p, reachableMethodsOnly), r.value.unitNumTags)
      && r.value.keywordsHit == ScanKeywords(r.value.HitKeys(p), ScannedUnits(p, reachableMethodsOnly))
    ensures r.Success? ==>
      r.value.dataBlockWithKeywordsRawStat == WithIds(r.value.dataBlockRawStat, r.value.dataBlockWithKeywordsIds)
    ensures r.Success? ==>
      LinesSorted(r.value.dataBlockStatement) && |r.value.dataBlockStatement| == |r.value.dataBlockRawStat|
      && forall i :: 0 <= i < |r.value.dataBlockStatement| ==>
           LineOfSomeBlock(r.value.dataBlockStatement[i], r.value.dataBlockRawStat)
    ensures r.Success? ==>
      PackagesSplit(r.value.keywordsInPackage, r.value.keywordsInAppPackage, r.value.keywordsInLibPackage, companyId)
      && HitsRecorded(r.value.jimpleWithKeywords, r.value.jimpleHit, r.value.keywordsHit)
      && r.value.dataBlockWithKeywordsIds <= RawIds(r.value.dataBlockRawStat)
  {
    var inspector := new KeywordInspector(keywordList, stem, jimpleSelector, companyId, recordJimpleUsingHashMap, store);
    inspector.HitKeysOfHitKeys(p);
    var scanned := inspector.ScanSelected(p, pointsTo, reachableMethodsOnly, inspector.HitKeys(p));
    if scanned.Failure? {
      return Failure(scanned.error);
    }
    ghost var units := ScannedUnits(p, reachableMethodsOnly);
    assert inspector.jimpleHit == ScanHits(inspector.HitKeys(p), units, inspector.unitNumTags) by {
      assert [] + ScanHits(inspector.HitKeys(p), units, inspector.unitNumTags) == ScanHits(inspector.HitKeys(p), units, inspector.unitNumTags);
    }
    ghost var lines := inspector.dataBlockStatement;
    inspector.PickOutAndSort();
    SortLinesSortedPerm(lines);
    ReorderedLinesOfBlocks(lines, inspector.dataBlockRawStat, inspector.dataBlockStatement);
    return Success(inspector);
  }
}
