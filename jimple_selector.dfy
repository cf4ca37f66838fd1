/**
 * JimpleSelector: the quick three-way classification of a statement, the slow
 * libraries check, and the set-up that turns a filter switch off when its
 * list file is missing. The Config switches are explicit values here; the
 * selector keeps the value each switch has once set-up is over.
 */
module JimpleSelector {
  import opened Wrappers
  import opened JavaString
  import opened ListFiles
  import opened Jimple
  import InterestedApiList
  import LibrariesList

  datatype JimpleInitialJudgeStatus = JimpleNotInterested | JimpleNeedDetailInspection | JimpleDefiniteHit

  const JavaLangString := "java.lang.String"

  /** Some entry of list is a substring of text. */
  predicate MentionsAny(text: string, list: seq<string>)
  {
    exists j :: 0 <= j < |list| && Contains(text, list[j])
  }

  /** isInvokeStmtContainKeyValue: a non-special invoke with exactly two arguments, the first a String. */
  predicate IsKeyValueInvoke(e: InvokeExpr)
  {
    e.kind != SpecialInvoke && |e.args| == 2 && e.args[0].typeName == JavaLangString
  }

  /** judgeJimpleInitially, given the interested-API switch and list. */
  function InitialStatus(u: Unit, interestedApiOnly: bool, apiList: seq<string>): (r: JimpleInitialJudgeStatus)
    ensures !u.stmt.InvokeStmt? ==> r == JimpleNotInterested
    ensures u.stmt.InvokeStmt? && IsKeyValueInvoke(u.stmt.invoke) ==> r == JimpleDefiniteHit
    ensures r == JimpleDefiniteHit <==> u.stmt.InvokeStmt? && IsKeyValueInvoke(u.stmt.invoke)
    ensures r == JimpleNotInterested <==>
      !u.stmt.InvokeStmt? || (!IsKeyValueInvoke(u.stmt.invoke) && interestedApiOnly && !MentionsAny(u.text, apiList))
    ensures r == JimpleNeedDetailInspection ==> !interestedApiOnly || MentionsAny(u.text, apiList)
  {
    if !u.stmt.InvokeStmt? then JimpleNotInterested
    else if IsKeyValueInvoke(u.stmt.invoke) then JimpleDefiniteHit
    else if interestedApiOnly && !MentionsAny(u.text, apiList) then JimpleNotInterested
    else JimpleNeedDetailInspection
  }

  /** judgeJimpleInDetail, given the libraries switch and list. */
  predicate DetailPasses(text: string, apiInLibrariesOnly: bool, libraries: seq<string>)
  {
    !apiInLibrariesOnly || MentionsAny(text, libraries)
  }

  /**
   * initInterestedApiList: with the switch on and the file present, a list
   * read from the file; with the file missing the switch is turned off; with
   * the switch off, no list. interestedApiFile is None when the file is missing.
   */
  method InitInterestedApiList(interestedApiOnly: bool, interestedApiFile: Option<seq<string>>)
    returns (list: Option<InterestedApiList.InterestedApiList>, switchAfter: bool)
    ensures switchAfter <==> interestedApiOnly && interestedApiFile.Some?
    ensures list.Some? <==> switchAfter
    ensures list.Some? ==> fresh(list.value) && list.value.interestedApiList == KeptLines(interestedApiFile.value)
  {
    if interestedApiOnly {
      if interestedApiFile.Some? {
        var created := InterestedApiList.NewInterestedApiList(interestedApiOnly, interestedApiFile.value);
        match created
        case Success(l) => return Some(l), true;
        case Failure(_) => assert false; return None, false;
      } else {
        return None, false;
      }
    } else {
      return None, false;
    }
  }

  /** initLibrariesList: the same set-up for the libraries list and its switch. */
  method InitLibrariesList(apiInLibrariesOnly: bool, librariesFile: Option<seq<string>>)
    returns (list: Option<LibrariesList.LibrariesList>, switchAfter: bool)
    ensures switchAfter <==> apiInLibrariesOnly && librariesFile.Some?
    ensures list.Some? <==> switchAfter
    ensures list.Some? ==> fresh(list.value) && list.value.librariesList == KeptLines(librariesFile.value)
  {
    if apiInLibrariesOnly {
      if librariesFile.Some? {
        var created := LibrariesList.NewLibrariesList(apiInLibrariesOnly, librariesFile.value);
        match created
        case Success(l) => return Some(l), true;
        case Failure(_) => assert false; return None, false;
      } else {
        return None, false;
      }
    } else {
      return None, false;
    }
  }

  class JimpleSelector {
    const interestedApiOnly: bool
    const apiInLibrariesOnly: bool
    const interestedApiList: Option<InterestedApiList.InterestedApiList>
    const librariesList: Option<LibrariesList.LibrariesList>

    /** A switch that is on always has its list. */
    predicate Valid()
    {
      (interestedApiOnly ==> interestedApiList.Some?) && (apiInLibrariesOnly ==> librariesList.Some?)
    }

    function ApiList(): seq<string>
    {
      if interestedApiList.Some? then interestedApiList.value.interestedApiList else []
    }

    function Libraries(): seq<string>
    {
      if librariesList.Some? then librariesList.value.librariesList else []
    }

    constructor (interestedApiSwitch: bool, librariesSwitch: bool,
                 interestedApiFile: Option<seq<string>>, librariesFile: Option<seq<string>>)
      ensures Valid()
      ensures interestedApiOnly <==> interestedApiSwitch && interestedApiFile.Some?
      ensures apiInLibrariesOnly <==> librariesSwitch && librariesFile.Some?
      ensures interestedApiOnly ==> ApiList() == KeptLines(interestedApiFile.value)
      ensures apiInLibrariesOnly ==> Libraries() == KeptLines(librariesFile.value)
    {
      var apis, apiSwitch := InitInterestedApiList(interestedApiSwitch, interestedApiFile);
      var libs, libSwitch := InitLibrariesList(librariesSwitch, librariesFile);
      interestedApiList := apis;
      interestedApiOnly := apiSwitch;
      librariesList := libs;
      apiInLibrariesOnly := libSwitch;
    }

    /** isInvokeStmtContainKeyValue; the source casts the unit to an InvokeStmt. */
    method IsInvokeStmtContainKeyValue(u: Unit) returns (b: bool)
      requires u.stmt.InvokeStmt?
      ensures u.stmt.invoke.kind == SpecialInvoke ==> !b
      ensures u.stmt.invoke.kind != SpecialInvoke ==>
        (b <==> |u.stmt.invoke.args| == 2 && u.stmt.invoke.args[0].typeName == JavaLangString)
    {
      var e := u.stmt.invoke;
      if e.kind == SpecialInvoke {
        return false;
      }
      if |e.args| == 2 {
        if e.args[0].typeName == JavaLangString {
          return true;
        }
      }
      return false;
    }

    /** judgeJimpleInitially. */
    method JudgeJimpleInitially(u: Unit) returns (r: JimpleInitialJudgeStatus)
      requires Valid()
      ensures r == InitialStatus(u, interestedApiOnly, ApiList())
    {
      if !u.stmt.InvokeStmt? {
        return JimpleNotInterested;
      }
      var kv := IsInvokeStmtContainKeyValue(u);
      if kv {
        return JimpleDefiniteHit;
      }
      if interestedApiOnly {
        var contained := interestedApiList.value.ContainInterestedApi(u.text);
        if !contained {
          return JimpleNotInterested;
        }
      }
      return JimpleNeedDetailInspection;
    }

    /** judgeJimpleInDetail: always true with the libraries switch off, else true iff a library is mentioned. */
    method JudgeJimpleInDetail(text: string) returns (b: bool)
      requires Valid()
      ensures b == DetailPasses(text, apiInLibrariesOnly, Libraries())
      ensures !apiInLibrariesOnly ==> b
    {
      if apiInLibrariesOnly {
        var contained := librariesList.value.ContainLibPackageName(text);
        if !contained {
          return false;
        }
      }
      return true;
    }
  }
}
