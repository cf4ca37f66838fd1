/**
 * StringUtil: joining a list of strings with a separator and undoing the
 * C-style escapes Jimple prints inside string constants. The unescape logic is
 * the same in the package-level and in the util/ StringUtil class.
 */
module StringUtil {

  /** The items with sep between each two consecutive items. */
  function Join(items: seq<string>, sep: char): string
  {
    if items == [] then []
    else if |items| == 1 then items[0]
    else items[0] + [sep] + Join(items[1..], sep)
  }

  function Occurrences(s: string, c: char): nat
  {
    if s == [] then 0 else (if s[0] == c then 1 else 0) + Occurrences(s[1..], c)
  }

  function OccurrencesIn(items: seq<string>, c: char): nat
  {
    if items == [] then 0 else Occurrences(items[0], c) + OccurrencesIn(items[1..], c)
  }

  function TotalLength(items: seq<string>): nat
  {
    if items == [] then 0 else |items[0]| + TotalLength(items[1..])
  }

  lemma {:induction false} OccurrencesAppend(a: string, b: string, c: char)
    ensures Occurrences(a + b, c) == Occurrences(a, c) + Occurrences(b, c)
  {
    if a != [] {
      assert (a + b)[1..] == a[1..] + b;
      OccurrencesAppend(a[1..], b, c);
    } else {
      assert a + b == b;
    }
  }

  /** Joining adds exactly one separator between consecutive items, and nothing else. */
  lemma {:induction false} JoinSeparators(items: seq<string>, sep: char)
    requires |items| >= 1
    ensures Occurrences(Join(items, sep), sep) == OccurrencesIn(items, sep) + |items| - 1
    ensures |Join(items, sep)| == TotalLength(items) + |items| - 1
  {
    if |items| > 1 {
      JoinSeparators(items[1..], sep);
      OccurrencesAppend(items[0], [sep], sep);
      OccurrencesAppend(items[0] + [sep], Join(items[1..], sep), sep);
      assert Occurrences([sep], sep) == 1 by {
        assert [sep][1..] == [];
      }
    } else {
      assert items[1..] == [];
    }
  }

  lemma JoinEmpty(sep: char)
    ensures Join([], sep) == ""
  {
  }

  /** Joining one more item appends the separator and the item. */
  lemma {:induction false} JoinSnoc(items: seq<string>, x: string, sep: char)
    requires items != []
    ensures Join(items + [x], sep) == Join(items, sep) + [sep] + x
  {
    if |items| == 1 {
      assert (items + [x])[1..] == [x];
    } else {
      assert (items + [x])[1..] == items[1..] + [x];
      JoinSnoc(items[1..], x, sep);
    }
  }

  /** StringUtil.joinString: builds the joined string in one pass over the list. */
  method JoinString(strList: seq<string>, seperator: char) returns (r: string)
    ensures r == Join(strList, seperator)
  {
    r := "";
    var indexOfLastItem := |strList| - 1;
    var i := 0;
    while i < |strList|
      invariant 0 <= i <= |strList|
      invariant r == Join(strList[..i], seperator) + (if 0 < i < |strList| then [seperator] else [])
    {
      assert strList[..i + 1] == strList[..i] + [strList[i]];
      if i > 0 {
        JoinSnoc(strList[..i], strList[i], seperator);
      }
      r := r + strList[i];
      if i < indexOfLastItem {
        r := r + [seperator];
      }
      i := i + 1;
    }
    assert strList[..i] == strList;
  }

  /**
   * The unescaped form: a bare double quote is dropped; a backslash followed
   * by a double quote or a backslash yields that character; a backslash
   * followed by anything else drops both; a backslash at the end is dropped.
   */
  function Unescape(s: string): string
  {
    if s == [] then []
    else if s[0] == '"' then Unescape(s[1..])
    else if s[0] == '\\' then
      if |s| == 1 then []
      else (if s[1] == '"' || s[1] == '\\' then [s[1]] else []) + Unescape(s[2..])
    else [s[0]] + Unescape(s[1..])
  }

  lemma StringAppendAssoc(a: string, b: string, c: string)
    ensures (a + b) + c == a + (b + c)
  {
  }

  /** Unescape from position i, one step. */
  lemma UnescapeAt(s: string, i: nat)
    requires i < |s|
    ensures s[i] == '"' ==> Unescape(s[i..]) == Unescape(s[i + 1..])
    ensures s[i] == '\\' && i + 1 == |s| ==> Unescape(s[i..]) == []
    ensures s[i] == '\\' && i + 1 < |s| ==>
      Unescape(s[i..]) == (if s[i + 1] == '"' || s[i + 1] == '\\' then [s[i + 1]] else []) + Unescape(s[i + 2..])
    ensures s[i] != '"' && s[i] != '\\' ==> Unescape(s[i..]) == [s[i]] + Unescape(s[i + 1..])
  {
    var t := s[i..];
    assert t[0] == s[i] && t[1..] == s[i + 1..];
    if i + 1 < |s| {
      assert t[1] == s[i + 1] && t[2..] == s[i + 2..];
    }
  }

  /** StringUtil.unescapeString: one left-to-right scan that skips the escaped character. */
  method UnescapeString(rawString: string) returns (r: string)
    ensures r == Unescape(rawString)
  {
    r := "";
    var i := 0;
    ghost var all := Unescape(rawString);
    assert rawString[0..] == rawString;
    while i < |rawString|
      invariant 0 <= i <= |rawString|
      invariant r + Unescape(rawString[i..]) == all
    {
      UnescapeAt(rawString, i);
      ghost var r0, i0 := r, i;
      ghost var piece: string := [];
      var c := rawString[i];
      if c == '"' {
        // a bare double quote is skipped
      } else if c == '\\' {
        if i + 1 < |rawString| {
          i := i + 1;
          var escapeChar := rawString[i];
          if escapeChar == '"' {
            r := r + ['"'];
          } else if escapeChar == '\\' {
            r := r + ['\\'];
          }
          piece := if escapeChar == '"' || escapeChar == '\\' then [escapeChar] else [];
        }
      } else {
        r := r + [c];
        piece := [c];
      }
      i := i + 1;
      assert r == r0 + piece;
      assert Unescape(rawString[i0..]) == piece + Unescape(rawString[i..]);
      StringAppendAssoc(r0, piece, Unescape(rawString[i..]));
    }
    assert rawString[i..] == [];
  }

  /** The unescaped string is never longer than the raw one. */
  lemma {:induction false} UnescapeShorter(s: string)
    ensures |Unescape(s)| <= |s|
  {
    if s == [] {
    } else if s[0] == '"' {
      UnescapeShorter(s[1..]);
    } else if s[0] == '\\' {
      if |s| > 1 { UnescapeShorter(s[2..]); }
    } else {
      UnescapeShorter(s[1..]);
    }
  }

  /** A string with neither a double quote nor a backslash comes back unchanged. */
  lemma {:induction false} UnescapePlain(s: string)
    requires '"' !in s && '\\' !in s
    ensures Unescape(s) == s
  {
    if s != [] {
      assert s == [s[0]] + s[1..];
      UnescapePlain(s[1..]);
    }
  }

  /** Unescaping never introduces a character the raw string does not hold. */
  lemma {:induction false} UnescapeAddsNoChar(s: string, c: char)
    requires c !in s
    ensures c !in Unescape(s)
  {
    if s != [] {
      assert s == [s[0]] + s[1..];
      if s[0] == '\\' && |s| > 1 {
        assert s[1..] == [s[1]] + s[2..];
        UnescapeAddsNoChar(s[2..], c);
      } else if s[0] != '\\' {
        UnescapeAddsNoChar(s[1..], c);
      }
    }
  }

  function RemoveChar(s: string, c: char): string
  {
    if s == [] then [] else (if s[0] == c then [] else [s[0]]) + RemoveChar(s[1..], c)
  }

  /** Without backslashes, unescaping only removes the double quotes. */
  lemma {:induction false} UnescapeDropsQuotes(s: string)
    requires '\\' !in s
    ensures Unescape(s) == RemoveChar(s, '"')
  {
    if s != [] {
      assert s == [s[0]] + s[1..];
      UnescapeDropsQuotes(s[1..]);
    }
  }

  /** C-style escaping of double quotes and backslashes: the inverse partner of Unescape. */
  function Escape(s: string): string
  {
    if s == [] then []
    else (if s[0] == '"' || s[0] == '\\' then ['\\', s[0]] else [s[0]]) + Escape(s[1..])
  }

  /** Unescaping an escaped string gives the original back. */
  lemma {:induction false} UnescapeEscape(s: string)
    ensures Unescape(Escape(s)) == s
  {
    if s != [] {
      var e := Escape(s);
      UnescapeEscape(s[1..]);
      if s[0] == '"' || s[0] == '\\' {
        assert e == ['\\', s[0]] + Escape(s[1..]);
        assert e[2..] == Escape(s[1..]);
      } else {
        assert e == [s[0]] + Escape(s[1..]);
        assert e[1..] == Escape(s[1..]);
      }
    }
  }
}
