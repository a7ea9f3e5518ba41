/**
 The pieces of text the config printer writes: quoted strings, arrays of them, headers and
 entries, and what a TOML reader makes of each.
 */
module TomlText {
  import opened Common
  import opened TomlReader

  // -------------------------------------------------------------------------
  // Quoting
  // -------------------------------------------------------------------------

  // Every occurrence of one character replaced by a string.
  function Replace(s: string, c: char, with: string): string {
    if s == [] then [] else (if s[0] == c then with else [s[0]]) + Replace(s[1..], c, with)
  }

  function TomlQuote(s: string): string {
    "\"" + Replace(Replace(s, '\\', "\\\\"), '"', "\\\"") + "\""
  }

  // Quotes and backslashes escaped in one pass.
  function Escape(s: string): string {
    if s == [] then []
    else (if s[0] == '"' || s[0] == '\\' then ['\\', s[0]] else [s[0]]) + Escape(s[1..])
  }

  lemma {:induction false} ReplaceInParts(a: string, b: string, c: char, with: string)
    ensures Replace(a + b, c, with) == Replace(a, c, with) + Replace(b, c, with)
  {
    if a == [] {
      assert a + b == b;
    } else {
      assert (a + b)[1..] == a[1..] + b;
      ReplaceInParts(a[1..], b, c, with);
    }
  }

  // Two replacements one after the other come to the one-pass escape, because
  // the backslashes the second one adds are not seen by the first.
  lemma {:induction false} TwoReplacementsAreOneEscape(s: string)
    ensures Replace(Replace(s, '\\', "\\\\"), '"', "\\\"") == Escape(s)
  {
    if s != [] {
      var head := if s[0] == '\\' then "\\\\" else [s[0]];
      ReplaceInParts(head, Replace(s[1..], '\\', "\\\\"), '"', "\\\"");
      TwoReplacementsAreOneEscape(s[1..]);
      if s[0] == '\\' {
        assert "\\\\"[1..] == "\\" && "\\"[1..] == [];
        assert Replace("\\\\", '"', "\\\"") == "\\\\";
      } else {
        assert [s[0]][1..] == [];
      }
    }
  }

  // A quoted string reads back as itself exactly when it holds no control character.
  lemma {:induction false} EscapedReadsBack(s: string, rest: string)
    ensures ReadString(Escape(s) + "\"" + rest) == if ControlFree(s) then Some((s, rest)) else None
  {
    var text := Escape(s) + "\"" + rest;
    if s == [] {
      assert text == "\"" + rest;
    } else {
      var tail := Escape(s[1..]) + "\"" + rest;
      EscapedReadsBack(s[1..], rest);
      assert s == [s[0]] + s[1..];
      assert ControlFree(s) <==> !IsControl(s[0]) && ControlFree(s[1..]);
      if s[0] == '"' || s[0] == '\\' {
        assert text[0] == '\\' && text[1] == s[0] && text[2..] == tail;
      } else {
        assert text[0] == s[0] && text[1..] == tail;
      }
    }
  }

  lemma QuotedReadsBack(s: string, rest: string)
    ensures var text := TomlQuote(s) + rest;
            && text != [] && text[0] == '"'
            && ReadString(text[1..]) == if ControlFree(s) then Some((s, rest)) else None
  {
    TwoReplacementsAreOneEscape(s);
    EscapedReadsBack(s, rest);
    assert (TomlQuote(s) + rest)[1..] == Escape(s) + "\"" + rest;
  }

  // Unquoting what was quoted gives it back exactly for the strings a basic
  // string can hold without more escapes than these two.
  lemma QuoteRoundTrips(s: string)
    ensures ReadValue(TomlQuote(s)) == (if ControlFree(s) then Some((Str(s), [])) else None)
  {
    QuotedReadsBack(s, []);
    assert TomlQuote(s) + [] == TomlQuote(s);
  }

  function Join(parts: seq<string>, sep: string): string {
    if parts == [] then [] else if |parts| == 1 then parts[0] else parts[0] + sep + Join(parts[1..], sep)
  }

  function QuoteAll(items: seq<string>): seq<string> {
    if items == [] then [] else [TomlQuote(items[0])] + QuoteAll(items[1..])
  }

  function ArrayText(items: seq<string>): string {
    "[" + Join(QuoteAll(items), ", ") + "]"
  }

  predicate AllControlFree(items: seq<string>) {
    forall i :: 0 <= i < |items| ==> ControlFree(items[i])
  }

  lemma ArrayEnds(t: string, item: string)
    requires t != [] && t[0] == '"' && ReadString(t[1..]) == Some((item, "]"))
    ensures ReadArray(t) == Some(([item], []))
  {
    assert SkipSpace(t) == t && SkipSpace("]") == "]" && "]"[1..] == [];
  }

  lemma ArrayGoesOn(t: string, item: string, more: string, items: seq<string>)
    requires t != [] && t[0] == '"' && ReadString(t[1..]) == Some((item, "," + more))
    requires ReadArray(more) == Some((items, []))
    ensures ReadArray(t) == Some(([item] + items, []))
  {
    assert ("," + more)[1..] == more;
    assert SkipSpace(t) == t && SkipSpace("," + more) == "," + more;
  }

  lemma LeadingSpace(t: string)
    requires t != [] && t[0] == '"'
    ensures ReadArray([' '] + t) == ReadArray(t)
  {
    assert ([' '] + t)[1..] == t;
    assert SkipSpace([' '] + t) == SkipSpace(t) == t;
  }

  lemma {:induction false} ItemsReadBack(items: seq<string>)
    requires items != [] && AllControlFree(items)
    ensures var text := Join(QuoteAll(items), ", ") + "]";
            text != [] && text[0] == '"' && ReadArray(text) == Some((items, []))
  {
    var text := Join(QuoteAll(items), ", ") + "]";
    var first, quoted := items[0], QuoteAll(items);
    if |items| == 1 {
      assert items[1..] == [];
      assert QuoteAll(items[1..]) == [];
      assert quoted == [TomlQuote(first)];
      assert text == TomlQuote(first) + "]";
      QuotedReadsBack(first, "]");
      ArrayEnds(text, first);
      assert items == [first];
    } else {
      var more := Join(QuoteAll(items[1..]), ", ") + "]";
      assert quoted[1..] == QuoteAll(items[1..]) && QuoteAll(items[1..]) != [];
      assert text == TomlQuote(first) + ("," + ([' '] + more));
      QuotedReadsBack(first, "," + ([' '] + more));
      ItemsReadBack(items[1..]);
      LeadingSpace(more);
      ArrayGoesOn(text, first, [' '] + more, items[1..]);
      assert items == [first] + items[1..];
    }
  }

  lemma ArrayRoundTrips(items: seq<string>)
    requires items != [] && AllControlFree(items)
    ensures ReadValue(ArrayText(items)) == Some((Arr(items), []))
  {
    ItemsReadBack(items);
    assert ArrayText(items)[1..] == Join(QuoteAll(items), ", ") + "]";
  }

  lemma {:induction false} EscapeKeepsOneLine(s: string)
    requires OneLine(s)
    ensures OneLine(Escape(s))
  {
    if s != [] {
      assert s[0] in s;
      assert forall c | c in s[1..] :: c in s;
      EscapeKeepsOneLine(s[1..]);
    }
  }

  lemma QuotedIsOneLine(s: string)
    requires ControlFree(s)
    ensures OneLine(TomlQuote(s))
  {
    TwoReplacementsAreOneEscape(s);
    EscapeKeepsOneLine(s);
  }

  lemma {:induction false} ItemsAreOneLine(items: seq<string>)
    requires AllControlFree(items)
    ensures OneLine(Join(QuoteAll(items), ", "))
  {
    if items != [] {
      QuotedIsOneLine(items[0]);
      ItemsAreOneLine(items[1..]);
      assert QuoteAll(items)[1..] == QuoteAll(items[1..]);
    }
  }

  // -------------------------------------------------------------------------
  // Single lines
  // -------------------------------------------------------------------------

  lemma {:induction false} DottedReadsBack(path: seq<string>)
    requires path != [] && forall i :: 0 <= i < |path| ==> BareKey(path[i])
    ensures ReadPath(Join(path, ".") + "]") == Some((path, []))
  {
    var key := path[0];
    if |path| == 1 {
      assert Join(path, ".") == key && "]"[1..] == [];
      SpanBareStops(key, "]");
      assert path == [key];
    } else {
      var more := Join(path[1..], ".") + "]";
      assert Join(path, ".") + "]" == key + ("." + more);
      SpanBareStops(key, "." + more);
      assert ("." + more)[1..] == more;
      DottedReadsBack(path[1..]);
      assert path == [key] + path[1..];
    }
  }

  function HeaderLine(path: seq<string>): string {
    "[" + Join(path, ".") + "]"
  }

  lemma HeaderLineReads(path: seq<string>)
    requires path != [] && forall i :: 0 <= i < |path| ==> BareKey(path[i])
    ensures ReadLine(HeaderLine(path)) == Some(Header(path))
  {
    assert HeaderLine(path)[1..] == Join(path, ".") + "]";
    DottedReadsBack(path);
  }

  function EntryLine(key: string, value: string): string {
    key + " = " + value
  }

  // A value's text as it stands after the equals sign.
  predicate ReadsAs(text: string, value: TomlValue) {
    ReadValue(text) == Some((value, []))
  }

  // An entry line is read by its value.
  lemma EntryLineParses(key: string, text: string)
    requires BareKey(key) && text != [] && text[0] != ' ' && text[0] != '\t'
    ensures ReadLine(EntryLine(key, text)) ==
            match ReadValue(text)
            case None => None
            case Some((value, after)) => if LineEnds(after) then Some(Entry(key, value)) else None
  {
    var line := EntryLine(key, text);
    assert IsBare(line[0]) && SkipSpace(line) == line;
    assert line == key + (" = " + text);
    SpanBareStops(key, " = " + text);
    assert (" = " + text)[1..] == "= " + text;
    assert SkipSpace(" = " + text) == "= " + text;
    assert ("= " + text)[1..] == " " + text;
    assert (" " + text)[1..] == text;
    assert SkipSpace(" " + text) == text;
  }

  lemma EntryLineReads(key: string, text: string, value: TomlValue)
    requires BareKey(key) && ReadsAs(text, value)
    ensures ReadLine(EntryLine(key, text)) == Some(Entry(key, value))
  {
    EntryLineParses(key, text);
  }
}
