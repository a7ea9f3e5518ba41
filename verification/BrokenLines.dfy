/**
 Printed lines that a TOML reader refuses: a value with a control character in it, which may break
 the line in two, and a header whose name makes no key.
 */
module BrokenLines {
  import opened Common
  import opened TomlReader
  import opened TomlText
  import opened HeaderKeys
  import opened TomlPrinter

  // -------------------------------------------------------------------------
  // Lines that break in two
  // -------------------------------------------------------------------------

  function UpToBreak(s: string): string {
    if s == [] || s[0] == '\n' then [] else [s[0]] + UpToBreak(s[1..])
  }

  lemma {:induction false} FirstPiece(s: string)
    ensures SplitLines(s)[0] == UpToBreak(s)
  {
    if s != [] {
      FirstPiece(s[1..]);
    }
  }

  lemma {:induction false} UpToBreakAfter(a: string, b: string)
    requires OneLine(a)
    ensures UpToBreak(a + b) == a + UpToBreak(b)
  {
    if a == [] {
      assert a + b == b;
    } else {
      assert a[0] in a && forall c | c in a[1..] :: c in a;
      assert (a + b)[0] == a[0] && (a + b)[1..] == a[1..] + b;
      UpToBreakAfter(a[1..], b);
      assert [a[0]] + a[1..] == a;
    }
  }

  // The lines a list of printed lines comes to.
  function Exploded(lines: seq<string>): seq<string> {
    if lines == [] then [] else SplitLines(lines[0]) + Exploded(lines[1..])
  }

  lemma {:induction false} SplitExploded(lines: seq<string>)
    ensures SplitLines(Unlines(lines)) == Exploded(lines) + [""]
  {
    if lines != [] {
      BreakStartsALine(lines[0], Unlines(lines[1..]));
      SplitExploded(lines[1..]);
    }
  }

  lemma {:induction false} ExplodedInParts(a: seq<string>, b: seq<string>)
    ensures Exploded(a + b) == Exploded(a) + Exploded(b)
  {
    if a == [] {
      assert a + b == b;
    } else {
      assert (a + b)[0] == a[0] && (a + b)[1..] == a[1..] + b;
      ExplodedInParts(a[1..], b);
    }
  }

  lemma {:induction false} OneLineStays(line: string)
    requires OneLine(line)
    ensures SplitLines(line) == [line]
  {
    if line != [] {
      assert line[0] in line && forall c | c in line[1..] :: c in line;
      OneLineStays(line[1..]);
      assert [line[0]] + line[1..] == line;
    }
  }

  lemma {:induction false} OneLinesStay(lines: seq<string>)
    requires forall i :: 0 <= i < |lines| ==> OneLine(lines[i])
    ensures Exploded(lines) == lines
  {
    if lines != [] {
      OneLineStays(lines[0]);
      OneLinesStay(lines[1..]);
      assert [lines[0]] + lines[1..] == lines;
    }
  }

  // A printed line the reader refuses, by its first piece.
  ghost predicate Refused(line: string) {
    ReadLine(UpToBreak(line)) == None
  }

  lemma {:induction false} PieceIn(lines: seq<string>, line: string)
    requires line in lines
    ensures UpToBreak(line) in Exploded(lines)
  {
    if line == lines[0] {
      FirstPiece(line);
      assert SplitLines(line)[0] in SplitLines(line);
    } else {
      PieceIn(lines[1..], line);
    }
  }

  lemma {:induction false} OneRefusedRefusesAll(r: Reading, lines: seq<string>, bad: string)
    requires bad in lines && ReadLine(bad) == None
    ensures TakeAll(r, lines) == None
  {
    var n := |lines| - 1;
    if lines[n] != bad {
      assert lines == lines[..n] + [lines[n]];
      OneRefusedRefusesAll(r, lines[..n], bad);
    }
  }

  lemma RefusedLineRefusesAll(r: Reading, lines: seq<string>, line: string)
    requires line in lines && Refused(line)
    ensures TakeAll(r, Exploded(lines)) == None
  {
    PieceIn(lines, line);
    OneRefusedRefusesAll(r, Exploded(lines), UpToBreak(line));
  }

  // -------------------------------------------------------------------------
  // Values
  // -------------------------------------------------------------------------

  lemma {:induction false} BrokenString(s: string, rest: string)
    requires !ControlFree(s)
    ensures ReadString(UpToBreak(Escape(s) + "\"" + rest)) == None
  {
    var text, tail := Escape(s) + "\"" + rest, Escape(s[1..]) + "\"" + rest;
    if IsControl(s[0]) {
      assert text[0] == s[0];
    } else {
      assert exists i :: 0 <= i < |s[1..]| && IsControl(s[1..][i]) by {
        var i :| 0 <= i < |s| && IsControl(s[i]);
        assert s[1..][i - 1] == s[i];
      }
      BrokenString(s[1..], rest);
      if s[0] == '"' || s[0] == '\\' {
        assert text == ['\\', s[0]] + tail;
        UpToBreakAfter(['\\', s[0]], tail);
        assert ([ '\\', s[0]] + UpToBreak(tail))[2..] == UpToBreak(tail);
      } else {
        assert text == [s[0]] + tail;
        UpToBreakAfter([s[0]], tail);
        assert ([s[0]] + UpToBreak(tail))[1..] == UpToBreak(tail);
      }
    }
  }

  lemma QuotedText(s: string, rest: string)
    ensures TomlQuote(s) + rest == "\"" + (Escape(s) + "\"" + rest)
  {
    TwoReplacementsAreOneEscape(s);
  }

  lemma BrokenQuoted(s: string, rest: string)
    requires !ControlFree(s)
    ensures var text := UpToBreak(TomlQuote(s) + rest);
            text != [] && text[0] == '"' && ReadString(text[1..]) == None
  {
    QuotedText(s, rest);
    BrokenString(s, rest);
    UpToBreakAfter("\"", Escape(s) + "\"" + rest);
  }

  lemma QuotedStays(s: string, rest: string)
    requires ControlFree(s)
    ensures UpToBreak(TomlQuote(s) + rest) == TomlQuote(s) + UpToBreak(rest)
  {
    QuotedIsOneLine(s);
    UpToBreakAfter(TomlQuote(s), rest);
  }

  ghost predicate ItemsRefused(text: string) {
    text != [] && text[0] == '"' && ReadArray(text) == None && SkipNested(text, 1) == None
  }

  lemma FirstItemRefused(text: string)
    requires text != [] && text[0] == '"' && ReadString(text[1..]) == None
    ensures ItemsRefused(text)
  {
  }

  lemma LaterItemRefused(text: string, item: string, more: string)
    requires text != [] && text[0] == '"' && ReadString(text[1..]) == Some((item, ", " + more))
    requires ItemsRefused(more)
    ensures ItemsRefused(text)
  {
    LeadingSpace(more);
    assert (", " + more)[1..] == [' '] + more && ([' '] + more)[1..] == more;
    assert SkipSpace(text) == text && SkipSpace(", " + more) == ", " + more;
    assert SkipNested(", " + more, 1) == SkipNested([' '] + more, 1) == SkipNested(more, 1);
  }

  lemma {:induction false} BrokenItems(items: seq<string>)
    requires items != [] && !AllControlFree(items)
    ensures ItemsRefused(UpToBreak(Join(QuoteAll(items), ", ") + "]"))
  {
    var text, first := Join(QuoteAll(items), ", ") + "]", items[0];
    if |items| == 1 {
      assert items[1..] == [];
      assert QuoteAll(items) == [TomlQuote(first)];
      BrokenQuoted(first, "]");
      FirstItemRefused(UpToBreak(text));
    } else {
      var more := Join(QuoteAll(items[1..]), ", ") + "]";
      assert QuoteAll(items)[1..] == QuoteAll(items[1..]) && QuoteAll(items[1..]) != [];
      assert text == TomlQuote(first) + (", " + more);
      if ControlFree(first) {
        assert items == [first] + items[1..];
        BrokenItems(items[1..]);
        QuotedStays(first, ", " + more);
        UpToBreakAfter(", ", more);
        QuotedReadsBack(first, ", " + UpToBreak(more));
        LaterItemRefused(UpToBreak(text), first, UpToBreak(more));
      } else {
        BrokenQuoted(first, ", " + more);
        FirstItemRefused(UpToBreak(text));
      }
    }
  }

  lemma BrokenValue(s: string)
    requires !ControlFree(s)
    ensures ReadValue(UpToBreak(TomlQuote(s))) == None
  {
    BrokenQuoted(s, []);
    assert TomlQuote(s) + [] == TomlQuote(s);
    assert !IsScalar('"');
  }

  lemma BrokenArray(items: seq<string>)
    requires items != [] && !AllControlFree(items)
    ensures ReadValue(UpToBreak(ArrayText(items))) == None
  {
    var inner := Join(QuoteAll(items), ", ") + "]";
    assert ArrayText(items) == "[" + inner;
    UpToBreakAfter("[", inner);
    BrokenItems(items);
    assert ("[" + UpToBreak(inner))[1..] == UpToBreak(inner);
  }

  // -------------------------------------------------------------------------
  // Lines
  // -------------------------------------------------------------------------

  lemma BareIsOneLine(key: string)
    requires BareKey(key)
    ensures OneLine(key)
  {
    assert !IsBare('\n');
  }

  lemma BrokenEntry(key: string, text: string)
    requires BareKey(key) && ReadValue(UpToBreak(text)) == None
    requires text != [] && (text[0] == '"' || text[0] == '[')
    ensures Refused(EntryLine(key, text))
  {
    BareIsOneLine(key);
    assert EntryLine(key, text) == (key + " = ") + text;
    UpToBreakAfter(key + " = ", text);
    EntryLineParses(key, UpToBreak(text));
  }

  lemma {:induction false} UpToBreakStops(s: string, more: string)
    requires !OneLine(s)
    ensures UpToBreak(s + more) == UpToBreak(s)
    ensures forall c :: c in UpToBreak(s) ==> c in s
  {
    assert (s + more)[0] == s[0] && (s + more)[1..] == s[1..] + more;
    if s[0] != '\n' {
      assert s == [s[0]] + s[1..];
      UpToBreakStops(s[1..], more);
    }
  }

  lemma BrokenName(name: string)
    requires Undivided(name) && KeyOf(name).None?
    ensures ReadPath(UpToBreak(name + "]")).None?
  {
    if OneLine(name) {
      UpToBreakAfter(name, "]");
      assert UpToBreak("]") == "]" by {
        assert "]"[1..] == [];
      }
      NoNameReads(name);
    } else {
      UpToBreakStops(name, "]");
      if ReadPath(UpToBreak(name + "]")).Some? {
        PathNeedsBracket(UpToBreak(name + "]"));
      }
    }
  }

  lemma BrokenHeader(name: string)
    requires Undivided(name) && KeyOf(name).None?
    ensures Refused(HeaderLine(TablePath(name)))
  {
    HeaderInParts(name);
    UpToBreakAfter("[servers.", name + "]");
    BrokenName(name);
    ServersFirst(UpToBreak(name + "]"));
  }

  // -------------------------------------------------------------------------
  // Servers
  // -------------------------------------------------------------------------

  lemma {:induction false} EntryLineIn(es: seq<Printed>, e: Printed)
    requires e in es
    ensures EntryLine(e.key, e.text) in EntryLines(es)
  {
    var n := |es| - 1;
    if es[n] != e {
      assert es == es[..n] + [es[n]];
      EntryLineIn(es[..n], e);
    }
  }

  // Some printed entry of the server holds a control character.
  lemma BrokenBody(c: Launch) returns (line: string)
    requires c.transport.Stdio? ==> !((c.command.Some? ==> ControlFree(c.command.value)) && AllControlFree(c.args))
    requires !c.transport.Stdio? ==> !c.transport.OpenApi? && c.url.Some? && !ControlFree(c.url.value)
    ensures line in EntryLines(Body(c)) && Refused(line)
  {
    var e: Printed;
    if c.transport.Stdio? && c.command.Some? && !ControlFree(c.command.value) {
      e := Printed("command", TomlQuote(c.command.value), Str(c.command.value));
      BrokenValue(c.command.value);
    } else if c.transport.Stdio? {
      e := Printed("args", ArrayText(c.args), Arr(c.args));
      BrokenArray(c.args);
    } else {
      e := Printed("url", TomlQuote(c.url.value), Str(c.url.value));
      BrokenValue(c.url.value);
      assert Body(c)[1] == e;
    }
    assert e in Body(c);
    assert BareKey("command") && BareKey("args") && BareKey("url");
    BrokenEntry(e.key, e.text);
    EntryLineIn(Body(c), e);
    line := EntryLine(e.key, e.text);
  }

  lemma BrokenEnv(name: string, c: Launch, i: nat) returns (line: string)
    requires EnvNamed(c) && i < |c.env| && !ControlFree(c.env[i].1)
    ensures line in EnvLines(name, c.env) && Refused(line)
  {
    var e := EnvEntries(c.env)[i];
    assert e in EnvEntries(c.env);
    BrokenValue(c.env[i].1);
    BrokenEntry(e.key, e.text);
    EntryLineIn(EnvEntries(c.env), e);
    line := EntryLine(e.key, e.text);
  }

  // A server whose name makes no key or whose values hold a control character
  // has a line the reader refuses.
  lemma BrokenServer(r: Reading, name: string, c: Launch)
    requires EnvNamed(c) && Undivided(name) && !(KeyOf(name).Some? && ValuesControlFree(c))
    ensures TakeAll(r, Exploded(ServerLines(name, c))) == None
  {
    var lines, line := ServerLines(name, c), "";
    if KeyOf(name).None? {
      line := HeaderLine(TablePath(name));
      BrokenHeader(name);
      assert lines[1] == line;
    } else if i: nat :| i < |c.env| && !ControlFree(c.env[i].1) {
      line := BrokenEnv(name, c, i);
      InLines(name, c, line);
    } else {
      line := BrokenBody(c);
      InLines(name, c, line);
    }
    RefusedLineRefusesAll(r, lines, line);
  }

  lemma InLines(name: string, c: Launch, line: string)
    requires line in EntryLines(Body(c)) || line in EnvLines(name, c.env)
    ensures line in ServerLines(name, c)
  {
  }
}
