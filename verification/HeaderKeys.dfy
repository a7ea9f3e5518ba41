/**
 What a TOML header makes of a name printed in it as it is: space around it is passed over, a
 quoted name stands for what is inside, a bare one for itself, and any other is refused.
 */
module HeaderKeys {
  import opened Common
  import opened TomlReader
  import opened TomlText

  // A name that leaves the header's own dots and closing bracket alone.
  predicate Undivided(name: string) {
    '.' !in name && ']' !in name
  }

  // The key a header makes of such a name.
  function KeyOf(name: string): Option<string> {
    match ReadKey(SkipSpace(name))
    case None => None
    case Some((key, after)) => if SkipSpace(after) == [] then Some(key) else None
  }

  function KeyName(name: string): string {
    if KeyOf(name).Some? then KeyOf(name).value else name
  }

  predicate AfterKey(tail: string) {
    tail != [] && (tail[0] == ']' || tail[0] == '.')
  }

  lemma BareIsItsKey(name: string)
    requires BareKey(name)
    ensures Undivided(name) && KeyOf(name) == Some(name) && KeyName(name) == name
  {
    assert !IsBare('.') && !IsBare(']') && !IsBare(' ') && !IsBare('\t') && !IsBare('"') && !IsBare('\'');
    assert IsBare(name[0]) && SkipSpace(name) == name;
    SpanBareStops(name, []);
    assert name + [] == name;
  }

  // -------------------------------------------------------------------------
  // A key with more behind it
  // -------------------------------------------------------------------------

  lemma {:induction false} SkipSpaceGoesOn(s: string, tail: string)
    requires AfterKey(tail)
    ensures SkipSpace(s + tail) == SkipSpace(s) + tail
  {
    if s == [] {
      assert s + tail == tail;
    } else {
      assert (s + tail)[0] == s[0] && (s + tail)[1..] == s[1..] + tail;
      SkipSpaceGoesOn(s[1..], tail);
    }
  }

  lemma {:induction false} SpanBareGoesOn(s: string, tail: string)
    requires AfterKey(tail)
    ensures SpanBare(s + tail) == (SpanBare(s).0, SpanBare(s).1 + tail)
  {
    assert !IsBare('.') && !IsBare(']');
    if s == [] {
      assert s + tail == tail;
    } else {
      assert (s + tail)[0] == s[0] && (s + tail)[1..] == s[1..] + tail;
      SpanBareGoesOn(s[1..], tail);
    }
  }

  lemma EscapeGoesOn(s: string, tail: string)
    requires AfterKey(tail)
    ensures ReadEscape(s).Some? ==>
              ReadEscape(s + tail) == Some((ReadEscape(s).value.0, ReadEscape(s).value.1 + tail))
    ensures ReadEscape(s).None? ==> ReadEscape(s + tail).None?
  {
    if s == [] {
      assert s + tail == tail;
    } else {
      assert (s + tail)[0] == s[0] && (s + tail)[1..] == s[1..] + tail;
      ScalarGoesOn(s[1..], tail, 4);
      ScalarGoesOn(s[1..], tail, 8);
    }
  }

  lemma ScalarGoesOn(s: string, tail: string, n: nat)
    requires AfterKey(tail)
    ensures ReadScalar(s, n).Some? ==>
              ReadScalar(s + tail, n) == Some((ReadScalar(s, n).value.0, ReadScalar(s, n).value.1 + tail))
    ensures ReadScalar(s, n).None? ==> ReadScalar(s + tail, n).None?
  {
    if n <= |s| {
      assert (s + tail)[..n] == s[..n] && (s + tail)[n..] == s[n..] + tail;
    } else if n <= |s + tail| {
      assert (s + tail)[..n][|s|] == tail[0];
      NoHexBefore((s + tail)[..n], |s|);
    }
  }

  lemma {:induction false} NoHexBefore(digits: string, i: nat)
    requires i < |digits| && HexDigit(digits[i]).None?
    ensures ReadHex(digits).None?
  {
    if i < |digits| - 1 {
      NoHexBefore(digits[..|digits| - 1], i);
    }
  }

  lemma {:induction false} StringGoesOn(s: string, tail: string)
    requires AfterKey(tail)
    ensures ReadString(s).Some? ==>
              ReadString(s + tail) == Some((ReadString(s).value.0, ReadString(s).value.1 + tail))
    decreases |s|
  {
    if s != [] {
      assert (s + tail)[0] == s[0] && (s + tail)[1..] == s[1..] + tail;
      if s[0] == '\\' {
        EscapeGoesOn(s[1..], tail);
        if ReadEscape(s[1..]).Some? {
          StringGoesOn(ReadEscape(s[1..]).value.1, tail);
        }
      } else {
        StringGoesOn(s[1..], tail);
      }
    }
  }

  // A string that is not closed is not closed by the bracket behind it.
  lemma {:induction false} StringStaysOpen(s: string)
    requires ReadString(s).None?
    ensures ReadString(s + "]").None?
    decreases |s|
  {
    if s == [] {
      assert s + "]" == "]" && "]"[1..] == [];
    } else {
      assert (s + "]")[0] == s[0] && (s + "]")[1..] == s[1..] + "]";
      if s[0] == '\\' {
        EscapeGoesOn(s[1..], "]");
        if ReadEscape(s[1..]).Some? {
          StringStaysOpen(ReadEscape(s[1..]).value.1);
        }
      } else if !IsControl(s[0]) {
        StringStaysOpen(s[1..]);
      }
    }
  }

  lemma {:induction false} LiteralGoesOn(s: string, tail: string)
    requires AfterKey(tail)
    ensures SkipLiteral(s).Some? ==> SkipLiteral(s + tail) == Some(SkipLiteral(s).value + tail)
  {
    if s != [] {
      assert (s + tail)[0] == s[0] && (s + tail)[1..] == s[1..] + tail;
      LiteralGoesOn(s[1..], tail);
    }
  }

  lemma {:induction false} LiteralStaysOpen(s: string)
    requires SkipLiteral(s).None?
    ensures SkipLiteral(s + "]").None?
  {
    if s == [] {
      assert s + "]" == "]" && "]"[1..] == [];
    } else {
      assert (s + "]")[0] == s[0] && (s + "]")[1..] == s[1..] + "]";
      if !IsControl(s[0]) {
        LiteralStaysOpen(s[1..]);
      }
    }
  }

  lemma KeyGoesOn(s: string, tail: string)
    requires AfterKey(tail)
    ensures ReadKey(s).Some? ==> ReadKey(s + tail) == Some((ReadKey(s).value.0, ReadKey(s).value.1 + tail))
  {
    SpanBareGoesOn(s, tail);
    if s == [] {
      assert s + tail == tail;
    } else {
      var all := s + tail;
      assert all[0] == s[0] && all[1..] == s[1..] + tail;
      StringGoesOn(s[1..], tail);
      LiteralGoesOn(s[1..], tail);
      if s[0] == '\'' && SkipLiteral(s[1..]).Some? {
        var rest := SkipLiteral(s[1..]).value;
        assert all[1..|all| - |rest + tail| - 1] == s[1..|s| - |rest| - 1];
      }
    }
  }

  lemma NoKeyStays(s: string)
    requires ReadKey(s).None?
    ensures ReadKey(s + "]").None?
  {
    SpanBareGoesOn(s, "]");
    if s == [] {
      assert s + "]" == "]";
    } else {
      assert (s + "]")[0] == s[0] && (s + "]")[1..] == s[1..] + "]";
      if s[0] == '"' {
        StringStaysOpen(s[1..]);
      } else if s[0] == '\'' {
        LiteralStaysOpen(s[1..]);
      }
    }
  }

  // -------------------------------------------------------------------------
  // What is left after a key
  // -------------------------------------------------------------------------

  // `left` is what is left of `s` when some characters are passed over, none of
  // them a line break.
  predicate Leaves(s: string, left: string) {
    s == left || (s != [] && s[0] != '\n' && Leaves(s[1..], left))
  }

  lemma {:induction false} LeavesInTurn(s: string, middle: string, left: string)
    requires Leaves(s, middle) && Leaves(middle, left)
    ensures Leaves(s, left)
  {
    if s != middle {
      LeavesInTurn(s[1..], middle, left);
    }
  }

  lemma {:induction false} LeftIsInside(s: string, left: string, c: char)
    requires Leaves(s, left) && c in left
    ensures c in s
  {
    if s != left {
      LeftIsInside(s[1..], left, c);
    }
  }

  lemma {:induction false} LeavesOneLine(s: string, left: string)
    requires Leaves(s, left) && OneLine(left)
    ensures OneLine(s)
  {
    if s != left {
      LeavesOneLine(s[1..], left);
      assert s == [s[0]] + s[1..];
    }
  }

  lemma {:induction false} SkipSpaceLeaves(s: string)
    ensures Leaves(s, SkipSpace(s))
  {
    if s != [] && (s[0] == ' ' || s[0] == '\t') {
      SkipSpaceLeaves(s[1..]);
    }
  }

  lemma {:induction false} SpanBareLeaves(s: string)
    ensures Leaves(s, SpanBare(s).1)
  {
    if s != [] && IsBare(s[0]) {
      SpanBareLeaves(s[1..]);
      assert !IsBare('\n');
    }
  }

  lemma {:induction false} HexIsOneLine(digits: string)
    requires ReadHex(digits).Some?
    ensures OneLine(digits)
  {
    if digits != [] {
      HexIsOneLine(digits[..|digits| - 1]);
      assert digits == digits[..|digits| - 1] + [digits[|digits| - 1]];
    }
  }

  lemma {:induction false} FrontLeaves(front: string, left: string)
    requires OneLine(front)
    ensures Leaves(front + left, left)
  {
    if front == [] {
      assert front + left == left;
    } else {
      assert front[0] in front && forall c | c in front[1..] :: c in front;
      assert (front + left)[0] == front[0] && (front + left)[1..] == front[1..] + left;
      FrontLeaves(front[1..], left);
    }
  }

  lemma ScalarLeaves(s: string, n: nat)
    requires ReadScalar(s, n).Some?
    ensures Leaves(s, ReadScalar(s, n).value.1)
  {
    HexIsOneLine(s[..n]);
    FrontLeaves(s[..n], s[n..]);
    assert s == s[..n] + s[n..];
  }

  lemma EscapeLeaves(s: string)
    requires ReadEscape(s).Some?
    ensures Leaves(s, ReadEscape(s).value.1)
  {
    if s[0] == 'u' {
      ScalarLeaves(s[1..], 4);
    } else if s[0] == 'U' {
      ScalarLeaves(s[1..], 8);
    }
  }

  lemma {:induction false} StringLeaves(s: string)
    requires ReadString(s).Some?
    ensures Leaves(s, ReadString(s).value.1)
    decreases |s|
  {
    assert IsControl('\n');
    if s[0] == '\\' {
      var after := ReadEscape(s[1..]).value.1;
      EscapeLeaves(s[1..]);
      StringLeaves(after);
      LeavesInTurn(s[1..], after, ReadString(after).value.1);
    } else if s[0] != '"' {
      StringLeaves(s[1..]);
    }
  }

  lemma {:induction false} LiteralLeaves(s: string)
    requires SkipLiteral(s).Some?
    ensures Leaves(s, SkipLiteral(s).value)
  {
    assert IsControl('\n');
    if s[0] != '\'' {
      LiteralLeaves(s[1..]);
    }
  }

  lemma KeyLeaves(s: string)
    requires ReadKey(s).Some?
    ensures Leaves(s, ReadKey(s).value.1)
  {
    if s != [] && s[0] == '"' {
      StringLeaves(s[1..]);
    } else if s != [] && s[0] == '\'' {
      LiteralLeaves(s[1..]);
    } else {
      SpanBareLeaves(s);
    }
  }

  // Past the space, the key and the space after it.
  lemma KeyAndSpaceLeave(s: string)
    requires ReadKey(SkipSpace(s)).Some?
    ensures Leaves(s, SkipSpace(ReadKey(SkipSpace(s)).value.1))
  {
    var t := SkipSpace(s);
    var after := ReadKey(t).value.1;
    SkipSpaceLeaves(s);
    KeyLeaves(t);
    SkipSpaceLeaves(after);
    LeavesInTurn(t, after, SkipSpace(after));
    LeavesInTurn(s, t, SkipSpace(after));
  }

  // A name that makes a key stays on its line.
  lemma KeyIsOneLine(name: string)
    requires KeyOf(name).Some?
    ensures OneLine(name)
  {
    KeyAndSpaceLeave(name);
    LeavesOneLine(name, []);
  }

  // -------------------------------------------------------------------------
  // Headers
  // -------------------------------------------------------------------------

  // A path is read only if there is a closing bracket.
  lemma {:induction false} PathNeedsBracket(s: string)
    requires ReadPath(s).Some?
    ensures ']' in s
    decreases |s|
  {
    var u := SkipSpace(ReadKey(SkipSpace(s)).value.1);
    KeyAndSpaceLeave(s);
    if u[0] != ']' {
      RestIsShorter(s);
      PathNeedsBracket(u[1..]);
    }
    LeftIsInside(s, u, ']');
  }

  lemma RestIsShorter(s: string)
    requires ReadKey(SkipSpace(s)).Some?
    ensures |SkipSpace(ReadKey(SkipSpace(s)).value.1)| < |s|
  {
    SkipSpaceShortens(s);
    ReadKeyShortens(SkipSpace(s));
    SkipSpaceShortens(ReadKey(SkipSpace(s)).value.1);
  }

  // Behind a name that makes a key, the path ends or goes on.
  lemma NameReads(name: string, tail: string)
    requires KeyOf(name).Some? && AfterKey(tail)
    ensures ReadPath(name + tail) ==
            if tail[0] == ']' then Some(([KeyName(name)], tail[1..]))
            else match ReadPath(tail[1..])
                 case None => None
                 case Some((path, rest)) => Some(([KeyName(name)] + path, rest))
  {
    var t := SkipSpace(name);
    SkipSpaceGoesOn(name, tail);
    KeyGoesOn(t, tail);
    SkipSpaceGoesOn(ReadKey(t).value.1, tail);
    assert [] + tail == tail;
  }

  // A name that makes none is refused.
  lemma NoNameReads(name: string)
    requires Undivided(name) && KeyOf(name).None?
    ensures ReadPath(name + "]").None?
  {
    var t := SkipSpace(name);
    SkipSpaceGoesOn(name, "]");
    if ReadKey(t).None? {
      NoKeyStays(t);
    } else {
      var u := SkipSpace(ReadKey(t).value.1);
      KeyGoesOn(t, "]");
      SkipSpaceGoesOn(ReadKey(t).value.1, "]");
      KeyAndSpaceLeave(name);
      LeftIsInside(name, u, u[0]);
      assert (u + "]")[0] == u[0];
    }
  }

  lemma HeaderInParts(name: string)
    ensures HeaderLine(["servers", name]) == "[servers." + (name + "]")
    ensures HeaderLine(["servers", name, "env"]) == "[servers." + (name + ".env]")
  {
    assert ["servers", name][1..] == [name] && ["servers", name, "env"][1..] == [name, "env"];
    assert [name, "env"][1..] == ["env"];
    assert Join([name], ".") == name && Join([name, "env"], ".") == name + "." + "env";
  }

  // After the table of all servers, the rest of the path.
  lemma ServersFirst(rest: string)
    ensures ReadLine("[servers." + rest) ==
            match ReadPath(rest)
            case None => None
            case Some((path, after)) => if LineEnds(after) then Some(Header(["servers"] + path)) else None
  {
    var line := "[servers." + rest;
    assert line[0] == '[' && SkipSpace(line) == line;
    assert line[1..] == "servers" + ("." + rest);
    assert BareKey("servers");
    BareIsItsKey("servers");
    NameReads("servers", "." + rest);
    assert ("." + rest)[1..] == rest;
  }

  lemma EnvTailReads()
    ensures ReadPath("env]") == Some((["env"], ""))
  {
    assert BareKey("env");
    BareIsItsKey("env");
    NameReads("env", "]");
    assert "env" + "]" == "env]" && "]"[1..] == "";
  }

  // The two headers of a server whose name makes a key.
  lemma ServerHeadersRead(name: string)
    requires KeyOf(name).Some?
    ensures ReadLine(HeaderLine(["servers", name])) == Some(Header(["servers", KeyName(name)]))
    ensures ReadLine(HeaderLine(["servers", name, "env"])) == Some(Header(["servers", KeyName(name), "env"]))
  {
    HeaderInParts(name);
    ServersFirst(name + "]");
    NameReads(name, "]");
    assert "]"[1..] == "";
    ServersFirst(name + ".env]");
    NameReads(name, ".env]");
    EnvTailReads();
    assert ".env]"[1..] == "env]";
    assert ["servers"] + [KeyName(name)] == ["servers", KeyName(name)];
    assert ["servers"] + ([KeyName(name)] + ["env"]) == ["servers", KeyName(name), "env"];
  }
}
