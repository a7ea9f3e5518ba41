/**
 A reader for configuration files in TOML v1.0.0: comments, one entry to a line, entries with bare
 keys (section 'Keys'), table headers of bare and quoted keys (section 'Table'), basic strings
 (section 'String') and arrays of basic strings (section 'Array'), which have the meaning TOML
 gives them. Any other value that stands on
 its line, a number, a boolean, a date, a literal string, a mixed array or an inline table, is
 carried as it is written and not looked into. Other text is refused.
 */
module TomlReader {
  import opened Common

  datatype TomlValue = Str(text: string) | Arr(items: seq<string>) | Opaque(written: string)

  datatype Line = Blank | Header(path: seq<string>) | Entry(key: string, value: TomlValue)

  type Table = map<string, TomlValue>

  type Document = map<seq<string>, Table>

  predicate IsBare(c: char) {
    'A' <= c <= 'Z' || 'a' <= c <= 'z' || '0' <= c <= '9' || c == '_' || c == '-'
  }

  predicate BareKey(s: string) {
    s != [] && forall i :: 0 <= i < |s| ==> IsBare(s[i])
  }

  // What a basic string may not hold as it is, besides the quote and the backslash.
  predicate IsControl(c: char) {
    (c < ' ' && c != '\t') || c == '\U{7F}'
  }

  predicate ControlFree(s: string) {
    forall i :: 0 <= i < |s| ==> !IsControl(s[i])
  }

  // -------------------------------------------------------------------------
  // Characters to lines
  // -------------------------------------------------------------------------

  function SplitLines(text: string): (lines: seq<string>)
    ensures lines != []
  {
    if text == [] then [[]]
    else
      var rest := SplitLines(text[1..]);
      if text[0] == '\n' then [[]] + rest else [[text[0]] + rest[0]] + rest[1..]
  }

  function SkipSpace(s: string): string {
    if s != [] && (s[0] == ' ' || s[0] == '\t') then SkipSpace(s[1..]) else s
  }

  // The bare key at the front, and what follows it.
  function SpanBare(s: string): (string, string) {
    if s == [] || !IsBare(s[0]) then ([], s)
    else
      var (key, rest) := SpanBare(s[1..]);
      ([s[0]] + key, rest)
  }

  function Unescape(c: char): Option<char> {
    match c
    case 'b' => Some('\U{8}')
    case 't' => Some('\t')
    case 'n' => Some('\n')
    case 'f' => Some('\U{C}')
    case 'r' => Some('\r')
    case '"' => Some('"')
    case '\\' => Some('\\')
    case _ => None
  }

  function HexDigit(c: char): Option<nat> {
    if '0' <= c <= '9' then Some(c as nat - '0' as nat)
    else if 'a' <= c <= 'f' then Some(c as nat - 'a' as nat + 10)
    else if 'A' <= c <= 'F' then Some(c as nat - 'A' as nat + 10)
    else None
  }

  function ReadHex(digits: string): Option<nat> {
    if digits == [] then Some(0)
    else
      var n := |digits| - 1;
      var high, low := ReadHex(digits[..n]), HexDigit(digits[n]);
      if high.Some? && low.Some? then Some(16 * high.value + low.value) else None
  }

  // A Unicode scalar value.
  function Scalar(n: nat): Option<char> {
    if n < 0xD800 || 0xE000 <= n < 0x11_0000 then Some(n as char) else None
  }

  // The character given by the first n hexadecimal digits, and what follows them.
  function ReadScalar(s: string, n: nat): (r: Option<(char, string)>)
    ensures r.Some? ==> n <= |s| && r.value.1 == s[n..]
  {
    if |s| < n then None
    else
      match ReadHex(s[..n])
      case None => None
      case Some(code) =>
        match Scalar(code)
        case None => None
        case Some(c) => Some((c, s[n..]))
  }

  // After a backslash: the character meant, and what follows the escape.
  function ReadEscape(s: string): (r: Option<(char, string)>)
    ensures r.Some? ==> |r.value.1| < |s|
  {
    if s == [] then None
    else if s[0] == 'u' then ReadScalar(s[1..], 4)
    else if s[0] == 'U' then ReadScalar(s[1..], 8)
    else
      match Unescape(s[0])
      case None => None
      case Some(c) => Some((c, s[1..]))
  }

  // After the opening quote: the string, and what follows the closing quote.
  function ReadString(s: string): Option<(string, string)>
    decreases |s|
  {
    if s == [] || IsControl(s[0]) then None
    else if s[0] == '"' then Some(([], s[1..]))
    else if s[0] == '\\' then
      match ReadEscape(s[1..])
      case None => None
      case Some((c, after)) =>
        match ReadString(after)
        case None => None
        case Some((text, rest)) => Some(([c] + text, rest))
    else match ReadString(s[1..])
         case None => None
         case Some((text, rest)) => Some(([s[0]] + text, rest))
  }

  lemma {:induction false} SkipSpaceShortens(s: string)
    ensures |SkipSpace(s)| <= |s|
  {
    if s != [] {
      SkipSpaceShortens(s[1..]);
    }
  }

  lemma {:induction false} ReadStringShortens(s: string)
    ensures ReadString(s).Some? ==> |ReadString(s).value.1| < |s|
    decreases |s|
  {
    if |s| > 0 {
      ReadStringShortens(s[1..]);
      if ReadEscape(s[1..]).Some? {
        ReadStringShortens(ReadEscape(s[1..]).value.1);
      }
    }
  }

  // After the opening bracket: the strings, and what follows the closing bracket.
  function ReadArray(s: string): Option<(seq<string>, string)>
    decreases |s|
  {
    SkipSpaceShortens(s);
    var t := SkipSpace(s);
    if t == [] then None
    else if t[0] == ']' then Some(([], t[1..]))
    else if t[0] != '"' then None
    else
      ReadStringShortens(t[1..]);
      match ReadString(t[1..])
      case None => None
      case Some((item, after)) =>
        SkipSpaceShortens(after);
        var u := SkipSpace(after);
        if u == [] then None
        else if u[0] == ']' then Some(([item], u[1..]))
        else if u[0] != ',' then None
        else match ReadArray(u[1..])
             case None => None
             case Some((items, rest)) => Some(([item] + items, rest))
  }

  // What numbers, booleans, dates and times are written with.
  predicate IsScalar(c: char) {
    IsBare(c) || c == '+' || c == '.' || c == ':'
  }

  // After a number, boolean, date or time.
  function SkipScalar(s: string): (rest: string)
    ensures |rest| <= |s|
  {
    if s != [] && IsScalar(s[0]) then SkipScalar(s[1..]) else s
  }

  // After the closing quote of a literal string.
  function SkipLiteral(s: string): (rest: Option<string>)
    ensures rest.Some? ==> |rest.value| < |s|
  {
    if s == [] || IsControl(s[0]) then None else if s[0] == '\'' then Some(s[1..]) else SkipLiteral(s[1..])
  }

  // After the bracket or brace that closes `depth` open ones; strings in between
  // are passed over, and a comment or the end of the line leaves them open.
  function SkipNested(s: string, depth: nat): (rest: Option<string>)
    ensures rest.Some? ==> |rest.value| < |s|
    decreases |s|
  {
    if s == [] || IsControl(s[0]) || s[0] == '#' then None
    else if s[0] == '"' then
      ReadStringShortens(s[1..]);
      match ReadString(s[1..])
      case None => None
      case Some((_, after)) => SkipNested(after, depth)
    else if s[0] == '\'' then
      match SkipLiteral(s[1..])
      case None => None
      case Some(after) => SkipNested(after, depth)
    else if s[0] == '[' || s[0] == '{' then SkipNested(s[1..], depth + 1)
    else if s[0] == ']' || s[0] == '}' then
      if depth <= 1 then Some(s[1..]) else SkipNested(s[1..], depth - 1)
    else SkipNested(s[1..], depth)
  }

  function SkipOpaque(s: string): (rest: Option<string>)
    ensures rest.Some? ==> |rest.value| < |s|
  {
    if s == [] then None
    else if s[0] == '[' || s[0] == '{' then SkipNested(s[1..], 1)
    else if s[0] == '\'' then SkipLiteral(s[1..])
    else if IsScalar(s[0]) then Some(SkipScalar(s[1..]))
    else None
  }

  function ReadOpaque(s: string): Option<(TomlValue, string)> {
    match SkipOpaque(s)
    case None => None
    case Some(rest) => Some((Opaque(s[..|s| - |rest|]), rest))
  }

  function ReadValue(s: string): Option<(TomlValue, string)> {
    if s != [] && s[0] == '"' then
      match ReadString(s[1..])
      case None => None
      case Some((text, rest)) => Some((Str(text), rest))
    else if s != [] && s[0] == '[' && ReadArray(s[1..]).Some? then
      var (items, rest) := ReadArray(s[1..]).value;
      Some((Arr(items), rest))
    else ReadOpaque(s)
  }

  lemma {:induction false} SpanBareShortens(s: string)
    ensures |SpanBare(s).0| + |SpanBare(s).1| == |s|
  {
    if s != [] {
      SpanBareShortens(s[1..]);
    }
  }

  // A quoted or a bare key at the front, and what follows it.
  function ReadKey(s: string): Option<(string, string)> {
    if s != [] && s[0] == '"' then ReadString(s[1..])
    else if s != [] && s[0] == '\'' then
      match SkipLiteral(s[1..])
      case None => None
      case Some(rest) => Some((s[1..|s| - |rest| - 1], rest))
    else
      var (key, rest) := SpanBare(s);
      if key == [] then None else Some((key, rest))
  }

  lemma ReadKeyShortens(s: string)
    ensures ReadKey(s).Some? ==> |ReadKey(s).value.1| < |s|
  {
    if s != [] {
      ReadStringShortens(s[1..]);
    }
    SpanBareShortens(s);
  }

  // After the opening bracket of a header: the dotted keys, with space around
  // them, and what follows the closing one.
  function ReadPath(s: string): Option<(seq<string>, string)>
    decreases |s|
  {
    SkipSpaceShortens(s);
    var t := SkipSpace(s);
    ReadKeyShortens(t);
    match ReadKey(t)
    case None => None
    case Some((key, after)) =>
      SkipSpaceShortens(after);
      var u := SkipSpace(after);
      if u == [] then None
      else if u[0] == ']' then Some(([key], u[1..]))
      else if u[0] != '.' then None
      else match ReadPath(u[1..])
           case None => None
           case Some((path, rest)) => Some(([key] + path, rest))
  }

  // Nothing more on the line but space and a comment.
  predicate LineEnds(s: string) {
    var t := SkipSpace(s);
    t == [] || (t[0] == '#' && ControlFree(t))
  }

  function ReadLine(line: string): Option<Line> {
    var t := SkipSpace(line);
    if LineEnds(t) then Some(Blank)
    else if t[0] == '[' then
      match ReadPath(t[1..])
      case None => None
      case Some((path, rest)) => if LineEnds(rest) then Some(Header(path)) else None
    else
      var (key, rest) := SpanBare(t);
      var u := SkipSpace(rest);
      if key == [] || u == [] || u[0] != '=' then None
      else match ReadValue(SkipSpace(u[1..]))
           case None => None
           case Some((value, after)) => if LineEnds(after) then Some(Entry(key, value)) else None
  }

  // -------------------------------------------------------------------------
  // Lines to tables
  // -------------------------------------------------------------------------

  // The tables so far, and the one entries now go to.
  datatype Reading = Reading(tables: Document, current: seq<string>)

  const Start := Reading(map[[] := map[]], [])

  // A table is not defined twice, and not inside something that is a value.
  ghost predicate MayOpen(tables: Document, path: seq<string>) {
    && path !in tables
    && forall k :: 0 <= k < |path| && path[..k] in tables ==> path[k] !in tables[path[..k]]
  }

  // A key is not given twice in a table, and does not name a table.
  ghost predicate MaySet(r: Reading, key: string) {
    && r.current in r.tables && key !in r.tables[r.current]
    && forall path :: path in r.tables ==> !(r.current + [key] <= path)
  }

  ghost function Take(r: Reading, line: string): Option<Reading> {
    match ReadLine(line)
    case None => None
    case Some(Blank) => Some(r)
    case Some(Header(path)) =>
      if MayOpen(r.tables, path) then Some(Reading(r.tables[path := map[]], path)) else None
    case Some(Entry(key, value)) =>
      if MaySet(r, key) then Some(r.(tables := r.tables[r.current := r.tables[r.current][key := value]])) else None
  }

  ghost function TakeAll(r: Reading, lines: seq<string>): Option<Reading> {
    if lines == [] then Some(r)
    else match TakeAll(r, lines[..|lines| - 1])
         case None => None
         case Some(mid) => Take(mid, lines[|lines| - 1])
  }

  ghost function ReadToml(text: string): Option<Document> {
    match TakeAll(Start, SplitLines(text))
    case None => None
    case Some(r) => Some(r.tables)
  }

  lemma {:induction false} TakeAllInParts(r: Reading, a: seq<string>, b: seq<string>)
    ensures TakeAll(r, a + b) ==
            match TakeAll(r, a) case None => None case Some(mid) => TakeAll(mid, b)
  {
    if b == [] {
      assert a + b == a;
    } else {
      var n := |b| - 1;
      assert (a + b)[..|a + b| - 1] == a + b[..n];
      TakeAllInParts(r, a, b[..n]);
    }
  }

  // -------------------------------------------------------------------------
  // What the pieces read
  // -------------------------------------------------------------------------

  function Unlines(lines: seq<string>): string {
    if lines == [] then [] else lines[0] + "\n" + Unlines(lines[1..])
  }

  predicate OneLine(s: string) {
    '\n' !in s
  }

  lemma {:induction false} SplitFirstLine(line: string, rest: string)
    requires OneLine(line)
    ensures SplitLines(line + "\n" + rest) == [line] + SplitLines(rest)
  {
    var text := line + "\n" + rest;
    if line == [] {
      assert text[1..] == rest;
    } else {
      assert text[0] == line[0] && text[1..] == line[1..] + "\n" + rest;
      SplitFirstLine(line[1..], rest);
      assert [line[0]] + line[1..] == line;
    }
  }

  lemma {:induction false} SplitUnlines(lines: seq<string>)
    requires forall i :: 0 <= i < |lines| ==> OneLine(lines[i])
    ensures SplitLines(Unlines(lines)) == lines + [[]]
  {
    if lines != [] {
      SplitFirstLine(lines[0], Unlines(lines[1..]));
      SplitUnlines(lines[1..]);
    }
  }

  // Text that starts with a line break is read from a new line wherever the
  // text before it stopped.
  lemma {:induction false} BreakStartsALine(text: string, more: string)
    ensures SplitLines(text + "\n" + more) == SplitLines(text) + SplitLines(more)
  {
    var all := text + "\n" + more;
    if text == [] {
      assert all[1..] == more;
    } else {
      assert all[0] == text[0] && all[1..] == text[1..] + "\n" + more;
      BreakStartsALine(text[1..], more);
    }
  }

  lemma {:induction false} UnlinesInParts(a: seq<string>, b: seq<string>)
    ensures Unlines(a + b) == Unlines(a) + Unlines(b)
  {
    if a == [] {
      assert a + b == b;
    } else {
      assert (a + b)[1..] == a[1..] + b;
      UnlinesInParts(a[1..], b);
    }
  }

  lemma {:induction false} SpanBareStops(key: string, rest: string)
    requires (forall i :: 0 <= i < |key| ==> IsBare(key[i])) && (rest == [] || !IsBare(rest[0]))
    ensures SpanBare(key + rest) == (key, rest)
  {
    if key == [] {
      assert key + rest == rest;
    } else {
      assert (key + rest)[0] == key[0] && (key + rest)[1..] == key[1..] + rest;
      SpanBareStops(key[1..], rest);
      assert [key[0]] + key[1..] == key;
    }
  }
}
