/**
 Imported servers printed as sections of the configuration file: section by section output, names
 that do not collide, and what a TOML reader makes of the whole text.
 */
module TomlPrinter {
  import opened Common
  import opened TomlReader
  import opened TomlText
  import opened HeaderKeys

  // The fields the import looks at; the environment in the order it is walked.
  datatype Launch = Launch(
    transport: Transport,
    command: Option<string>,
    args: seq<string>,
    url: Option<string>,
    spec: Option<string>,
    env: seq<(string, string)>)

  datatype ClientSource =
    | ClaudeDesktop | ClaudeCode | Cursor | Devin | VSCodeCopilot | CopilotCli | GeminiCli | CodexCli
    | GrokBuild | OpenCode | Zed | Cline | ClineCli | RooCode | Factory | Nanobot | Junie | Kilo | Pi
    | Warp | Kiro | KimiCode | QwenCode | Antigravity | Goose | Hermes | Amp | OpenClaw | LmStudio | MuseCode

  datatype Discovered = Discovered(name: string, source: ClientSource, config: Launch)

  // -------------------------------------------------------------------------
  // Entries of one table
  // -------------------------------------------------------------------------

  datatype Printed = Printed(key: string, text: string, value: TomlValue)

  predicate GoodEntry(e: Printed) {
    BareKey(e.key) && ReadsAs(e.text, e.value)
  }

  predicate KeysDiffer(es: seq<Printed>) {
    forall i, j :: 0 <= i < j < |es| ==> es[i].key != es[j].key
  }

  predicate GoodEntries(es: seq<Printed>) {
    KeysDiffer(es) && forall i :: 0 <= i < |es| ==> GoodEntry(es[i])
  }

  function EntryLines(es: seq<Printed>): seq<string> {
    if es == [] then [] else EntryLines(es[..|es| - 1]) + [EntryLine(es[|es| - 1].key, es[|es| - 1].text)]
  }

  function TableOf(es: seq<Printed>): Table {
    if es == [] then map[] else TableOf(es[..|es| - 1])[es[|es| - 1].key := es[|es| - 1].value]
  }

  lemma {:induction false} TableKeys(es: seq<Printed>, key: string)
    ensures key in TableOf(es) <==> exists i :: 0 <= i < |es| && es[i].key == key
  {
    if es != [] {
      TableKeys(es[..|es| - 1], key);
    }
  }

  // Entries put into a table that is open and empty fill it with their values.
  lemma {:induction false} EntriesFillTable(r: Reading, es: seq<Printed>)
    requires GoodEntries(es) && r.current in r.tables && r.tables[r.current] == map[]
    requires forall path :: path in r.tables ==> path == r.current || !(r.current <= path)
    ensures TakeAll(r, EntryLines(es)) == Some(r.(tables := r.tables[r.current := TableOf(es)]))
  {
    if es == [] {
      assert r.tables[r.current := map[]] == r.tables;
    } else {
      var n := |es| - 1;
      var e, before := es[n], es[..n];
      EntriesFillTable(r, before);
      EntryLineReads(e.key, e.text, e.value);
      var mid := r.(tables := r.tables[r.current := TableOf(before)]);
      TableKeys(before, e.key);
      assert MaySet(mid, e.key) by {
        assert forall path :: path in mid.tables && r.current + [e.key] <= path ==> r.current <= path;
      }
      assert mid.tables[r.current := TableOf(es)] == r.tables[r.current := TableOf(es)];
      assert EntryLines(es)[..|EntryLines(es)| - 1] == EntryLines(before);
    }
  }

  // -------------------------------------------------------------------------
  // One server
  // -------------------------------------------------------------------------

  function Body(c: Launch): seq<Printed> {
    match c.transport
    case Stdio =>
      (if c.command.Some? then [Printed("command", TomlQuote(c.command.value), Str(c.command.value))] else [])
      + (if c.args != [] then [Printed("args", ArrayText(c.args), Arr(c.args))] else [])
    case Http =>
      if c.url.Some?
      then [Printed("transport", "\"http\"", Str("http")), Printed("url", TomlQuote(c.url.value), Str(c.url.value))]
      else []
    case Sse =>
      if c.url.Some?
      then [Printed("transport", "\"sse\"", Str("sse")), Printed("url", TomlQuote(c.url.value), Str(c.url.value))]
      else []
    case OpenApi => []
  }

  function EnvEntries(env: seq<(string, string)>): seq<Printed> {
    seq(|env|, i requires 0 <= i < |env| => Printed(env[i].0, TomlQuote(env[i].1), Str(env[i].1)))
  }

  function TablePath(name: string): seq<string> {
    ["servers", name]
  }

  function EnvPath(name: string): seq<string> {
    ["servers", name, "env"]
  }

  function EnvLines(name: string, env: seq<(string, string)>): seq<string> {
    if env == [] then [] else [HeaderLine(EnvPath(name))] + EntryLines(EnvEntries(env))
  }

  function TableLines(name: string, c: Launch): seq<string> {
    [HeaderLine(TablePath(name))] + EntryLines(Body(c)) + EnvLines(name, c.env)
  }

  function ServerLines(name: string, c: Launch): seq<string> {
    [""] + TableLines(name, c)
  }

  // Environment names are bare, and each is there once.
  predicate EnvNamed(c: Launch) {
    && (forall i :: 0 <= i < |c.env| ==> BareKey(c.env[i].0))
    && (forall i, j :: 0 <= i < j < |c.env| ==> c.env[i].0 != c.env[j].0)
  }

  // The values printed for this transport, and those of the environment, hold no
  // control character.
  predicate ValuesControlFree(c: Launch) {
    && (c.transport.Stdio? ==> (c.command.Some? ==> ControlFree(c.command.value)) && AllControlFree(c.args))
    && (c.transport.Http? || c.transport.Sse? ==> c.url.Some? ==> ControlFree(c.url.value))
    && (forall i :: 0 <= i < |c.env| ==> ControlFree(c.env[i].1))
  }

  predicate Printable(c: Launch) {
    EnvNamed(c) && ValuesControlFree(c)
  }

  lemma QuotedEntry(key: string, s: string)
    requires BareKey(key) && ControlFree(s)
    ensures GoodEntry(Printed(key, TomlQuote(s), Str(s)))
  {
    QuoteRoundTrips(s);
  }

  lemma KeyAbsent(es: seq<Printed>, key: string)
    requires forall i :: 0 <= i < |es| ==> es[i].key != key
    ensures key !in TableOf(es)
  {
    TableKeys(es, key);
  }

  lemma AtMostTwo(es: seq<Printed>)
    requires |es| <= 2 && (forall i :: 0 <= i < |es| ==> GoodEntry(es[i]))
    requires |es| == 2 ==> es[0].key != es[1].key
    ensures GoodEntries(es)
  {
    assert KeysDiffer(es);
  }

  lemma StdioBodyIsGood(c: Launch)
    requires Printable(c) && c.transport.Stdio?
    ensures GoodEntries(Body(c)) && "env" !in TableOf(Body(c))
  {
    assert BareKey("command") && BareKey("args");
    if c.command.Some? {
      QuotedEntry("command", c.command.value);
    }
    if c.args != [] {
      ArrayRoundTrips(c.args);
    }
    AtMostTwo(Body(c));
    KeyAbsent(Body(c), "env");
  }

  lemma RemoteBodyIsGood(c: Launch)
    requires Printable(c) && (c.transport.Http? || c.transport.Sse?)
    ensures GoodEntries(Body(c)) && "env" !in TableOf(Body(c))
  {
    assert BareKey("transport") && BareKey("url");
    PlainQuotes();
    if c.url.Some? {
      QuotedEntry("url", c.url.value);
    }
    AtMostTwo(Body(c));
    KeyAbsent(Body(c), "env");
  }

  lemma BodyIsGood(c: Launch)
    requires Printable(c)
    ensures GoodEntries(Body(c)) && "env" !in TableOf(Body(c))
  {
    match c.transport
    case Stdio => StdioBodyIsGood(c);
    case Http => RemoteBodyIsGood(c);
    case Sse => RemoteBodyIsGood(c);
    case OpenApi =>
  }

  lemma PlainQuotes()
    ensures ReadsAs("\"http\"", Str("http")) && ReadsAs("\"sse\"", Str("sse"))
  {
    PlainQuoted("http");
    PlainQuoted("sse");
    assert "\"" + "http" + "\"" == "\"http\"";
    assert "\"" + "sse" + "\"" == "\"sse\"";
  }

  lemma PlainQuoted(s: string)
    requires '"' !in s && '\\' !in s && ControlFree(s)
    ensures ReadsAs("\"" + s + "\"", Str(s))
  {
    QuoteRoundTrips(s);
    TwoReplacementsAreOneEscape(s);
    PlainEscape(s);
  }

  lemma {:induction false} PlainEscape(s: string)
    requires '"' !in s && '\\' !in s
    ensures Escape(s) == s
  {
    if s != [] {
      PlainEscape(s[1..]);
      assert s == [s[0]] + s[1..];
    }
  }

  lemma EnvIsGood(c: Launch)
    requires Printable(c)
    ensures GoodEntries(EnvEntries(c.env))
  {
    forall i | 0 <= i < |c.env| ensures ReadsAs(TomlQuote(c.env[i].1), Str(c.env[i].1)) {
      QuoteRoundTrips(c.env[i].1);
    }
  }

  function AddServer(tables: Document, name: string, c: Launch): Document {
    var withBody := tables[TablePath(name) := TableOf(Body(c))];
    if c.env == [] then withBody else withBody[EnvPath(name) := TableOf(EnvEntries(c.env))]
  }

  // A file that defines the servers `used` and no others, each in a table of its own.
  ghost predicate DefinesServers(tables: Document, used: set<string>) {
    && [] in tables && "servers" !in tables[[]]
    && (forall name :: name in used ==> TablePath(name) in tables)
    && (["servers"] in tables ==> forall key :: key in tables[["servers"]] ==> key in used)
    && (forall path :: path in tables && |path| >= 2 && path[0] == "servers" ==> path[1] in used)
  }

  lemma HeaderOpens(r: Reading, line: string, path: seq<string>)
    requires ReadLine(line) == Some(Header(path))
    ensures TakeAll(r, [line]) ==
            if MayOpen(r.tables, path) then Some(Reading(r.tables[path := map[]], path)) else None
  {
    assert [line][..0] == [];
    assert TakeAll(r, []) == Some(r);
  }

  lemma SectionReads(r: Reading, line: string, path: seq<string>, es: seq<Printed>)
    requires ReadLine(line) == Some(Header(path))
    requires GoodEntries(es) && MayOpen(r.tables, path)
    requires forall other :: other in r.tables ==> !(path <= other)
    ensures TakeAll(r, [line] + EntryLines(es)) == Some(Reading(r.tables[path := TableOf(es)], path))
  {
    HeaderOpens(r, line, path);
    TakeAllInParts(r, [line], EntryLines(es));
    var mid := Reading(r.tables[path := map[]], path);
    EntriesFillTable(mid, es);
    UpdatedTwice(r.tables, path, map[], TableOf(es));
  }

  lemma UpdatedTwice(tables: Document, path: seq<string>, first: Table, second: Table)
    ensures tables[path := first][path := second] == tables[path := second]
  {
  }

  lemma FreshPathIsFree(tables: Document, used: set<string>, name: string)
    requires DefinesServers(tables, used) && name !in used
    ensures MayOpen(tables, TablePath(name))
    ensures forall other :: other in tables ==> !(TablePath(name) <= other)
  {
    var path := TablePath(name);
    assert path[1] == name;
    forall k | 0 <= k < |path| && path[..k] in tables ensures path[k] !in tables[path[..k]] {
      if k == 0 {
        assert path[..k] == [];
      } else {
        assert path[..k] == ["servers"];
      }
    }
  }

  lemma EnvPathIsFree(tables: Document, used: set<string>, name: string, table: Table)
    requires DefinesServers(tables, used) && name !in used && "env" !in table
    ensures var mid := tables[TablePath(name) := table];
            && MayOpen(mid, EnvPath(name))
            && forall other :: other in mid ==> !(EnvPath(name) <= other)
  {
    var path, mid := EnvPath(name), tables[TablePath(name) := table];
    assert path[0] == "servers" && path[1] == name;
    forall k | 0 <= k < |path| && path[..k] in mid ensures path[k] !in mid[path[..k]] {
      if k == 0 {
        assert path[..k] == [];
      } else if k == 1 {
        assert path[..k] == ["servers"];
      } else {
        assert path[..k] == TablePath(name);
      }
    }
  }

  lemma BlankLineReads(r: Reading, lines: seq<string>)
    ensures TakeAll(r, [""] + lines) == TakeAll(r, lines)
  {
    TakeAllInParts(r, [""], lines);
    assert [""][..0] == [];
    assert TakeAll(r, []) == Some(r) && TakeAll(r, [""]) == Some(r);
  }

  lemma HeaderRefused(r: Reading, name: string)
    requires KeyOf(name).Some? && TablePath(KeyName(name)) in r.tables
    ensures TakeAll(r, [HeaderLine(TablePath(name))]) == None
  {
    ServerHeadersRead(name);
    HeaderOpens(r, HeaderLine(TablePath(name)), TablePath(KeyName(name)));
  }

  lemma TablesRefused(r: Reading, name: string, c: Launch)
    requires KeyOf(name).Some? && TablePath(KeyName(name)) in r.tables
    ensures TakeAll(r, TableLines(name, c)) == None
  {
    var line := HeaderLine(TablePath(name));
    HeaderRefused(r, name);
    var rest := EntryLines(Body(c)) + EnvLines(name, c.env);
    TakeAllInParts(r, [line], rest);
    assert TableLines(name, c) == [line] + rest;
  }

  function LastPath(name: string, c: Launch): seq<string> {
    if c.env == [] then TablePath(name) else EnvPath(name)
  }

  lemma TablesRead(r: Reading, used: set<string>, name: string, c: Launch)
    requires Printable(c) && KeyOf(name).Some? && DefinesServers(r.tables, used) && KeyName(name) !in used
    ensures var key := KeyName(name);
            TakeAll(r, TableLines(name, c)) == Some(Reading(AddServer(r.tables, key, c), LastPath(key, c)))
  {
    var key := KeyName(name);
    ServerHeadersRead(name);
    BodyIsGood(c);
    FreshPathIsFree(r.tables, used, key);
    var top := [HeaderLine(TablePath(name))] + EntryLines(Body(c));
    SectionReads(r, HeaderLine(TablePath(name)), TablePath(key), Body(c));
    TakeAllInParts(r, top, EnvLines(name, c.env));
    var mid := Reading(r.tables[TablePath(key) := TableOf(Body(c))], TablePath(key));
    if c.env != [] {
      EnvIsGood(c);
      EnvPathIsFree(r.tables, used, key, TableOf(Body(c)));
      SectionReads(mid, HeaderLine(EnvPath(name)), EnvPath(key), EnvEntries(c.env));
    } else {
      assert TakeAll(mid, []) == Some(mid);
    }
  }

  // One server's lines are readable exactly when the key its name makes is new to
  // the file, and then they add that server's tables under that key.
  lemma ServerReads(r: Reading, used: set<string>, name: string, c: Launch)
    requires Printable(c) && KeyOf(name).Some? && DefinesServers(r.tables, used)
    ensures var key := KeyName(name);
            TakeAll(r, ServerLines(name, c)) ==
            if key in used then None else Some(Reading(AddServer(r.tables, key, c), LastPath(key, c)))
  {
    BlankLineReads(r, TableLines(name, c));
    if KeyName(name) in used {
      TablesRefused(r, name, c);
    } else {
      TablesRead(r, used, name, c);
    }
  }

  lemma TableDefinesServer(tables: Document, used: set<string>, name: string, table: Table)
    requires DefinesServers(tables, used)
    ensures DefinesServers(tables[TablePath(name) := table], used + {name})
  {
    assert TablePath(name)[1] == name && |TablePath(name)| == 2;
  }

  lemma EnvDefinesNoServer(tables: Document, used: set<string>, name: string, table: Table)
    requires DefinesServers(tables, used) && name in used
    ensures DefinesServers(tables[EnvPath(name) := table], used)
  {
    assert EnvPath(name)[1] == name && |EnvPath(name)| == 3;
  }

  lemma AddedServerIsDefined(tables: Document, used: set<string>, name: string, c: Launch)
    requires DefinesServers(tables, used) && name !in used
    ensures DefinesServers(AddServer(tables, name, c), used + {name})
    ensures forall path :: path in tables ==>
              path in AddServer(tables, name, c) && AddServer(tables, name, c)[path] == tables[path]
  {
    TableDefinesServer(tables, used, name, TableOf(Body(c)));
    EnvDefinesNoServer(tables[TablePath(name) := TableOf(Body(c))], used + {name}, name, TableOf(EnvEntries(c.env)));
    assert TablePath(name)[1] == name && EnvPath(name)[1] == name;
  }
}
