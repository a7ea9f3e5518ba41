/**
 Servers discovered in other clients, printed one after another under names resolved against the
 ones in use, and appended to a configuration file: when the file can still be read, and what it
 then says.
 */
module ImportedServers {
  import opened Common
  import opened TomlReader
  import opened TomlText
  import opened HeaderKeys
  import opened TomlPrinter
  import opened BrokenLines

  // -------------------------------------------------------------------------
  // Names
  // -------------------------------------------------------------------------

  function Suffix(source: ClientSource): string {
    match source
    case ClaudeDesktop => "claude-desktop"
    case ClaudeCode => "claude-code"
    case Cursor => "cursor"
    case Devin => "devin"
    case VSCodeCopilot => "vscode"
    case CopilotCli => "copilot"
    case GeminiCli => "gemini"
    case CodexCli => "codex"
    case GrokBuild => "grok"
    case OpenCode => "opencode"
    case Zed => "zed"
    case Cline => "cline"
    case ClineCli => "cline-cli"
    case RooCode => "roocode"
    case Factory => "factory"
    case Nanobot => "nanobot"
    case Junie => "junie"
    case Kilo => "kilo"
    case Pi => "pi"
    case Warp => "warp"
    case Kiro => "kiro"
    case KimiCode => "kimi"
    case QwenCode => "qwen"
    case Antigravity => "antigravity"
    case Goose => "goose"
    case Hermes => "hermes"
    case Amp => "amp"
    case OpenClaw => "openclaw"
    case LmStudio => "lmstudio"
    case MuseCode => "muse-code"
  }

  function Suffixed(name: string, source: ClientSource): string {
    name + "-" + Suffix(source)
  }

  // The suffixed name is taken without asking whether it is free.
  function Resolve(name: string, source: ClientSource, used: set<string>): string {
    if name !in used then name else Suffixed(name, source)
  }

  function NamesFor(servers: seq<Discovered>, used: set<string>): (names: seq<string>)
    ensures |names| == |servers|
  {
    if servers == [] then []
    else
      var before, s := servers[..|servers| - 1], servers[|servers| - 1];
      NamesFor(before, used) + [Resolve(s.name, s.source, UsedAfter(before, used))]
  }

  function UsedAfter(servers: seq<Discovered>, used: set<string>): set<string> {
    if servers == [] then used
    else
      var before, s := servers[..|servers| - 1], servers[|servers| - 1];
      UsedAfter(before, used) + {Resolve(s.name, s.source, UsedAfter(before, used))}
  }

  // At every server either its own name or the suffixed one is still free.
  predicate AlwaysFree(servers: seq<Discovered>, used: set<string>) {
    if servers == [] then true
    else
      var before, s := servers[..|servers| - 1], servers[|servers| - 1];
      && AlwaysFree(before, used)
      && (s.name !in UsedAfter(before, used) || Suffixed(s.name, s.source) !in UsedAfter(before, used))
  }

  lemma {:induction false} UsedAfterIsUsedAndGiven(servers: seq<Discovered>, used: set<string>)
    ensures UsedAfter(servers, used) == used + (set name | name in NamesFor(servers, used))
  {
    if servers != [] {
      UsedAfterIsUsedAndGiven(servers[..|servers| - 1], used);
    }
  }

  // The names given out are new and different from each other exactly when a
  // free name was on offer at every server.
  lemma {:induction false} NamesDifferExactlyWhenFree(servers: seq<Discovered>, used: set<string>)
    ensures AlwaysFree(servers, used) <==>
            NoDuplicates(NamesFor(servers, used)) && forall name | name in NamesFor(servers, used) :: name !in used
  {
    if servers != [] {
      var before := servers[..|servers| - 1];
      NamesDifferExactlyWhenFree(before, used);
      UsedAfterIsUsedAndGiven(before, used);
      LastOneIsNew(NamesFor(before, used), NamesFor(servers, used)[|servers| - 1], used);
    }
  }

  lemma LastOneIsNew(names: seq<string>, last: string, used: set<string>)
    ensures NoDuplicates(names + [last]) && (forall name | name in names + [last] :: name !in used) <==>
            (NoDuplicates(names) && (forall name | name in names :: name !in used)) && last !in names && last !in used
  {
    var all := names + [last];
    assert all[..|names|] == names && all[|names|] == last;
    if NoDuplicates(all) {
      assert NoDuplicates(names) by {
        assert forall i | 0 <= i < |names| :: names[i] == all[i];
      }
      assert last !in names by {
        assert forall i | 0 <= i < |names| :: all[i] != all[|names|];
      }
    }
    assert last in all;
    assert forall name | name in names :: name in all;
  }

  // Servers whose own names are new and different keep them.
  lemma {:induction false} NewNamesAreKept(servers: seq<Discovered>, used: set<string>)
    requires forall i :: 0 <= i < |servers| ==> servers[i].name !in used
    requires forall i, j :: 0 <= i < j < |servers| ==> servers[i].name != servers[j].name
    ensures AlwaysFree(servers, used)
    ensures forall i :: 0 <= i < |servers| ==> NamesFor(servers, used)[i] == servers[i].name
  {
    if servers != [] {
      NewNamesAreKept(servers[..|servers| - 1], used);
      UsedAfterIsUsedAndGiven(servers[..|servers| - 1], used);
    }
  }

  predicate IsEarly(source: ClientSource) {
    || source.ClaudeDesktop? || source.ClaudeCode? || source.Cursor? || source.Devin? || source.VSCodeCopilot?
    || source.CopilotCli? || source.GeminiCli? || source.CodexCli? || source.GrokBuild? || source.OpenCode?
    || source.Zed? || source.Cline? || source.ClineCli? || source.RooCode? || source.Factory?
  }

  lemma EarlySuffixIsBare(source: ClientSource)
    requires IsEarly(source)
    ensures forall i :: 0 <= i < |Suffix(source)| ==> IsBare(Suffix(source)[i])
  {
  }

  lemma LateSuffixIsBare(source: ClientSource)
    requires !IsEarly(source)
    ensures forall i :: 0 <= i < |Suffix(source)| ==> IsBare(Suffix(source)[i])
  {
  }

  lemma SuffixIsBare(source: ClientSource)
    ensures forall i :: 0 <= i < |Suffix(source)| ==> IsBare(Suffix(source)[i])
  {
    if IsEarly(source) {
      EarlySuffixIsBare(source);
    } else {
      LateSuffixIsBare(source);
    }
  }

  lemma SuffixedCharacters(name: string, source: ClientSource, c: char)
    requires c in Suffixed(name, source)
    ensures c in name || IsBare(c)
  {
    var text, suffix := Suffixed(name, source), Suffix(source);
    SuffixIsBare(source);
    var i :| 0 <= i < |text| && text[i] == c;
    if i < |name| {
      assert c in name;
    } else if i > |name| {
      assert text[i] == suffix[i - |name| - 1];
    }
  }

  lemma ResolvedIsBare(name: string, source: ClientSource, used: set<string>)
    requires BareKey(name)
    ensures BareKey(Resolve(name, source, used))
  {
    var text := Suffixed(name, source);
    forall i | 0 <= i < |text| ensures IsBare(text[i]) {
      SuffixedCharacters(name, source, text[i]);
    }
  }

  lemma ResolvedIsUndivided(name: string, source: ClientSource, used: set<string>)
    requires Undivided(name)
    ensures Undivided(Resolve(name, source, used))
  {
    assert !IsBare('.') && !IsBare(']');
    forall c | c in Suffixed(name, source) ensures c != '.' && c != ']' {
      SuffixedCharacters(name, source, c);
    }
  }

  // -------------------------------------------------------------------------
  // All the lines, and the tables they add
  // -------------------------------------------------------------------------

  function AllLines(servers: seq<Discovered>, used: set<string>): seq<string> {
    if servers == [] then []
    else
      var before, s := servers[..|servers| - 1], servers[|servers| - 1];
      AllLines(before, used) + ServerLines(Resolve(s.name, s.source, UsedAfter(before, used)), s.config)
  }

  // Each server under the key that its given name makes.
  function AddServers(tables: Document, servers: seq<Discovered>, seen: set<string>): Document {
    if servers == [] then tables
    else
      var before, s := servers[..|servers| - 1], servers[|servers| - 1];
      var name := Resolve(s.name, s.source, UsedAfter(before, seen));
      AddServer(AddServers(tables, before, seen), KeyName(name), s.config)
  }

  function KeysFor(servers: seq<Discovered>, seen: set<string>): (keys: seq<string>)
    ensures |keys| == |servers|
  {
    if servers == [] then []
    else
      var before, s := servers[..|servers| - 1], servers[|servers| - 1];
      KeysFor(before, seen) + [KeyName(Resolve(s.name, s.source, UsedAfter(before, seen)))]
  }

  // Servers with bare names and control-free values.
  predicate AllPrintable(servers: seq<Discovered>) {
    forall i :: 0 <= i < |servers| ==> BareKey(servers[i].name) && Printable(servers[i].config)
  }

  // Names with no dot and no closing bracket in them, and proper environment
  // names; the rest of a name, and every value, may be anything.
  predicate Named(s: Discovered) {
    Undivided(s.name) && EnvNamed(s.config)
  }

  predicate AllNamed(servers: seq<Discovered>) {
    forall i :: 0 <= i < |servers| ==> Named(servers[i])
  }

  // The name makes a key, and no value holds a control character.
  predicate Readable(name: string, c: Launch) {
    KeyOf(name).Some? && Printable(c)
  }

  // So with every name given while resolving against `seen`.
  predicate AllReadable(servers: seq<Discovered>, seen: set<string>) {
    if servers == [] then true
    else
      var before, s := servers[..|servers| - 1], servers[|servers| - 1];
      && AllReadable(before, seen)
      && Readable(Resolve(s.name, s.source, UsedAfter(before, seen)), s.config)
  }

  // The servers defined by a file that defined `defined` before.
  function DefinedAfter(servers: seq<Discovered>, seen: set<string>, defined: set<string>): set<string> {
    if servers == [] then defined
    else
      var before, s := servers[..|servers| - 1], servers[|servers| - 1];
      DefinedAfter(before, seen, defined) + {KeyName(Resolve(s.name, s.source, UsedAfter(before, seen)))}
  }

  // Every name given makes a key that is new to the file.
  predicate GivenFresh(servers: seq<Discovered>, seen: set<string>, defined: set<string>) {
    if servers == [] then true
    else
      var before, s := servers[..|servers| - 1], servers[|servers| - 1];
      && GivenFresh(before, seen, defined)
      && KeyName(Resolve(s.name, s.source, UsedAfter(before, seen))) !in DefinedAfter(before, seen, defined)
  }

  lemma {:induction false} DefinedIsDefinedAndGiven(servers: seq<Discovered>, seen: set<string>, defined: set<string>)
    ensures DefinedAfter(servers, seen, defined) == defined + (set key | key in KeysFor(servers, seen))
    ensures GivenFresh(servers, seen, defined) ==> forall key | key in KeysFor(servers, seen) :: key !in defined
  {
    if servers != [] {
      DefinedIsDefinedAndGiven(servers[..|servers| - 1], seen, defined);
    }
  }

  // Bare names are their own keys: the keys are new exactly when a free name was
  // on offer for every server.
  lemma {:induction false} BareNamesAreKeys(servers: seq<Discovered>, used: set<string>)
    requires forall i :: 0 <= i < |servers| ==> BareKey(servers[i].name)
    ensures KeysFor(servers, used) == NamesFor(servers, used)
    ensures DefinedAfter(servers, used, used) == UsedAfter(servers, used)
    ensures GivenFresh(servers, used, used) <==> AlwaysFree(servers, used)
  {
    if servers != [] {
      var before, s := servers[..|servers| - 1], servers[|servers| - 1];
      BareNamesAreKeys(before, used);
      ResolvedIsBare(s.name, s.source, UsedAfter(before, used));
      BareIsItsKey(Resolve(s.name, s.source, UsedAfter(before, used)));
    }
  }

  lemma {:induction false} PrintableIsReadable(servers: seq<Discovered>, seen: set<string>)
    requires AllPrintable(servers)
    ensures AllNamed(servers) && AllReadable(servers, seen)
  {
    if servers != [] {
      var before, s := servers[..|servers| - 1], servers[|servers| - 1];
      PrintableIsReadable(before, seen);
      BareIsItsKey(s.name);
      ResolvedIsBare(s.name, s.source, UsedAfter(before, seen));
      BareIsItsKey(Resolve(s.name, s.source, UsedAfter(before, seen)));
      NamedInParts(servers);
    }
  }

  ghost predicate ReadsTo(after: Option<Reading>, tables: Document, used: set<string>) {
    after.Some? && after.value.tables == tables && DefinesServers(tables, used)
  }

  lemma OneMoreRead(mid: Reading, used: set<string>, name: string, c: Launch)
    requires Readable(name, c) && DefinesServers(mid.tables, used)
    ensures var after, key := TakeAll(mid, Exploded(ServerLines(name, c))), KeyName(name);
            if key in used then after == None else ReadsTo(after, AddServer(mid.tables, key, c), used + {key})
  {
    ServerIsOneLines(name, c);
    OneLinesStay(ServerLines(name, c));
    ServerReads(mid, used, name, c);
    if KeyName(name) !in used {
      AddedServerIsDefined(mid.tables, used, KeyName(name), c);
    }
  }

  lemma NamedInParts(servers: seq<Discovered>)
    requires servers != []
    ensures AllNamed(servers) <==> AllNamed(servers[..|servers| - 1]) && Named(servers[|servers| - 1])
  {
    var before, s := servers[..|servers| - 1], servers[|servers| - 1];
    assert forall i | 0 <= i < |servers| :: servers[i] == if i < |before| then before[i] else s;
  }

  lemma LinesInParts(r: Reading, servers: seq<Discovered>, seen: set<string>)
    requires servers != []
    ensures var before, s := servers[..|servers| - 1], servers[|servers| - 1];
            var name := Resolve(s.name, s.source, UsedAfter(before, seen));
            var mid := TakeAll(r, Exploded(AllLines(before, seen)));
            TakeAll(r, Exploded(AllLines(servers, seen))) ==
            if mid.None? then None else TakeAll(mid.value, Exploded(ServerLines(name, s.config)))
  {
    var before, s := servers[..|servers| - 1], servers[|servers| - 1];
    var name := Resolve(s.name, s.source, UsedAfter(before, seen));
    ExplodedInParts(AllLines(before, seen), ServerLines(name, s.config));
    TakeAllInParts(r, Exploded(AllLines(before, seen)), Exploded(ServerLines(name, s.config)));
  }

  // The lines of all the servers, read after a file that defines `defined`.
  lemma {:induction false} LinesRead(r: Reading, servers: seq<Discovered>, seen: set<string>, defined: set<string>)
    requires AllNamed(servers) && DefinesServers(r.tables, defined)
    ensures var after := TakeAll(r, Exploded(AllLines(servers, seen)));
            if GivenFresh(servers, seen, defined) && AllReadable(servers, seen)
            then ReadsTo(after, AddServers(r.tables, servers, seen), DefinedAfter(servers, seen, defined))
            else after == None
  {
    if servers == [] {
      assert TakeAll(r, []) == Some(r);
    } else {
      var before, s := servers[..|servers| - 1], servers[|servers| - 1];
      NamedInParts(servers);
      LinesRead(r, before, seen, defined);
      LinesInParts(r, servers, seen);
      if GivenFresh(before, seen, defined) && AllReadable(before, seen) {
        var mid := TakeAll(r, Exploded(AllLines(before, seen))).value;
        LastServerRead(mid, s, UsedAfter(before, seen), DefinedAfter(before, seen, defined));
      }
    }
  }

  lemma LastServerRead(mid: Reading, s: Discovered, seen: set<string>, defined: set<string>)
    requires Named(s) && DefinesServers(mid.tables, defined)
    ensures var name := Resolve(s.name, s.source, seen);
            var after := TakeAll(mid, Exploded(ServerLines(name, s.config)));
            if KeyName(name) !in defined && Readable(name, s.config)
            then ReadsTo(after, AddServer(mid.tables, KeyName(name), s.config), defined + {KeyName(name)})
            else after == None
  {
    var name := Resolve(s.name, s.source, seen);
    if Readable(name, s.config) {
      OneMoreRead(mid, defined, name, s.config);
    } else {
      ResolvedIsUndivided(s.name, s.source, seen);
      BrokenServer(mid, name, s.config);
    }
  }

  // -------------------------------------------------------------------------
  // The text, appended to a file
  // -------------------------------------------------------------------------

  function TextOf(servers: seq<Discovered>, used: set<string>): string {
    Unlines(AllLines(servers, used))
  }

  predicate OneLines(lines: seq<string>) {
    forall i :: 0 <= i < |lines| ==> OneLine(lines[i])
  }

  predicate PrintedOnOneLine(e: Printed) {
    OneLine(e.key) && OneLine(e.text)
  }

  lemma {:induction false} EntriesAreOneLines(es: seq<Printed>)
    requires forall i :: 0 <= i < |es| ==> PrintedOnOneLine(es[i])
    ensures OneLines(EntryLines(es))
  {
    if es != [] {
      assert PrintedOnOneLine(es[|es| - 1]);
      EntriesAreOneLines(es[..|es| - 1]);
    }
  }

  lemma StdioBodyIsOneLines(c: Launch)
    requires Printable(c) && c.transport.Stdio?
    ensures forall i :: 0 <= i < |Body(c)| ==> PrintedOnOneLine(Body(c)[i])
  {
    if c.command.Some? {
      QuotedIsOneLine(c.command.value);
    }
    ItemsAreOneLine(c.args);
  }

  lemma RemoteBodyIsOneLines(c: Launch)
    requires Printable(c) && !c.transport.Stdio?
    ensures forall i :: 0 <= i < |Body(c)| ==> PrintedOnOneLine(Body(c)[i])
  {
    if !c.transport.OpenApi? && c.url.Some? {
      QuotedIsOneLine(c.url.value);
    }
  }

  lemma BodyIsOneLines(c: Launch)
    requires Printable(c)
    ensures OneLines(EntryLines(Body(c)))
  {
    if c.transport.Stdio? {
      StdioBodyIsOneLines(c);
    } else {
      RemoteBodyIsOneLines(c);
    }
    EntriesAreOneLines(Body(c));
  }

  lemma EnvIsOneLines(name: string, c: Launch)
    requires Printable(c) && OneLine(name)
    ensures OneLines(EnvLines(name, c.env))
  {
    forall i | 0 <= i < |c.env| ensures PrintedOnOneLine(EnvEntries(c.env)[i]) {
      BareIsOneLine(c.env[i].0);
      QuotedIsOneLine(c.env[i].1);
    }
    EntriesAreOneLines(EnvEntries(c.env));
    HeaderIsOneLine(name);
  }

  lemma HeaderIsOneLine(name: string)
    requires OneLine(name)
    ensures OneLine(HeaderLine(TablePath(name))) && OneLine(HeaderLine(EnvPath(name)))
  {
    assert Join([name, "env"], ".") == name + "." + "env";
    assert TablePath(name)[1..] == [name] && EnvPath(name)[1..] == [name, "env"];
    assert Join([name], ".") == name;
  }

  lemma ServerIsOneLines(name: string, c: Launch)
    requires Readable(name, c)
    ensures OneLines(ServerLines(name, c))
  {
    KeyIsOneLine(name);
    HeaderIsOneLine(name);
    BodyIsOneLines(c);
    EnvIsOneLines(name, c);
  }

  lemma {:induction false} FirstLineIsBlank(servers: seq<Discovered>, used: set<string>)
    requires servers != []
    ensures AllLines(servers, used) != [] && AllLines(servers, used)[0] == ""
  {
    if |servers| > 1 {
      FirstLineIsBlank(servers[..|servers| - 1], used);
    } else {
      assert AllLines(servers[..0], used) == [];
    }
  }

  lemma BlankLineAtTheEnd(r: Reading, lines: seq<string>)
    ensures TakeAll(r, lines + [""]) == TakeAll(r, lines)
  {
    assert (lines + [""])[..|lines|] == lines;
  }

  lemma SplitAppended(file: string, lines: seq<string>)
    requires lines != [] && lines[0] == ""
    ensures SplitLines(file + Unlines(lines)) == SplitLines(file) + (Exploded(lines)[1..] + [""])
    ensures Exploded(lines) == [""] + Exploded(lines)[1..]
  {
    SplitExploded(lines[1..]);
    assert file + Unlines(lines) == file + "\n" + Unlines(lines[1..]);
    BreakStartsALine(file, Unlines(lines[1..]));
    assert SplitLines("") == [""];
    assert Exploded(lines)[1..] == Exploded(lines[1..]);
  }

  // The printed text appended to a file that could be read, with its last line
  // finished or not, when the names are resolved against `seen` and the file
  // defines `defined`.
  lemma AppendedTextReads(
    file: string, doc: Document, servers: seq<Discovered>, seen: set<string>, defined: set<string>)
    requires ReadToml(file) == Some(doc) && DefinesServers(doc, defined) && AllNamed(servers)
    ensures ReadToml(file + TextOf(servers, seen)) ==
            if GivenFresh(servers, seen, defined) && AllReadable(servers, seen)
            then Some(AddServers(doc, servers, seen)) else None
  {
    if servers == [] {
      assert file + TextOf(servers, seen) == file;
    } else {
      var r := TakeAll(Start, SplitLines(file)).value;
      var lines := AllLines(servers, seen);
      FirstLineIsBlank(servers, seen);
      SplitAppended(file, lines);
      TakeAllInParts(Start, SplitLines(file), Exploded(lines)[1..] + [""]);
      BlankLineAtTheEnd(r, Exploded(lines)[1..]);
      BlankLineReads(r, Exploded(lines)[1..]);
      LinesRead(r, servers, seen, defined);
    }
  }

  // With the names in use known: the file can still be read exactly when every name
  // given makes a key new to it and every value is free of control characters.
  lemma AppendedFileReads(file: string, doc: Document, servers: seq<Discovered>, used: set<string>)
    requires ReadToml(file) == Some(doc) && DefinesServers(doc, used) && AllNamed(servers)
    ensures ReadToml(file + TextOf(servers, used)) ==
            if GivenFresh(servers, used, used) && AllReadable(servers, used)
            then Some(AddServers(doc, servers, used)) else None
  {
    AppendedTextReads(file, doc, servers, used, used);
  }

  // When the names imported are bare, that is exactly when a free name was on offer
  // for every server and every value is free of control characters.
  lemma BareNamesReadExactly(file: string, doc: Document, servers: seq<Discovered>, used: set<string>)
    requires ReadToml(file) == Some(doc) && DefinesServers(doc, used)
    requires forall i :: 0 <= i < |servers| ==> BareKey(servers[i].name) && EnvNamed(servers[i].config)
    ensures ReadToml(file + TextOf(servers, used)) ==
            if AlwaysFree(servers, used) && AllPrintable(servers) then Some(AddServers(doc, servers, used)) else None
  {
    forall i | 0 <= i < |servers| ensures Named(servers[i]) {
      BareIsItsKey(servers[i].name);
    }
    BareNamesAreKeys(servers, used);
    AppendedTextReads(file, doc, servers, used, used);
    if AllPrintable(servers) {
      PrintableIsReadable(servers, used);
    } else {
      UnprintableIsUnreadable(servers, used);
    }
  }

  lemma {:induction false} UnprintableIsUnreadable(servers: seq<Discovered>, seen: set<string>)
    requires !AllPrintable(servers) && forall i :: 0 <= i < |servers| ==> BareKey(servers[i].name)
    ensures !AllReadable(servers, seen)
  {
    var before, s := servers[..|servers| - 1], servers[|servers| - 1];
    if Printable(s.config) {
      assert !AllPrintable(before) by {
        assert forall i | 0 <= i < |servers| :: servers[i] == if i < |before| then before[i] else s;
      }
      UnprintableIsUnreadable(before, seen);
    }
  }

  // A space after a name is no part of the key it makes.
  lemma SpaceAfterKey(name: string)
    requires BareKey(name)
    ensures Undivided(name + " ") && KeyOf(name + " ") == Some(name)
  {
    BareIsItsKey(name);
    assert !IsBare(' ') && IsBare((name + " ")[0]) && !IsBare('"') && !IsBare('\'') && !IsBare('\t');
    assert SkipSpace(name + " ") == name + " ";
    SpanBareStops(name, " ");
    assert " "[1..] == [];
  }

  // So two names that differ and are both free can make the same key, and then the
  // file can no longer be read.
  lemma SpacesHideCollisions(file: string, doc: Document, used: set<string>, spaced: Discovered, plain: Discovered)
    requires ReadToml(file) == Some(doc) && DefinesServers(doc, used)
    requires BareKey(plain.name) && spaced.name == plain.name + " "
    requires EnvNamed(spaced.config) && EnvNamed(plain.config)
    requires plain.name !in used && spaced.name !in used
    ensures AlwaysFree([spaced, plain], used) && ReadToml(file + TextOf([spaced, plain], used)) == None
  {
    var both := [spaced, plain];
    NewNamesAreKept(both, used);
    SpaceAfterKey(plain.name);
    BareIsItsKey(plain.name);
    assert both[..1] == [spaced] && [spaced][..0] == [];
    assert NamesFor(both, used)[0] == spaced.name && NamesFor(both, used)[1] == plain.name;
    AppendedTextReads(file, doc, both, used, used);
  }

  // -------------------------------------------------------------------------
  // What the file then says of each server
  // -------------------------------------------------------------------------

  // The tables a server was printed as.
  ghost predicate Shows(tables: Document, name: string, c: Launch) {
    && TablePath(name) in tables && tables[TablePath(name)] == TableOf(Body(c))
    && if c.env == [] then EnvPath(name) !in tables
       else EnvPath(name) in tables && tables[EnvPath(name)] == TableOf(EnvEntries(c.env))
  }

  lemma ShownAfterAdding(tables: Document, used: set<string>, name: string, c: Launch)
    requires DefinesServers(tables, used) && name !in used
    ensures Shows(AddServer(tables, name, c), name, c)
  {
    assert EnvPath(name)[1] == name;
  }

  lemma StillShown(tables: Document, name: string, c: Launch, other: string, d: Launch)
    requires Shows(tables, name, c) && name != other
    ensures Shows(AddServer(tables, other, d), name, c)
  {
    assert TablePath(name)[1] == EnvPath(name)[1] == name;
    assert TablePath(other)[1] == EnvPath(other)[1] == other;
  }

  ghost predicate AllShown(tables: Document, names: seq<string>, servers: seq<Discovered>) {
    |names| == |servers| && forall i :: 0 <= i < |servers| ==> Shows(tables, names[i], servers[i].config)
  }

  ghost predicate Extends(after: Document, tables: Document) {
    forall path :: path in tables ==> path in after && after[path] == tables[path]
  }

  lemma AllStillShown(tables: Document, names: seq<string>, servers: seq<Discovered>, other: string, d: Launch)
    requires AllShown(tables, names, servers) && other !in names
    ensures AllShown(AddServer(tables, other, d), names, servers)
  {
    forall i | 0 <= i < |servers| ensures Shows(AddServer(tables, other, d), names[i], servers[i].config) {
      assert names[i] in names;
      StillShown(tables, names[i], servers[i].config, other, d);
    }
  }

  lemma OneMoreShown(tables: Document, used: set<string>, names: seq<string>, servers: seq<Discovered>,
      name: string, s: Discovered)
    requires DefinesServers(tables, used) && AllShown(tables, names, servers)
    requires name !in used && name !in names
    ensures var after := AddServer(tables, name, s.config);
            && DefinesServers(after, used + {name}) && Extends(after, tables)
            && AllShown(after, names + [name], servers + [s])
  {
    AddedServerIsDefined(tables, used, name, s.config);
    ShownAfterAdding(tables, used, name, s.config);
    AllStillShown(tables, names, servers, name, s.config);
  }

  ghost predicate CarriesAll(
    after: Document, tables: Document, servers: seq<Discovered>, seen: set<string>, defined: set<string>)
  {
    && DefinesServers(after, DefinedAfter(servers, seen, defined)) && Extends(after, tables)
    && AllShown(after, KeysFor(servers, seen), servers)
  }

  lemma ExtendsInTurn(after: Document, mid: Document, tables: Document)
    requires Extends(after, mid) && Extends(mid, tables)
    ensures Extends(after, tables)
  {
  }

  lemma KeysOneMore(servers: seq<Discovered>, seen: set<string>, defined: set<string>, key: string)
    requires servers != [] && GivenFresh(servers, seen, defined)
    requires var s := servers[|servers| - 1];
             key == KeyName(Resolve(s.name, s.source, UsedAfter(servers[..|servers| - 1], seen)))
    ensures var before := servers[..|servers| - 1];
            && KeysFor(servers, seen) == KeysFor(before, seen) + [key]
            && DefinedAfter(servers, seen, defined) == DefinedAfter(before, seen, defined) + {key}
            && key !in DefinedAfter(before, seen, defined) && key !in KeysFor(before, seen)
  {
    DefinedIsDefinedAndGiven(servers[..|servers| - 1], seen, defined);
  }

  lemma AddServersLast(tables: Document, servers: seq<Discovered>, seen: set<string>, key: string)
    requires servers != []
    requires var s := servers[|servers| - 1];
             key == KeyName(Resolve(s.name, s.source, UsedAfter(servers[..|servers| - 1], seen)))
    ensures AddServers(tables, servers, seen) ==
            AddServer(AddServers(tables, servers[..|servers| - 1], seen), key, servers[|servers| - 1].config)
  {
  }

  lemma FrontAndLastShown(tables: Document, names: seq<string>, servers: seq<Discovered>)
    requires servers != [] && AllShown(tables, names, servers[..|servers| - 1] + [servers[|servers| - 1]])
    ensures AllShown(tables, names, servers)
  {
    assert servers == servers[..|servers| - 1] + [servers[|servers| - 1]];
  }

  lemma OneMoreOnTop(mid: Document, tables: Document, used: set<string>, names: seq<string>,
      servers: seq<Discovered>, name: string)
    requires servers != [] && DefinesServers(mid, used) && Extends(mid, tables)
    requires AllShown(mid, names, servers[..|servers| - 1]) && name !in used && name !in names
    ensures var after := AddServer(mid, name, servers[|servers| - 1].config);
            && DefinesServers(after, used + {name}) && Extends(after, tables)
            && AllShown(after, names + [name], servers)
  {
    var before, s := servers[..|servers| - 1], servers[|servers| - 1];
    OneMoreShown(mid, used, names, before, name, s);
    ExtendsInTurn(AddServer(mid, name, s.config), mid, tables);
    FrontAndLastShown(AddServer(mid, name, s.config), names + [name], servers);
  }

  // One step of the induction, for the list with one more server.
  lemma LastIsCarried(
    mid: Document, tables: Document, servers: seq<Discovered>, seen: set<string>, defined: set<string>)
    requires servers != [] && GivenFresh(servers, seen, defined)
    requires CarriesAll(mid, tables, servers[..|servers| - 1], seen, defined)
    ensures var s := servers[|servers| - 1];
            var key := KeyName(Resolve(s.name, s.source, UsedAfter(servers[..|servers| - 1], seen)));
            CarriesAll(AddServer(mid, key, s.config), tables, servers, seen, defined)
  {
    var before, s := servers[..|servers| - 1], servers[|servers| - 1];
    var key := KeyName(Resolve(s.name, s.source, UsedAfter(before, seen)));
    KeysOneMore(servers, seen, defined, key);
    OneMoreOnTop(mid, tables, DefinedAfter(before, seen, defined), KeysFor(before, seen), servers, key);
  }

  lemma NoneToShow(tables: Document, seen: set<string>, defined: set<string>)
    requires DefinesServers(tables, defined)
    ensures CarriesAll(tables, tables, [], seen, defined)
  {
  }

  lemma {:induction false} EveryServerIsShown(
    tables: Document, servers: seq<Discovered>, seen: set<string>, defined: set<string>)
    requires DefinesServers(tables, defined) && GivenFresh(servers, seen, defined)
    ensures CarriesAll(AddServers(tables, servers, seen), tables, servers, seen, defined)
  {
    if servers == [] {
      NoneToShow(tables, seen, defined);
    } else {
      var before, s := servers[..|servers| - 1], servers[|servers| - 1];
      EveryServerIsShown(tables, before, seen, defined);
      LastIsCarried(AddServers(tables, before, seen), tables, servers, seen, defined);
      AddServersLast(tables, servers, seen, KeyName(Resolve(s.name, s.source, UsedAfter(before, seen))));
    }
  }

  // How the configuration reads a server's table: stdio unless it says otherwise.
  function TransportOf(t: Table): Option<Transport> {
    if "transport" !in t then Some(Stdio)
    else if t["transport"] == Str("stdio") then Some(Stdio)
    else if t["transport"] == Str("http") then Some(Http)
    else if t["transport"] == Str("sse") then Some(Sse)
    else if t["transport"] == Str("openapi") then Some(OpenApi)
    else None
  }

  function TextAt(t: Table, key: string): Option<string> {
    if key in t && t[key].Str? then Some(t[key].text) else None
  }

  function ListAt(t: Table, key: string): seq<string> {
    if key in t && t[key].Arr? then t[key].items else []
  }

  function EnvAt(tables: Document, name: string): map<string, string> {
    if EnvPath(name) in tables
    then map key | key in tables[EnvPath(name)] && tables[EnvPath(name)][key].Str? :: tables[EnvPath(name)][key].text
    else map[]
  }

  function EnvMap(env: seq<(string, string)>): map<string, string> {
    if env == [] then map[] else EnvMap(env[..|env| - 1])[env[|env| - 1].0 := env[|env| - 1].1]
  }

  // The file says of this server what was discovered of it.
  ghost predicate ComesBack(tables: Document, name: string, c: Launch)
    requires TablePath(name) in tables
  {
    var t := tables[TablePath(name)];
    && TransportOf(t) == Some(c.transport)
    && (c.transport.Stdio? ==> TextAt(t, "command") == c.command && ListAt(t, "args") == c.args)
    && (c.transport.Http? || c.transport.Sse? ==> TextAt(t, "url") == c.url)
    && EnvAt(tables, name) == EnvMap(c.env)
  }

  lemma {:induction false} EnvTableIsEnv(env: seq<(string, string)>)
    ensures var t := TableOf(EnvEntries(env));
            && t.Keys == EnvMap(env).Keys
            && forall key :: key in t ==> t[key] == Str(EnvMap(env)[key])
  {
    if env != [] {
      EnvTableIsEnv(env[..|env| - 1]);
      assert EnvEntries(env)[..|env| - 1] == EnvEntries(env[..|env| - 1]);
    }
  }

  lemma EnvComesBack(tables: Document, name: string, c: Launch)
    requires Shows(tables, name, c)
    ensures EnvAt(tables, name) == EnvMap(c.env)
  {
    EnvTableIsEnv(c.env);
  }

  lemma TableOfTwo(a: Printed, b: Printed)
    ensures TableOf([]) == map[] && TableOf([a]) == map[a.key := a.value]
    ensures TableOf([a, b]) == map[a.key := a.value][b.key := b.value]
  {
    assert [a][..0] == [] && [a, b][..1] == [a];
  }

  lemma StdioComesBack(c: Launch)
    requires c.transport.Stdio?
    ensures var t := TableOf(Body(c));
            TransportOf(t) == Some(Stdio) && TextAt(t, "command") == c.command && ListAt(t, "args") == c.args
  {
    var command := if c.command.Some?
      then [Printed("command", TomlQuote(c.command.value), Str(c.command.value))] else [];
    var args := if c.args != [] then [Printed("args", ArrayText(c.args), Arr(c.args))] else [];
    assert Body(c) == command + args;
    if c.command.Some? && c.args != [] {
      TableOfTwo(command[0], args[0]);
      assert command + args == [command[0], args[0]];
    } else if c.command.Some? {
      TableOfTwo(command[0], command[0]);
      assert command + args == [command[0]];
    } else if c.args != [] {
      TableOfTwo(args[0], args[0]);
      assert command + args == [args[0]];
    }
  }

  lemma RemoteComesBack(c: Launch)
    requires c.transport.Http? || c.transport.Sse?
    ensures var t := TableOf(Body(c));
            if c.url.Some? then TransportOf(t) == Some(c.transport) && TextAt(t, "url") == c.url
            else TransportOf(t) == Some(Stdio)
  {
    if c.url.Some? {
      TableOfTwo(Body(c)[0], Body(c)[1]);
      assert Body(c) == [Body(c)[0], Body(c)[1]];
    }
  }

  // A server printed comes back exactly when it is a local command or has its
  // address; one without comes back as a local command with nothing to run.
  lemma ShownComesBack(tables: Document, name: string, c: Launch)
    requires Shows(tables, name, c)
    ensures ComesBack(tables, name, c) <==> Carried(c)
  {
    EnvComesBack(tables, name, c);
    match c.transport
    case Stdio => StdioComesBack(c);
    case Http => RemoteComesBack(c);
    case Sse => RemoteComesBack(c);
    case OpenApi =>
  }

  // A server the printer carries: local, or with its address.
  predicate Carried(c: Launch) {
    c.transport.Stdio? || (!c.transport.OpenApi? && c.url.Some?)
  }

  // The file can still be read exactly when every name given makes a key new to
  // it and every value is free of control characters; then everything it said is
  // still there, and each server comes back under the key of its given name.
  lemma ImportedServersComeBack(file: string, doc: Document, servers: seq<Discovered>, used: set<string>)
    requires ReadToml(file) == Some(doc) && DefinesServers(doc, used) && AllNamed(servers)
    ensures var after := ReadToml(file + TextOf(servers, used));
            && (after.Some? <==> GivenFresh(servers, used, used) && AllReadable(servers, used))
            && (after.Some? ==>
                  && (forall path :: path in doc ==> path in after.value && after.value[path] == doc[path])
                  && forall i :: 0 <= i < |servers| ==>
                       var key, c := KeysFor(servers, used)[i], servers[i].config;
                       TablePath(key) in after.value && (ComesBack(after.value, key, c) <==> Carried(c)))
  {
    AppendedTextReads(file, doc, servers, used, used);
    if GivenFresh(servers, used, used) {
      EveryServerIsShown(doc, servers, used, used);
      AllComeBack(AddServers(doc, servers, used), KeysFor(servers, used), servers);
    }
  }

  lemma AllComeBack(tables: Document, keys: seq<string>, servers: seq<Discovered>)
    requires AllShown(tables, keys, servers)
    ensures forall i :: 0 <= i < |servers| ==>
              && TablePath(keys[i]) in tables
              && (ComesBack(tables, keys[i], servers[i].config) <==> Carried(servers[i].config))
  {
    forall i | 0 <= i < |servers|
      ensures TablePath(keys[i]) in tables
      ensures ComesBack(tables, keys[i], servers[i].config) <==> Carried(servers[i].config)
    {
      ShownComesBack(tables, keys[i], servers[i].config);
    }
  }

  // An empty file defines nothing, so servers with different bare names are
  // printed under those names and read back from the text alone.
  lemma PrintedTextReadsBack(servers: seq<Discovered>)
    requires AllPrintable(servers)
    requires forall i, j :: 0 <= i < j < |servers| ==> servers[i].name != servers[j].name
    ensures var after := ReadToml(TextOf(servers, {}));
            && after.Some?
            && forall i :: 0 <= i < |servers| ==>
                 var name, c := servers[i].name, servers[i].config;
                 TablePath(name) in after.value && (ComesBack(after.value, name, c) <==> Carried(c))
  {
    assert [""][..0] == [];
    assert TakeAll(Start, []) == Some(Start);
    assert ReadToml("") == Some(Start.tables);
    NewNamesAreKept(servers, {});
    BareNamesAreKeys(servers, {});
    PrintableIsReadable(servers, {});
    ImportedServersComeBack("", Start.tables, servers, {});
    assert "" + TextOf(servers, {}) == TextOf(servers, {});
  }

  lemma DottedHeader(first: string, second: string)
    ensures HeaderLine(TablePath(first + "." + second)) == HeaderLine(["servers", first, second])
  {
    var name := first + "." + second;
    assert TablePath(name)[1..] == [name];
    assert Join(TablePath(name), ".") == "servers" + "." + name;
    assert ["servers", first, second][1..] == [first, second] && [first, second][1..] == [second];
    assert Join([first, second], ".") == name;
  }

  lemma DottedPathIsFree(tables: Document, used: set<string>, first: string, second: string)
    requires DefinesServers(tables, used) && first !in used
    ensures MayOpen(tables, ["servers", first, second])
    ensures forall other :: other in tables ==> !(["servers", first, second] <= other)
  {
    var path := ["servers", first, second];
    assert path[0] == "servers" && path[1] == first;
    assert path[..2] == TablePath(first) && TablePath(first)[1] == first;
    forall k | 0 <= k < |path| && path[..k] in tables ensures path[k] !in tables[path[..k]] {
      if k == 0 {
        assert path[..k] == [];
      } else {
        assert path[..1] == ["servers"];
      }
    }
  }

  lemma DottedLinesRead(r: Reading, path: seq<string>, name: string, c: Launch)
    requires ReadLine(HeaderLine(TablePath(name))) == Some(Header(path)) && Printable(c) && c.env == []
    requires MayOpen(r.tables, path) && forall other :: other in r.tables ==> !(path <= other)
    ensures TakeAll(r, ServerLines(name, c)) == Some(Reading(r.tables[path := TableOf(Body(c))], path))
  {
    var section := [HeaderLine(TablePath(name))] + EntryLines(Body(c));
    assert ServerLines(name, c) == [""] + section;
    BlankLineReads(r, section);
    BodyIsGood(c);
    SectionReads(r, HeaderLine(TablePath(name)), path, Body(c));
  }

  // What a dotted name defines: a table inside that of the server named by its
  // first part, and no server of its own name.
  lemma DottedNameIsAnother(r: Reading, first: string, second: string, c: Launch, used: set<string>)
    requires BareKey(first) && BareKey(second) && Printable(c) && c.env == []
    requires DefinesServers(r.tables, used) && first !in used && first + "." + second !in used
    ensures var after := TakeAll(r, ServerLines(first + "." + second, c));
            var path := ["servers", first, second];
            && after == Some(Reading(r.tables[path := TableOf(Body(c))], path))
            && TablePath(first + "." + second) !in after.value.tables && TablePath(first) !in after.value.tables
  {
    var name, path := first + "." + second, ["servers", first, second];
    DottedHeader(first, second);
    DottedPathIsFree(r.tables, used, first, second);
    assert BareKey("servers");
    HeaderLineReads(path);
    DottedLinesRead(r, path, name, c);
    assert TablePath(first)[1] == first && TablePath(name)[1] == name;
  }

  // The suffixed name can be taken too, and then one server makes a readable
  // file unreadable.
  lemma SuffixCanCollide(file: string, doc: Document, used: set<string>, s: Discovered)
    requires ReadToml(file) == Some(doc) && DefinesServers(doc, used) && AllPrintable([s])
    requires s.name in used && Suffixed(s.name, s.source) in used
    ensures ReadToml(file + TextOf([s], used)) == None
  {
    BareNamesReadExactly(file, doc, [s], used);
    OneServerIsFree(s, used);
  }

  lemma OneServerIsFree(s: Discovered, used: set<string>)
    ensures AlwaysFree([s], used) <==> s.name !in used || Suffixed(s.name, s.source) !in used
  {
    assert [s][..0] == [];
    assert UsedAfter([], used) == used;
  }

  // -------------------------------------------------------------------------
  // The printer
  // -------------------------------------------------------------------------

  lemma LineAdded(lines: seq<string>, line: string)
    ensures Unlines(lines + [line]) == Unlines(lines) + (line + "\n")
  {
    UnlinesInParts(lines, [line]);
    assert [line][1..] == [];
    assert Unlines([line]) == line + "\n";
  }

  lemma OneEntryText(e: Printed)
    ensures Unlines(EntryLines([e])) == EntryLine(e.key, e.text) + "\n"
  {
    assert [e][..0] == [];
    LineAdded([], EntryLine(e.key, e.text));
  }

  lemma EntryAdded(es: seq<Printed>, e: Printed)
    ensures Unlines(EntryLines(es + [e])) == Unlines(EntryLines(es)) + (EntryLine(e.key, e.text) + "\n")
  {
    assert (es + [e])[..|es|] == es;
    LineAdded(EntryLines(es), EntryLine(e.key, e.text));
  }

  function CommandText(c: Launch): string {
    if c.command.Some? then "command = " + TomlQuote(c.command.value) + "\n" else ""
  }

  function ArgsText(c: Launch): string {
    if c.args != [] then "args = [" + Join(QuoteAll(c.args), ", ") + "]\n" else ""
  }

  lemma StdioText(c: Launch)
    requires c.transport.Stdio?
    ensures Unlines(EntryLines(Body(c))) == CommandText(c) + ArgsText(c)
  {
    var command := if c.command.Some?
      then [Printed("command", TomlQuote(c.command.value), Str(c.command.value))] else [];
    if c.command.Some? {
      OneEntryText(command[0]);
    }
    assert Unlines(EntryLines(command)) == CommandText(c);
    if c.args != [] {
      assert EntryLine("args", ArrayText(c.args)) + "\n" == ArgsText(c);
      EntryAdded(command, Printed("args", ArrayText(c.args), Arr(c.args)));
    } else {
      assert Body(c) == command;
    }
  }

  lemma RemoteText(name: string, quoted: string, url: string)
    ensures Unlines(EntryLines([Printed("transport", quoted, Str(name)), Printed("url", TomlQuote(url), Str(url))]))
            == "transport = " + quoted + "\nurl = " + TomlQuote(url) + "\n"
  {
    var first, second := Printed("transport", quoted, Str(name)), Printed("url", TomlQuote(url), Str(url));
    OneEntryText(first);
    EntryAdded([first], second);
    assert [first] + [second] == [first, second];
  }

  lemma HeaderText(name: string)
    ensures HeaderLine(TablePath(name)) + "\n" == "[servers." + name + "]\n"
    ensures HeaderLine(EnvPath(name)) + "\n" == "[servers." + name + ".env]\n"
  {
    assert TablePath(name)[1..] == [name];
    assert Join(TablePath(name), ".") == "servers" + "." + name;
    assert EnvPath(name)[1..] == [name, "env"] && [name, "env"][1..] == ["env"];
    assert Join([name, "env"], ".") == name + "." + "env";
    assert Join(EnvPath(name), ".") == "servers" + "." + (name + "." + "env");
  }

  lemma EnvText(name: string, env: seq<(string, string)>)
    requires env != []
    ensures Unlines(EnvLines(name, env)) == "[servers." + name + ".env]\n" + Unlines(EntryLines(EnvEntries(env)))
  {
    HeaderText(name);
  }

  function EnvTextUpTo(env: seq<(string, string)>, i: nat): string
    requires i <= |env|
  {
    Unlines(EntryLines(EnvEntries(env)[..i]))
  }

  function EnvLine(entry: (string, string)): string {
    entry.0 + " = " + TomlQuote(entry.1) + "\n"
  }

  lemma EnvTextGrows(env: seq<(string, string)>, i: nat)
    requires i < |env|
    ensures EnvTextUpTo(env, i + 1) == EnvTextUpTo(env, i) + EnvLine(env[i])
  {
    EntryAdded(EnvEntries(env)[..i], EnvEntries(env)[i]);
    assert EnvEntries(env)[..i + 1] == EnvEntries(env)[..i] + [EnvEntries(env)[i]];
  }

  lemma EnvTextEnds(env: seq<(string, string)>)
    ensures EnvTextUpTo(env, 0) == "" && EnvTextUpTo(env, |env|) == Unlines(EntryLines(EnvEntries(env)))
  {
    assert EnvEntries(env)[..|env|] == EnvEntries(env);
  }

  lemma ServerText(name: string, c: Launch)
    ensures Unlines(ServerLines(name, c)) ==
            "\n[servers." + name + "]\n" + Unlines(EntryLines(Body(c))) + Unlines(EnvLines(name, c.env))
  {
    HeaderText(name);
    var header := HeaderLine(TablePath(name));
    UnlinesInParts([header] + EntryLines(Body(c)), EnvLines(name, c.env));
    assert ([header] + EntryLines(Body(c)))[1..] == EntryLines(Body(c));
    assert ServerLines(name, c)[1..] == TableLines(name, c);
  }

  lemma TextGrows(servers: seq<Discovered>, used: set<string>, n: nat)
    requires n < |servers|
    ensures var name := Resolve(servers[n].name, servers[n].source, UsedAfter(servers[..n], used));
            && UsedAfter(servers[..n + 1], used) == UsedAfter(servers[..n], used) + {name}
            && TextOf(servers[..n + 1], used) ==
               TextOf(servers[..n], used) + Unlines(ServerLines(name, servers[n].config))
  {
    assert servers[..n + 1][..n] == servers[..n];
    var name := Resolve(servers[n].name, servers[n].source, UsedAfter(servers[..n], used));
    UnlinesInParts(AllLines(servers[..n], used), ServerLines(name, servers[n].config));
  }

  lemma RemoteBodyText(c: Launch, name: string, quoted: string)
    requires c.transport.Http? || c.transport.Sse?
    requires (name, quoted) == if c.transport.Http? then ("http", "\"http\"") else ("sse", "\"sse\"")
    ensures Unlines(EntryLines(Body(c))) ==
            if c.url.Some? then "transport = " + quoted + "\nurl = " + TomlQuote(c.url.value) + "\n" else ""
  {
    if c.url.Some? {
      RemoteText(name, quoted, c.url.value);
    }
  }

  method PushStdio(output: string, c: Launch) returns (longer: string)
    requires c.transport.Stdio?
    ensures longer == output + Unlines(EntryLines(Body(c)))
  {
    longer := output;
    if c.command.Some? {
      longer := longer + ("command = " + TomlQuote(c.command.value) + "\n");
    }
    assert longer == output + CommandText(c);
    if c.args != [] {
      longer := longer + ("args = [" + Join(QuoteAll(c.args), ", ") + "]\n");
    }
    assert longer == output + (CommandText(c) + ArgsText(c));
    StdioText(c);
  }

  method PushBody(output: string, c: Launch) returns (longer: string)
    ensures longer == output + Unlines(EntryLines(Body(c)))
  {
    longer := output;
    match c.transport {
      case Stdio => longer := PushStdio(output, c);
      case Http =>
        RemoteBodyText(c, "http", "\"http\"");
        if c.url.Some? {
          longer := longer + ("transport = " + "\"http\"" + "\nurl = " + TomlQuote(c.url.value) + "\n");
        }
      case Sse =>
        RemoteBodyText(c, "sse", "\"sse\"");
        if c.url.Some? {
          longer := longer + ("transport = " + "\"sse\"" + "\nurl = " + TomlQuote(c.url.value) + "\n");
        }
      case OpenApi =>
    }
  }

  method PushEnv(output: string, name: string, env: seq<(string, string)>) returns (longer: string)
    ensures longer == output + Unlines(EnvLines(name, env))
  {
    longer := output;
    if env != [] {
      longer := longer + "[servers.";
      longer := longer + name;
      longer := longer + ".env]\n";
      longer := PushEnvEntries(longer, env);
      EnvText(name, env);
    }
  }

  method PushEnvEntries(output: string, env: seq<(string, string)>) returns (longer: string)
    ensures longer == output + Unlines(EntryLines(EnvEntries(env)))
  {
    longer := output;
    EnvTextEnds(env);
    for i := 0 to |env|
      invariant longer == output + EnvTextUpTo(env, i)
    {
      EnvTextGrows(env, i);
      longer := longer + EnvLine(env[i]);
    }
  }

  lemma Associates(a: string, b: string, c: string, d: string)
    ensures a + b + c + d == a + (b + c + d)
  {
  }

  method PushServer(output: string, name: string, c: Launch) returns (longer: string)
    ensures longer == output + Unlines(ServerLines(name, c))
  {
    longer := output + ("\n[servers." + name + "]\n");
    longer := PushBody(longer, c);
    longer := PushEnv(longer, name, c.env);
    ServerText(name, c);
    Associates(output, "\n[servers." + name + "]\n", Unlines(EntryLines(Body(c))), Unlines(EnvLines(name, c.env)));
  }

  method ServersToToml(servers: seq<Discovered>, existingNames: seq<string>) returns (output: string)
    ensures output == TextOf(servers, set name | name in existingNames)
  {
    output := "";
    var usedNames := set name | name in existingNames;
    ghost var used := usedNames;
    for n := 0 to |servers|
      invariant usedNames == UsedAfter(servers[..n], used)
      invariant output == TextOf(servers[..n], used)
    {
      TextGrows(servers, used, n);
      var name := Resolve(servers[n].name, servers[n].source, usedNames);
      usedNames := usedNames + {name};
      output := PushServer(output, name, servers[n].config);
    }
    assert servers[..|servers|] == servers;
  }
}
