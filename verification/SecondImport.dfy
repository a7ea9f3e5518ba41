/**
 The configuration loaded again after an import was written to its file, and what a second import
 over the same clients then finds.
 */
module SecondImport {
  import opened Common
  import opened TomlReader
  import opened TomlText
  import opened HeaderKeys
  import opened TomlPrinter
  import opened ImportedServers
  import opened ConfigImport

  // -------------------------------------------------------------------------
  // Loading
  // -------------------------------------------------------------------------

  // How a server's table is read when it has more in it than the printer writes,
  // how references to variables are expanded, and what names may not contain.
  datatype Loader = Loader(other: Table -> Option<Launch>, expand: string -> string, delimiter: string)

  // Nothing in the table but what the printer writes, each of its own kind; the
  // remaining settings then have their defaults, which pass validation.
  predicate IsPlain(t: Table) {
    && t.Keys <= {"transport", "command", "args", "url", "spec"}
    && (forall key :: key in t ==> if key == "args" then t[key].Arr? else t[key].Str?)
    && TransportOf(t).Some?
  }

  function PlainLaunch(t: Table): Launch
    requires IsPlain(t)
  {
    Launch(TransportOf(t).value, TextAt(t, "command"), ListAt(t, "args"), TextAt(t, "url"), TextAt(t, "spec"), [])
  }

  function OnValue(expand: string -> string, s: Option<string>): Option<string> {
    if s.Some? then Some(expand(s.value)) else None
  }

  function OnEach(expand: string -> string, items: seq<string>): seq<string> {
    seq(|items|, i requires 0 <= i < |items| => expand(items[i]))
  }

  // References are expanded in the command, the arguments and the address.
  function Expanded(c: Launch, expand: string -> string): Launch {
    c.(command := OnValue(expand, c.command), args := OnEach(expand, c.args), url := OnValue(expand, c.url))
  }

  // What validation asks of each transport.
  predicate HasTarget(c: Launch) {
    match c.transport
    case Stdio => c.command.Some?
    case Http => c.url.Some?
    case Sse => c.url.Some?
    case OpenApi => c.spec.Some?
  }

  // What validation asks of a name.
  predicate NamePasses(name: string, delimiter: string) {
    && name != "" && !Contains(name, delimiter)
    && '/' !in name && '\\' !in name && '\0' !in name
    && name[0] != '.' && !Contains(name, "..") && Utf8Length(name) <= 255
  }

  function Utf8Length(s: string): nat {
    if s == [] then 0
    else (if s[0] < '\U{80}' then 1 else if s[0] < '\U{800}' then 2 else if s[0] < '\U{10000}' then 3 else 4)
         + Utf8Length(s[1..])
  }

  lemma {:induction false} BareLength(name: string)
    requires forall i :: 0 <= i < |name| ==> IsBare(name[i])
    ensures Utf8Length(name) == |name|
  {
    if name != [] {
      assert IsBare(name[0]);
      BareLength(name[1..]);
    }
  }

  // A bare name passes exactly when it is no longer than 255 and does not hold the
  // delimiter; no name that holds it passes, and none with a path in it.
  lemma BareNamePassesExactly(name: string, delimiter: string)
    requires BareKey(name)
    ensures NamePasses(name, delimiter) <==> |name| <= 255 && !Contains(name, delimiter)
  {
    BareLength(name);
    assert IsBare(name[0]) && !IsBare('.') && !IsBare('/') && !IsBare('\\') && !IsBare('\0');
    DotsAreInside(name);
  }

  lemma DotsAreInside(name: string)
    ensures Contains(name, "..") ==> '.' in name
  {
    if Contains(name, "..") {
      var i :| 0 <= i <= |name| && ".." <= name[i..];
      assert name[i..][0] == '.' && name[i] == '.';
    }
  }

  function LoadServer(doc: Document, name: string, x: Loader): Option<Launch> {
    if TablePath(name) !in doc then None
    else
      var t := doc[TablePath(name)];
      var read := if IsPlain(t) then Some(PlainLaunch(t)) else x.other(t);
      if read.Some? && HasTarget(read.value) && NamePasses(name, x.delimiter)
      then Some(Expanded(read.value, x.expand)) else None
  }

  // One server that does not pass refuses the whole file.
  ghost predicate Loads(doc: Document, names: set<string>, x: Loader) {
    forall name :: name in names ==> LoadServer(doc, name, x).Some?
  }

  // What the import takes for the existing servers: those of the configuration,
  // or none when it does not load.
  ghost function KnownOf(doc: Document, names: set<string>, x: Loader): set<string> {
    if Loads(doc, names, x) then set name | name in names :: Signature(LoadServer(doc, name, x).value) else {}
  }

  // -------------------------------------------------------------------------
  // A printed server, loaded
  // -------------------------------------------------------------------------

  // Printed with its command or its address.
  predicate LoadsBack(c: Launch) {
    (c.transport.Stdio? && c.command.Some?) || ((c.transport.Http? || c.transport.Sse?) && c.url.Some?)
  }

  lemma TableOfAtMostTwo(es: seq<Printed>)
    requires |es| <= 2
    ensures forall key :: key in TableOf(es) ==>
              exists i :: 0 <= i < |es| && es[i].key == key && TableOf(es)[key] == es[i].value
  {
    if |es| == 1 {
      TableOfTwo(es[0], es[0]);
      assert es == [es[0]];
    } else if |es| == 2 {
      TableOfTwo(es[0], es[1]);
      assert es == [es[0], es[1]];
    }
  }

  lemma PrintedIsPlain(c: Launch)
    ensures IsPlain(TableOf(Body(c)))
  {
    TableOfAtMostTwo(Body(c));
    match c.transport
    case Stdio => StdioComesBack(c);
    case Http => RemoteComesBack(c);
    case Sse => RemoteComesBack(c);
    case OpenApi =>
  }

  lemma SignatureReads(c: Launch, d: Launch)
    requires c.transport == d.transport
    requires c.transport.Stdio? ==> c.command == d.command && c.args == d.args
    requires c.transport.Http? || c.transport.Sse? ==> c.url == d.url
    requires c.transport.OpenApi? ==> c.spec == d.spec
    ensures Signature(c) == Signature(d)
  {
  }

  // A printed server loads exactly when it has its command or its address and its
  // name passes; loaded, its signature is that of the discovered one expanded.
  lemma PrintedServerLoads(doc: Document, name: string, c: Launch, x: Loader)
    requires Shows(doc, name, c)
    ensures LoadServer(doc, name, x).Some? <==> LoadsBack(c) && NamePasses(name, x.delimiter)
    ensures LoadServer(doc, name, x).Some? ==>
              Signature(LoadServer(doc, name, x).value) == Signature(Expanded(c, x.expand))
  {
    PrintedIsPlain(c);
    var read := PlainLaunch(TableOf(Body(c)));
    PrintedTarget(c);
    if LoadsBack(c) {
      SignatureReads(Expanded(read, x.expand), Expanded(c, x.expand));
    }
  }

  // It comes with its transport, and with every reference in its command, in each of
  // its arguments or in its address expanded.
  lemma LoadedIsExpanded(doc: Document, name: string, c: Launch, x: Loader)
    requires Shows(doc, name, c) && LoadServer(doc, name, x).Some?
    ensures var loaded := LoadServer(doc, name, x).value;
            && loaded.transport == c.transport
            && (c.transport.Stdio? ==>
                  && c.command.Some? && loaded.command == Some(x.expand(c.command.value))
                  && |loaded.args| == |c.args|
                  && forall i :: 0 <= i < |c.args| ==> loaded.args[i] == x.expand(c.args[i]))
            && (!c.transport.Stdio? ==> c.url.Some? && loaded.url == Some(x.expand(c.url.value)))
  {
    PrintedIsPlain(c);
    PrintedTarget(c);
  }

  lemma PrintedTarget(c: Launch)
    requires IsPlain(TableOf(Body(c)))
    ensures var read := PlainLaunch(TableOf(Body(c)));
            && (HasTarget(read) <==> LoadsBack(c))
            && (LoadsBack(c) ==> read.transport == c.transport)
            && (LoadsBack(c) && c.transport.Stdio? ==> read.command == c.command && read.args == c.args)
            && (LoadsBack(c) && !c.transport.Stdio? ==> read.url == c.url)
  {
    match c.transport
    case Stdio => StdioComesBack(c);
    case Http =>
      RemoteComesBack(c);
      NothingPrinted(c);
    case Sse =>
      RemoteComesBack(c);
      NothingPrinted(c);
    case OpenApi =>
  }

  lemma NothingPrinted(c: Launch)
    requires !c.transport.Stdio?
    ensures c.url.None? ==> Body(c) == [] && TextAt(TableOf(Body(c)), "command") == None
  {
  }

  // -------------------------------------------------------------------------
  // The new file
  // -------------------------------------------------------------------------

  lemma OldServersLoadTheSame(doc: Document, after: Document, names: set<string>, x: Loader)
    requires Extends(after, doc) && forall name :: name in names ==> TablePath(name) in doc
    ensures forall name :: name in names ==> LoadServer(after, name, x) == LoadServer(doc, name, x)
  {
  }

  ghost predicate AllLoadBack(added: seq<Discovered>, names: seq<string>, delimiter: string)
    requires |names| == |added|
  {
    forall i :: 0 <= i < |added| ==> LoadsBack(added[i].config) && NamePasses(names[i], delimiter)
  }

  lemma GivenNamesLoad(after: Document, added: seq<Discovered>, names: seq<string>, x: Loader)
    requires AllShown(after, names, added)
    ensures (forall name | name in names :: LoadServer(after, name, x).Some?)
            <==> AllLoadBack(added, names, x.delimiter)
  {
    forall i | 0 <= i < |added|
      ensures names[i] in names
      ensures LoadServer(after, names[i], x).Some? <==> LoadsBack(added[i].config) && NamePasses(names[i], x.delimiter)
    {
      PrintedServerLoads(after, names[i], added[i].config, x);
    }
  }

  // After an import into a file that loaded, the new file loads exactly when
  // every server added has its command or its address and a name that passes.
  lemma NewFileLoadsExactly(doc: Document, used: set<string>, added: seq<Discovered>, x: Loader)
    requires DefinesServers(doc, used) && GivenFresh(added, used, used) && Loads(doc, used, x)
    ensures Loads(AddServers(doc, added, used), DefinedAfter(added, used, used), x)
            <==> AllLoadBack(added, KeysFor(added, used), x.delimiter)
  {
    var after, names := AddServers(doc, added, used), KeysFor(added, used);
    EveryServerIsShown(doc, added, used, used);
    OldServersLoadTheSame(doc, after, used, x);
    GivenNamesLoad(after, added, names, x);
    DefinedIsDefinedAndGiven(added, used, used);
  }

  function ExpandedSignatures(added: seq<Discovered>, expand: string -> string): set<string> {
    set i | 0 <= i < |added| :: Signature(Expanded(added[i].config, expand))
  }

  lemma SignaturesOfGiven(after: Document, added: seq<Discovered>, names: seq<string>, x: Loader)
    requires AllShown(after, names, added) && AllLoadBack(added, names, x.delimiter)
    ensures forall name | name in names :: LoadServer(after, name, x).Some?
    ensures (set name | name in names :: Signature(LoadServer(after, name, x).value))
            == ExpandedSignatures(added, x.expand)
  {
    GivenNamesLoad(after, added, names, x);
    var loaded := set name | name in names :: Signature(LoadServer(after, name, x).value);
    forall i | 0 <= i < |added|
      ensures Signature(Expanded(added[i].config, x.expand)) == Signature(LoadServer(after, names[i], x).value)
      ensures Signature(Expanded(added[i].config, x.expand)) in loaded
    {
      PrintedServerLoads(after, names[i], added[i].config, x);
      assert names[i] in names;
    }
    forall signature | signature in loaded ensures signature in ExpandedSignatures(added, x.expand) {
      var name :| name in names && Signature(LoadServer(after, name, x).value) == signature;
      var i :| 0 <= i < |names| && names[i] == name;
    }
  }

  lemma KnownAfter(doc: Document, used: set<string>, added: seq<Discovered>, x: Loader)
    requires DefinesServers(doc, used) && GivenFresh(added, used, used) && Loads(doc, used, x)
    requires AllLoadBack(added, KeysFor(added, used), x.delimiter)
    ensures KnownOf(AddServers(doc, added, used), DefinedAfter(added, used, used), x)
            == KnownOf(doc, used, x) + ExpandedSignatures(added, x.expand)
  {
    var after, names := AddServers(doc, added, used), KeysFor(added, used);
    NewFileLoadsExactly(doc, used, added, x);
    EveryServerIsShown(doc, added, used, used);
    OldServersLoadTheSame(doc, after, used, x);
    DefinedIsDefinedAndGiven(added, used, used);
    SignaturesOfGiven(after, added, names, x);
    KnownInParts(after, used, names, DefinedAfter(added, used, used), x);
  }

  lemma KnownInParts(after: Document, used: set<string>, names: seq<string>, all: set<string>, x: Loader)
    requires all == used + (set name | name in names) && Loads(after, all, x)
    ensures forall name | name in names :: LoadServer(after, name, x).Some?
    ensures Loads(after, used, x)
    ensures KnownOf(after, all, x)
            == KnownOf(after, used, x) + (set name | name in names :: Signature(LoadServer(after, name, x).value))
  {
  }

  // -------------------------------------------------------------------------
  // The second import
  // -------------------------------------------------------------------------

  lemma {:induction false} NothingKnown(servers: seq<Discovered>)
    ensures NotAmong(servers, {}) == servers
  {
    if servers != [] {
      NothingKnown(servers[..|servers| - 1]);
      assert servers == servers[..|servers| - 1] + [servers[|servers| - 1]];
    }
  }

  // A second import over the same clients, after the first was written to a file
  // that loaded. When a server it added has no command or address, or a name that
  // does not pass, the whole file is refused and everything is found again. Else
  // a server is found again exactly when its signature is neither one known
  // before nor that of an added server with its references expanded.
  lemma SecondImportFinds(
    file: string, doc: Document, used: set<string>, discovered: seq<Discovered>, x: Loader)
    requires ReadToml(file) == Some(doc) && DefinesServers(doc, used) && Loads(doc, used, x)
    requires var added := NotAmong(Deduped(discovered), KnownOf(doc, used, x));
             AllNamed(added) && AllReadable(added, used) && GivenFresh(added, used, used)
    ensures var known := KnownOf(doc, used, x);
            var added := NotAmong(Deduped(discovered), known);
            var after := ReadToml(file + TextOf(added, used));
            && after.Some?
            && var again := NotAmong(Deduped(discovered), KnownOf(after.value, DefinedAfter(added, used, used), x));
               if AllLoadBack(added, KeysFor(added, used), x.delimiter)
               then forall s :: s in again <==>
                      && s in Deduped(discovered)
                      && Signature(s.config) !in known
                      && Signature(s.config) !in ExpandedSignatures(added, x.expand)
               else again == Deduped(discovered)
  {
    var added := NotAmong(Deduped(discovered), KnownOf(doc, used, x));
    AppendedFileReads(file, doc, added, used);
    NewFileLoadsExactly(doc, used, added, x);
    if AllLoadBack(added, KeysFor(added, used), x.delimiter) {
      KnownAfter(doc, used, added, x);
    } else {
      NothingKnown(Deduped(discovered));
    }
  }

  lemma {:induction false} AllKnown(servers: seq<Discovered>, known: set<string>)
    requires forall i :: 0 <= i < |servers| ==> Signature(servers[i].config) in known
    ensures NotAmong(servers, known) == []
  {
    if servers != [] {
      AllKnown(servers[..|servers| - 1], known);
    }
  }

  lemma AddedAreKnownExpanded(added: seq<Discovered>, expand: string -> string, s: Discovered)
    requires s in added && Signature(Expanded(s.config, expand)) == Signature(s.config)
    ensures Signature(s.config) in ExpandedSignatures(added, expand)
  {
    var i :| 0 <= i < |added| && added[i] == s;
    assert Signature(Expanded(added[i].config, expand)) in ExpandedSignatures(added, expand);
  }

  lemma AllAreKnownThen(all: seq<Discovered>, known: set<string>, expand: string -> string)
    requires var added := NotAmong(all, known);
             forall s :: s in added ==> Signature(Expanded(s.config, expand)) == Signature(s.config)
    ensures NotAmong(all, known + ExpandedSignatures(NotAmong(all, known), expand)) == []
  {
    var added := NotAmong(all, known);
    forall i | 0 <= i < |all|
      ensures Signature(all[i].config) in known + ExpandedSignatures(added, expand)
    {
      if Signature(all[i].config) !in known {
        AddedAreKnownExpanded(added, expand, all[i]);
      }
    }
    AllKnown(all, known + ExpandedSignatures(added, expand));
  }

  // So when all that was added loads back and has no reference to expand, the
  // second import finds nothing.
  lemma SecondImportFindsNothing(
    file: string, doc: Document, used: set<string>, discovered: seq<Discovered>, x: Loader)
    requires ReadToml(file) == Some(doc) && DefinesServers(doc, used) && Loads(doc, used, x)
    requires var added := NotAmong(Deduped(discovered), KnownOf(doc, used, x));
             && AllNamed(added) && AllReadable(added, used) && GivenFresh(added, used, used)
             && AllLoadBack(added, KeysFor(added, used), x.delimiter)
             && forall s :: s in added ==> Signature(Expanded(s.config, x.expand)) == Signature(s.config)
    ensures var added := NotAmong(Deduped(discovered), KnownOf(doc, used, x));
            var after := ReadToml(file + TextOf(added, used));
            after.Some? && NotAmong(Deduped(discovered), KnownOf(after.value, DefinedAfter(added, used, used), x)) == []
  {
    var all, known := Deduped(discovered), KnownOf(doc, used, x);
    var added := NotAmong(all, known);
    AppendedFileReads(file, doc, added, used);
    KnownAfter(doc, used, added, x);
    AllAreKnownThen(all, known, x.expand);
  }

  lemma AloneIsLeftExactly(s: Discovered, known: set<string>)
    ensures s in NotAmong([s], known) <==> Signature(s.config) !in known
  {
    assert s in [s];
  }

  lemma OneLoadsBack(s: Discovered, name: string, x: Loader)
    ensures AllLoadBack([s], [name], x.delimiter) <==> LoadsBack(s.config) && NamePasses(name, x.delimiter)
    ensures ExpandedSignatures([s], x.expand) == {Signature(Expanded(s.config, x.expand))}
  {
    assert [s][0] == s && [name][0] == name;
  }

  lemma OneKeepsItsName(s: Discovered, used: set<string>)
    requires s.name !in used
    ensures KeysFor([s], used) == [KeyName(s.name)]
    ensures AllReadable([s], used) <==> Readable(s.name, s.config)
    ensures GivenFresh([s], used, used) <==> KeyName(s.name) !in used
  {
    assert [s][..0] == [];
    assert UsedAfter([], used) == used;
  }

  lemma OneIsAppended(file: string, doc: Document, used: set<string>, s: Discovered)
    requires ReadToml(file) == Some(doc) && DefinesServers(doc, used)
    requires Named(s) && Readable(s.name, s.config) && s.name !in used && KeyName(s.name) !in used
    ensures ReadToml(file + TextOf([s], used)) == Some(AddServers(doc, [s], used))
  {
    OneKeepsItsName(s, used);
    AppendedFileReads(file, doc, [s], used);
  }

  lemma OneIsKnownAfter(doc: Document, used: set<string>, s: Discovered, x: Loader)
    requires DefinesServers(doc, used) && Loads(doc, used, x) && s.name !in used && KeyName(s.name) !in used
    ensures KnownOf(AddServers(doc, [s], used), DefinedAfter([s], used, used), x) ==
            if LoadsBack(s.config) && NamePasses(KeyName(s.name), x.delimiter)
            then KnownOf(doc, used, x) + {Signature(Expanded(s.config, x.expand))} else {}
  {
    OneKeepsItsName(s, used);
    OneLoadsBack(s, KeyName(s.name), x);
    NewFileLoadsExactly(doc, used, [s], x);
    if LoadsBack(s.config) && NamePasses(KeyName(s.name), x.delimiter) {
      KnownAfter(doc, used, [s], x);
    }
  }

  // One new server is found again exactly when it has no command or address, its
  // name does not pass, or expanding its references changes its signature.
  lemma OneServerIsFoundAgain(file: string, doc: Document, used: set<string>, s: Discovered, x: Loader)
    requires ReadToml(file) == Some(doc) && DefinesServers(doc, used) && Loads(doc, used, x)
    requires Named(s) && Readable(s.name, s.config) && Signature(s.config) !in KnownOf(doc, used, x)
    requires s.name !in used && KeyName(s.name) !in used
    ensures var after := ReadToml(file + TextOf([s], used));
            && after.Some?
            && (s in NotAmong([s], KnownOf(after.value, DefinedAfter([s], used, used), x))
                <==> || !LoadsBack(s.config) || !NamePasses(KeyName(s.name), x.delimiter)
                     || Signature(Expanded(s.config, x.expand)) != Signature(s.config))
  {
    OneIsAppended(file, doc, used, s);
    OneIsKnownAfter(doc, used, s, x);
    AloneIsLeftExactly(s, KnownOf(AddServers(doc, [s], used), DefinedAfter([s], used, used), x));
  }

  // -------------------------------------------------------------------------
  // Accepting it
  // -------------------------------------------------------------------------

  // A server's own name is in use after it, whether it was given or taken.
  lemma {:induction false} OwnNameIsUsed(servers: seq<Discovered>, used: set<string>, i: nat)
    requires i < |servers|
    ensures servers[i].name in UsedAfter(servers, used)
  {
    if i < |servers| - 1 {
      OwnNameIsUsed(servers[..|servers| - 1], used, i);
    }
  }

  lemma {:induction false} KeysAreOfNames(servers: seq<Discovered>, seen: set<string>)
    ensures forall i :: 0 <= i < |servers| ==> KeysFor(servers, seen)[i] == KeyName(NamesFor(servers, seen)[i])
  {
    if servers != [] {
      KeysAreOfNames(servers[..|servers| - 1], seen);
    }
  }

  lemma GivenNameIsDefined(servers: seq<Discovered>, seen: set<string>, defined: set<string>, name: string)
    requires name in NamesFor(servers, seen) && KeyName(name) in defined
    ensures !GivenFresh(servers, seen, defined)
  {
    KeysAreOfNames(servers, seen);
    var i :| 0 <= i < |servers| && NamesFor(servers, seen)[i] == name;
    assert KeysFor(servers, seen)[i] in KeysFor(servers, seen);
    DefinedIsDefinedAndGiven(servers, seen, defined);
  }

  lemma AddedNameCollides(added: seq<Discovered>, used: set<string>, all: seq<Discovered>)
    requires added != [] && added[0] in all && BareKey(added[0].name)
    ensures !GivenFresh(all, {}, UsedAfter(added, used))
  {
    var s := added[0];
    var i :| 0 <= i < |all| && all[i] == s;
    OwnNameIsUsed(added, used, 0);
    OwnNameIsUsed(all, {}, i);
    UsedAfterIsUsedAndGiven(all, {});
    BareIsItsKey(s.name);
    GivenNameIsDefined(all, {}, UsedAfter(added, used), s.name);
  }

  lemma TextOnTop(file: string, doc: Document, added: seq<Discovered>, used: set<string>, all: seq<Discovered>)
    requires ReadToml(file) == Some(doc) && DefinesServers(doc, used)
    requires AllPrintable(added) && AlwaysFree(added, used)
    requires AllNamed(all) && added != [] && added[0] in all
    ensures ReadToml(file + TextOf(added, used) + TextOf(all, {})) == None
  {
    BareNamesReadExactly(file, doc, added, used);
    BareNamesAreKeys(added, used);
    EveryServerIsShown(doc, added, used, used);
    AddedNameCollides(added, used, all);
    AppendedTextReads(file + TextOf(added, used), AddServers(doc, added, used), all, {}, UsedAfter(added, used));
  }

  // With a configuration that does not load, the second import also takes no name
  // for used; accepted, it prints servers under names the file has, and the file
  // can no longer be read.
  lemma AcceptingItBreaksTheFile(
    file: string, doc: Document, used: set<string>, discovered: seq<Discovered>, x: Loader)
    requires ReadToml(file) == Some(doc) && DefinesServers(doc, used) && Loads(doc, used, x)
    requires var added := NotAmong(Deduped(discovered), KnownOf(doc, used, x));
             && AllPrintable(added) && AlwaysFree(added, used)
             && !AllLoadBack(added, NamesFor(added, used), x.delimiter)
    requires AllNamed(Deduped(discovered))
    ensures var added := NotAmong(Deduped(discovered), KnownOf(doc, used, x));
            ReadToml(file + TextOf(added, used) + TextOf(Deduped(discovered), {})) == None
  {
    var added := NotAmong(Deduped(discovered), KnownOf(doc, used, x));
    assert added[0] in added;
    TextOnTop(file, doc, added, used, Deduped(discovered));
  }
}
