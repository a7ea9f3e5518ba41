/**
 One operator change to the configuration file, with the credentials typed into it kept in a
 secret store: stored first, put back if the change is refused, removed when nothing uses them.
 All of it happens under the reload lock, so changes do not overlap.
 */
module SecretKeeping {
  import opened Common

  // A secret is found by its store and its name in that store.
  datatype Slot = Slot(store: string, name: string)

  type Vault = map<Slot, string>

  // What a credential field of a server holds: a value a person typed, a
  // reference to a stored secret, or anything else (empty, a variable, a
  // redaction placeholder).
  datatype Value = Typed(text: string) | Reference(slot: Slot) | Other(text: string)

  // `secret`: the bearer token, or an environment entry whose name says it is a credential.
  datatype Field = Field(key: string, value: Value, secret: bool)

  type Server = seq<Field>

  type ConfigFile = map<string, Server>

  // The name a server's field is stored under.
  type Naming = string -> string

  // Which reads and writes of the store fail, by position.
  type Faults = nat -> bool

  datatype Staged = Staged(name: string, before: Option<string>)

  datatype Kept = Kept(vault: Vault, server: Server, staged: seq<Staged>)

  const KEYCHAIN := "keychain"
  const FILE := "file"

  function Lookup(v: Vault, slot: Slot): Option<string> {
    if slot in v then Some(v[slot]) else None
  }

  predicate StagedUnder(staged: seq<Staged>, name: string) {
    exists i :: 0 <= i < |staged| && staged[i].name == name
  }

  // -------------------------------------------------------------------------
  // Storing what was typed
  // -------------------------------------------------------------------------

  function KeepField(k: Kept, store: string, naming: Naming, f: Field, readFails: bool, writeFails: bool): Kept {
    if !f.secret || !f.value.Typed? || readFails || writeFails then k.(server := k.server + [f])
    else
      var name := naming(f.key);
      var slot := Slot(store, name);
      Kept(k.vault[slot := f.value.text],
           k.server + [f.(value := Reference(slot))],
           if StagedUnder(k.staged, name) then k.staged else k.staged + [Staged(name, Lookup(k.vault, slot))])
  }

  function Keep(v: Vault, store: string, naming: Naming, server: Server, readFaults: Faults,
      writeFaults: Faults): Kept {
    if server == [] then Kept(v, [], [])
    else
      var n := |server| - 1;
      var before := Keep(v, store, naming, server[..n], readFaults, writeFaults);
      KeepField(before, store, naming, server[n], readFaults(n), writeFaults(n))
  }

  predicate DistinctNames(staged: seq<Staged>) {
    forall i, j :: 0 <= i < j < |staged| ==> staged[i].name != staged[j].name
  }

  // Keeping records the first value of each name it writes and touches no other
  // slot; each field is as it was, or a reference to a secret now stored.
  ghost predicate KeptFrom(v: Vault, store: string, server: Server, k: Kept) {
    && DistinctNames(k.staged)
    && (forall i :: 0 <= i < |k.staged| ==>
          k.staged[i].before == Lookup(v, Slot(store, k.staged[i].name)) && Slot(store, k.staged[i].name) in k.vault)
    && (forall slot: Slot :: slot.store != store || !StagedUnder(k.staged, slot.name) ==>
          Lookup(k.vault, slot) == Lookup(v, slot))
    && |k.server| == |server|
    && (forall i :: 0 <= i < |server| ==>
          k.server[i] == server[i]
          || (server[i].value.Typed? && k.server[i].value.Reference? && k.server[i].value.slot in k.vault))
  }

  lemma KeepFieldKeeps(v: Vault, store: string, naming: Naming, server: Server, k: Kept, f: Field,
      readFails: bool, writeFails: bool)
    requires KeptFrom(v, store, server, k)
    ensures KeptFrom(v, store, server + [f], KeepField(k, store, naming, f, readFails, writeFails))
  {
    var after := KeepField(k, store, naming, f, readFails, writeFails);
    forall name | StagedUnder(k.staged, name) ensures StagedUnder(after.staged, name) {
      var i :| 0 <= i < |k.staged| && k.staged[i].name == name;
      assert after.staged[i].name == name;
    }
    if |after.staged| > |k.staged| {
      assert after.staged[|k.staged|].name == naming(f.key);
    }
  }

  lemma {:induction false} KeepIsFaithful(v: Vault, store: string, naming: Naming, server: Server,
      readFaults: Faults, writeFaults: Faults)
    ensures KeptFrom(v, store, server, Keep(v, store, naming, server, readFaults, writeFaults))
  {
    if server != [] {
      var n := |server| - 1;
      KeepIsFaithful(v, store, naming, server[..n], readFaults, writeFaults);
      KeepFieldKeeps(v, store, naming, server[..n], Keep(v, store, naming, server[..n], readFaults, writeFaults),
                     server[n], readFaults(n), writeFaults(n));
      assert server[..n] + [server[n]] == server;
    }
  }

  // What keeping a server's fields works with: the store, the names, the faults.
  datatype Means = Means(store: string, naming: Naming, readFaults: Faults, writeFaults: Faults)

  // Field i is a credential that was typed, and the store takes it.
  predicate IsStored(server: Server, m: Means, i: nat)
    requires i < |server|
  {
    server[i].secret && server[i].value.Typed? && !m.readFaults(i) && !m.writeFaults(i)
  }

  function SlotOf(f: Field, m: Means): Slot {
    Slot(m.store, m.naming(f.key))
  }

  predicate IsStoredIn(server: Server, m: Means, i: nat, slot: Slot)
    requires i < |server|
  {
    IsStored(server, m, i) && SlotOf(server[i], m) == slot
  }

  // The last of the fields stored in that slot.
  predicate IsLastIn(server: Server, m: Means, i: nat, slot: Slot)
    requires i < |server|
  {
    IsStoredIn(server, m, i, slot) && forall j :: i < j < |server| ==> !IsStoredIn(server, m, j, slot)
  }

  function KeepWith(v: Vault, m: Means, server: Server): Kept {
    Keep(v, m.store, m.naming, server, m.readFaults, m.writeFaults)
  }

  // Each stored field becomes a reference to its slot, and every other stays as
  // it was.
  lemma {:induction false} FieldsBecomeReferences(v: Vault, m: Means, server: Server)
    ensures var k := KeepWith(v, m, server);
            && |k.server| == |server|
            && forall i :: 0 <= i < |server| ==>
                 k.server[i] ==
                 if IsStored(server, m, i) then server[i].(value := Reference(SlotOf(server[i], m))) else server[i]
  {
    if server != [] {
      var n := |server| - 1;
      FieldsBecomeReferences(v, m, server[..n]);
      forall i | 0 <= i < n ensures IsStored(server[..n], m, i) <==> IsStored(server, m, i) {}
    }
  }

  lemma LastOneStored(v: Vault, m: Means, server: Server, slot: Slot)
    requires server != []
    ensures var n := |server| - 1;
            Lookup(KeepWith(v, m, server).vault, slot) ==
            if IsStoredIn(server, m, n, slot) then Some(server[n].value.text)
            else Lookup(KeepWith(v, m, server[..n]).vault, slot)
  {
  }

  lemma LastBefore(m: Means, server: Server, i: nat, slot: Slot)
    requires i < |server| - 1 && IsLastIn(server, m, i, slot)
    ensures IsLastIn(server[..|server| - 1], m, i, slot)
  {
    var before := server[..|server| - 1];
    forall j | i < j < |before| ensures !IsStoredIn(before, m, j, slot) {
      assert !IsStoredIn(server, m, j, slot);
    }
  }

  // A slot holds the text typed in the last field stored there.
  lemma {:induction false} SlotHoldsTypedText(v: Vault, m: Means, server: Server, i: nat, slot: Slot)
    requires i < |server| && IsLastIn(server, m, i, slot)
    ensures Lookup(KeepWith(v, m, server).vault, slot) == Some(server[i].value.text)
  {
    var n := |server| - 1;
    LastOneStored(v, m, server, slot);
    if i < n {
      assert !IsStoredIn(server, m, n, slot);
      LastBefore(m, server, i, slot);
      SlotHoldsTypedText(v, m, server[..n], i, slot);
    }
  }

  // One no field was stored in holds what it held.
  lemma {:induction false} OtherSlotsStay(v: Vault, m: Means, server: Server, slot: Slot)
    requires forall i :: 0 <= i < |server| ==> !IsStoredIn(server, m, i, slot)
    ensures Lookup(KeepWith(v, m, server).vault, slot) == Lookup(v, slot)
  {
    if server != [] {
      var n := |server| - 1;
      forall i | 0 <= i < n ensures !IsStoredIn(server[..n], m, i, slot) {
        assert !IsStoredIn(server, m, i, slot);
      }
      LastOneStored(v, m, server, slot);
      OtherSlotsStay(v, m, server[..n], slot);
    }
  }

  // When the names tell the keys apart and no key is there twice, every stored
  // field's own text is behind its reference.
  lemma EveryTypedTextIsKept(v: Vault, m: Means, server: Server, i: nat)
    requires i < |server| && IsStored(server, m, i)
    requires forall j, k :: 0 <= j < k < |server| ==> m.naming(server[j].key) != m.naming(server[k].key)
    ensures var k := KeepWith(v, m, server);
            && |k.server| == |server| && k.server[i].value.Reference?
            && Lookup(k.vault, k.server[i].value.slot) == Some(server[i].value.text)
  {
    FieldsBecomeReferences(v, m, server);
    assert IsLastIn(server, m, i, SlotOf(server[i], m));
    SlotHoldsTypedText(v, m, server, i, SlotOf(server[i], m));
  }

  // -------------------------------------------------------------------------
  // Putting it back
  // -------------------------------------------------------------------------

  function PutBackOne(v: Vault, slot: Slot, before: Option<string>): Vault {
    match before
    case Some(text) => v[slot := text]
    case None => v - {slot}
  }

  // The vault after undoing, and the names that could not be undone.
  function PutBack(v: Vault, store: string, staged: seq<Staged>, writeFaults: Faults): (Vault, seq<string>) {
    if staged == [] then (v, [])
    else
      var n := |staged| - 1;
      var (before, failed) := PutBack(v, store, staged[..n], writeFaults);
      if writeFaults(n) then (before, failed + [staged[n].name])
      else (PutBackOne(before, Slot(store, staged[n].name), staged[n].before), failed)
  }

  lemma {:induction false} PutBackEffect(v: Vault, store: string, staged: seq<Staged>, writeFaults: Faults, slot: Slot)
    requires DistinctNames(staged)
    ensures var (after, failed) := PutBack(v, store, staged, writeFaults);
            && (slot.store != store || !StagedUnder(staged, slot.name) ==> Lookup(after, slot) == Lookup(v, slot))
            && (slot.store != store || !StagedUnder(staged, slot.name) ==> slot.store != store || slot.name !in failed)
            && (forall i :: 0 <= i < |staged| && slot == Slot(store, staged[i].name) ==>
                  Lookup(after, slot) == if slot.name in failed then Lookup(v, slot) else staged[i].before)
  {
    if staged != [] {
      var n := |staged| - 1;
      PutBackEffect(v, store, staged[..n], writeFaults, slot);
      assert StagedUnder(staged[..n], slot.name) ==> StagedUnder(staged, slot.name);
      assert slot.name == staged[n].name ==> StagedUnder(staged, slot.name);
    }
  }

  // Undoing what keeping did restores every stored secret but those it reports;
  // when it reports none, the stores are exactly what they were.
  lemma UndoRestoresTheVault(v: Vault, store: string, naming: Naming, server: Server, readFaults: Faults,
      writeFaults: Faults, back: Faults)
    ensures var k := Keep(v, store, naming, server, readFaults, writeFaults);
            var (after, failed) := PutBack(k.vault, store, k.staged, back);
            && (forall slot: Slot :: slot.store != store || slot.name !in failed ==>
                  Lookup(after, slot) == Lookup(v, slot))
            && (failed == [] ==> after == v)
  {
    var k := Keep(v, store, naming, server, readFaults, writeFaults);
    var (after, failed) := PutBack(k.vault, store, k.staged, back);
    KeepIsFaithful(v, store, naming, server, readFaults, writeFaults);
    forall slot: Slot | slot.store != store || slot.name !in failed ensures Lookup(after, slot) == Lookup(v, slot) {
      PutBackEffect(k.vault, store, k.staged, back, slot);
    }
    if failed == [] {
      forall slot: Slot ensures (slot in after <==> slot in v) && (slot in v ==> after[slot] == v[slot]) {
        assert Lookup(after, slot) == Lookup(v, slot);
      }
    }
  }

  // -------------------------------------------------------------------------
  // Removing what nothing uses
  // -------------------------------------------------------------------------

  predicate Writable(slot: Slot) {
    slot.store == KEYCHAIN || slot.store == FILE
  }

  predicate InUse(config: ConfigFile, slot: Slot) {
    exists name, i :: name in config && 0 <= i < |config[name]| && config[name][i].value == Reference(slot)
  }

  // `made`: whether the name is one Plug made for that field of the server.
  function Forget(v: Vault, before: Server, remaining: ConfigFile,
      made: (string, string) -> bool, writeFaults: Faults): Vault {
    if before == [] then v
    else
      var n := |before| - 1;
      var rest := Forget(v, before[..n], remaining, made, writeFaults);
      var f := before[n];
      if f.value.Reference? && !InUse(remaining, f.value.slot) && Writable(f.value.slot)
         && made(f.key, f.value.slot.name) && !writeFaults(n)
      then rest - {f.value.slot}
      else rest
  }

  lemma {:induction false} ForgetSparesWhatIsUsed(
    v: Vault, before: Server, remaining: ConfigFile, made: (string, string) -> bool, writeFaults: Faults, slot: Slot)
    ensures var after := Forget(v, before, remaining, made, writeFaults);
            && (InUse(remaining, slot) ==> Lookup(after, slot) == Lookup(v, slot))
            && (slot in after ==> slot in v)
  {
    if before != [] {
      ForgetSparesWhatIsUsed(v, before[..|before| - 1], remaining, made, writeFaults, slot);
    }
  }

  // Field n refers to the secret, and nothing keeps it from being removed.
  predicate Drops(before: Server, n: nat, remaining: ConfigFile,
      made: (string, string) -> bool, writeFaults: Faults, slot: Slot)
    requires n < |before|
  {
    && before[n].value == Reference(slot) && !InUse(remaining, slot) && Writable(slot)
    && made(before[n].key, slot.name) && !writeFaults(n)
  }

  // A secret is removed exactly when some field of the server that leaves refers
  // to it, nothing else does, Plug made it and may write it; all others stay.
  lemma {:induction false} ForgetsExactly(
    v: Vault, before: Server, remaining: ConfigFile, made: (string, string) -> bool, writeFaults: Faults, slot: Slot)
    ensures Lookup(Forget(v, before, remaining, made, writeFaults), slot) ==
            if exists n :: 0 <= n < |before| && Drops(before, n, remaining, made, writeFaults, slot)
            then None else Lookup(v, slot)
  {
    if before != [] {
      var n := |before| - 1;
      ForgetsExactly(v, before[..n], remaining, made, writeFaults, slot);
      var last := Drops(before, n, remaining, made, writeFaults, slot);
      if i :| 0 <= i < n && Drops(before[..n], i, remaining, made, writeFaults, slot) {
        assert Drops(before, i, remaining, made, writeFaults, slot);
      }
      if i :| 0 <= i < |before| && Drops(before, i, remaining, made, writeFaults, slot) {
        assert i < n ==> Drops(before[..n], i, remaining, made, writeFaults, slot);
      } else {
        assert !last;
      }
    }
  }

  // -------------------------------------------------------------------------
  // The whole change
  // -------------------------------------------------------------------------

  datatype Mutation =
    | AddServer(name: string, server: Server)
    | UpdateServer(name: string, server: Server)
    | RemoveServer(name: string)
    | OtherChange(file: ConfigFile)

  // Whether writing the file succeeds, reports a failure after it is in place, or is refused.
  datatype Save = Saves | FailsAfterWriting | Refuses

  datatype Outcome = Confirmed | SavedUnconfirmed | NotLoaded | Refused(unrestored: seq<string>)

  // What is outside the engine's control in one change.
  datatype Surroundings = Surroundings(
    store: string,
    naming: Naming,
    made: (string, string) -> bool,
    running: Option<Server>,  // the server as the running configuration has it
    save: Save,
    loads: bool,
    readFaults: Faults,
    writeFaults: Faults,
    backFaults: Faults,
    forgetFaults: Faults)

  function KeepTyped(v: Vault, m: Mutation, x: Surroundings): Kept {
    match m
    case AddServer(_, server) => Keep(v, x.store, x.naming, server, x.readFaults, x.writeFaults)
    case UpdateServer(_, server) => Keep(v, x.store, x.naming, server, x.readFaults, x.writeFaults)
    case RemoveServer(_) => Kept(v, [], [])
    case OtherChange(_) => Kept(v, [], [])
  }

  function Written(file: ConfigFile, m: Mutation, kept: Server): ConfigFile {
    match m
    case AddServer(name, _) => file[name := kept]
    case UpdateServer(name, _) => file[name := kept]
    case RemoveServer(name) => file - {name}
    case OtherChange(other) => other
  }

  // The server whose secrets may go once the change is in.
  function Leaving(m: Mutation, x: Surroundings): Server {
    match m
    case UpdateServer(_, _) => if x.running.Some? then x.running.value else []
    case RemoveServer(_) => if x.running.Some? then x.running.value else []
    case _ => []
  }

  datatype Desk = Desk(file: ConfigFile, vault: Vault)

  function Apply(d: Desk, m: Mutation, x: Surroundings): (Desk, Outcome) {
    var k := KeepTyped(d.vault, m, x);
    var file := Written(d.file, m, k.server);
    if x.save.Refuses? || (x.save.FailsAfterWriting? && file == d.file) then
      var (vault, failed) := PutBack(k.vault, x.store, k.staged, x.backFaults);
      (Desk(d.file, vault), Refused(failed))
    else if x.save.FailsAfterWriting? then (Desk(file, k.vault), SavedUnconfirmed)
    else if !x.loads then (Desk(file, k.vault), NotLoaded)
    else (Desk(file, Forget(k.vault, Leaving(m, x), file, x.made, x.forgetFaults)), Confirmed)
  }

  // A refused change leaves the file, and every stored secret but those it
  // reports, as they were.
  lemma RefusedChangeLeavesNothing(d: Desk, m: Mutation, x: Surroundings)
    requires Apply(d, m, x).1.Refused?
    ensures var (after, outcome) := Apply(d, m, x);
            && after.file == d.file
            && (forall slot: Slot :: slot.store != x.store || slot.name !in outcome.unrestored ==>
                  Lookup(after.vault, slot) == Lookup(d.vault, slot))
            && (outcome.unrestored == [] ==> after == d)
  {
    match m
    case AddServer(_, server) =>
      UndoRestoresTheVault(d.vault, x.store, x.naming, server, x.readFaults, x.writeFaults, x.backFaults);
    case UpdateServer(_, server) =>
      UndoRestoresTheVault(d.vault, x.store, x.naming, server, x.readFaults, x.writeFaults, x.backFaults);
    case _ =>
  }

  function MeansOf(x: Surroundings): Means {
    Means(x.store, x.naming, x.readFaults, x.writeFaults)
  }

  // The file says of the server what was asked, with each credential the store
  // took replaced by a reference to what was typed.
  ghost predicate SaysAsAsked(after: Desk, name: string, server: Server, m: Means) {
    && name in after.file && |after.file[name]| == |server|
    && (forall i :: 0 <= i < |server| ==>
          after.file[name][i] ==
          if IsStored(server, m, i) then server[i].(value := Reference(SlotOf(server[i], m))) else server[i])
    && (forall i :: 0 <= i < |server| && IsLastIn(server, m, i, SlotOf(server[i], m)) ==>
          Lookup(after.vault, SlotOf(server[i], m)) == Some(server[i].value.text))
  }

  lemma TypedTextOutlivesForgetting(
    v: Vault, m: Means, name: string, server: Server, file: ConfigFile, before: Server,
    made: (string, string) -> bool, writeFaults: Faults)
    requires name in file && file[name] == KeepWith(v, m, server).server
    ensures var kept := KeepWith(v, m, server).vault;
            && SaysAsAsked(Desk(file, kept), name, server, m)
            && SaysAsAsked(Desk(file, Forget(kept, before, file, made, writeFaults)), name, server, m)
  {
    var k := KeepWith(v, m, server);
    FieldsBecomeReferences(v, m, server);
    forall i | 0 <= i < |server| && IsLastIn(server, m, i, SlotOf(server[i], m))
      ensures var slot, left := SlotOf(server[i], m), Forget(k.vault, before, file, made, writeFaults);
              Lookup(k.vault, slot) == Lookup(left, slot) == Some(server[i].value.text)
    {
      SlotHoldsTypedText(v, m, server, i, SlotOf(server[i], m));
      assert file[name][i].value == Reference(SlotOf(server[i], m));
      ForgetSparesWhatIsUsed(k.vault, before, file, made, writeFaults, SlotOf(server[i], m));
    }
  }

  // Whatever the outcome, unless the change is refused: the file is what it was
  // but for the server asked for, that one is as asked, and what was typed is
  // behind its references.
  lemma AcceptedChangeIsAsAsked(d: Desk, m: Mutation, x: Surroundings)
    requires !Apply(d, m, x).1.Refused?
    ensures var after := Apply(d, m, x).0;
            match m
            case AddServer(name, server) =>
              after.file - {name} == d.file - {name} && SaysAsAsked(after, name, server, MeansOf(x))
            case UpdateServer(name, server) =>
              after.file - {name} == d.file - {name} && SaysAsAsked(after, name, server, MeansOf(x))
            case RemoveServer(name) => after.file == d.file - {name}
            case OtherChange(file) => after.file == file
  {
    var k := KeepTyped(d.vault, m, x);
    var file := Written(d.file, m, k.server);
    if m.AddServer? || m.UpdateServer? {
      TypedTextOutlivesForgetting(d.vault, MeansOf(x), m.name, m.server, file, Leaving(m, x), x.made, x.forgetFaults);
    }
  }

  // Confirmed, a change of a server that was running removes exactly the secrets that
  // server referred to, that nothing in the new file does, that Plug made and may
  // remove; no other change removes any, and none that is not confirmed does.
  lemma ForgottenExactly(d: Desk, m: Mutation, x: Surroundings, slot: Slot)
    requires !Apply(d, m, x).1.Refused?
    ensures var (after, outcome) := Apply(d, m, x);
            Lookup(after.vault, slot) ==
            if outcome.Confirmed? && (m.UpdateServer? || m.RemoveServer?) && x.running.Some?
               && exists n :: 0 <= n < |x.running.value|
                    && Drops(x.running.value, n, after.file, x.made, x.forgetFaults, slot)
            then None else Lookup(KeepTyped(d.vault, m, x).vault, slot)
  {
    var (after, outcome) := Apply(d, m, x);
    ForgetsExactly(KeepTyped(d.vault, m, x).vault, Leaving(m, x), after.file, x.made, x.forgetFaults, slot);
  }

  // Confirmed means saved and loaded; a file that could not be written is refused,
  // and one that was written all the same is not.
  lemma OutcomeExactly(d: Desk, m: Mutation, x: Surroundings)
    ensures var (after, outcome) := Apply(d, m, x);
            && (outcome.Confirmed? <==> x.save.Saves? && x.loads)
            && (outcome.NotLoaded? <==> x.save.Saves? && !x.loads)
            && (outcome.SavedUnconfirmed? <==> x.save.FailsAfterWriting? && after.file != d.file)
  {
  }

  // Every reference to a store Plug writes leads to a stored secret.
  ghost predicate ServerResolves(server: Server, v: Vault) {
    forall i :: 0 <= i < |server| && server[i].value.Reference? && Writable(server[i].value.slot) ==>
      server[i].value.slot in v
  }

  ghost predicate Resolves(file: ConfigFile, v: Vault) {
    forall name :: name in file ==> ServerResolves(file[name], v)
  }

  // The references the person put into the change themselves lead somewhere,
  // once what they typed is stored.
  ghost predicate OwnReferencesResolve(m: Mutation, v: Vault) {
    match m
    case AddServer(_, server) => ServerResolves(server, v)
    case UpdateServer(_, server) => ServerResolves(server, v)
    case RemoveServer(_) => true
    case OtherChange(file) => Resolves(file, v)
  }

  lemma KeptServerResolves(v: Vault, store: string, server: Server, k: Kept)
    requires KeptFrom(v, store, server, k)
    ensures ServerResolves(k.server, k.vault) <==> ServerResolves(server, k.vault)
  {
    if ServerResolves(k.server, k.vault) {
      forall i | 0 <= i < |server| && server[i].value.Reference? && Writable(server[i].value.slot)
        ensures server[i].value.slot in k.vault
      {
        assert k.server[i] == server[i];
      }
    }
  }

  lemma KeepingLosesNothing(v: Vault, store: string, server: Server, k: Kept, slot: Slot)
    requires KeptFrom(v, store, server, k) && slot in v
    ensures slot in k.vault
  {
    if slot.store == store && StagedUnder(k.staged, slot.name) {
      var i :| 0 <= i < |k.staged| && k.staged[i].name == slot.name;
      assert Slot(store, k.staged[i].name) == slot;
    } else {
      assert Lookup(k.vault, slot) == Lookup(v, slot);
    }
  }

  lemma KeepTypedIsFaithful(v: Vault, m: Mutation, x: Surroundings)
    ensures var server := if m.AddServer? || m.UpdateServer? then m.server else [];
            KeptFrom(v, x.store, server, KeepTyped(v, m, x))
  {
    if m.AddServer? || m.UpdateServer? {
      KeepIsFaithful(v, x.store, x.naming, m.server, x.readFaults, x.writeFaults);
    }
  }

  lemma WrittenResolves(d: Desk, m: Mutation, x: Surroundings)
    requires Resolves(d.file, d.vault)
    ensures var k := KeepTyped(d.vault, m, x);
            Resolves(Written(d.file, m, k.server), k.vault) <==> OwnReferencesResolve(m, k.vault)
  {
    var k := KeepTyped(d.vault, m, x);
    var file := Written(d.file, m, k.server);
    var server := if m.AddServer? || m.UpdateServer? then m.server else [];
    KeepTypedIsFaithful(d.vault, m, x);
    KeptServerResolves(d.vault, x.store, server, k);
    forall name | name in d.file ensures ServerResolves(d.file[name], k.vault) {
      forall i | 0 <= i < |d.file[name]| && d.file[name][i].value.Reference? && Writable(d.file[name][i].value.slot)
        ensures d.file[name][i].value.slot in k.vault
      {
        KeepingLosesNothing(d.vault, x.store, server, k, d.file[name][i].value.slot);
      }
    }
    if (m.AddServer? || m.UpdateServer?) && Resolves(file, k.vault) {
      assert m.name in file && file[m.name] == k.server;
    }
  }

  lemma ForgettingKeepsResolution(v: Vault, before: Server, file: ConfigFile,
      made: (string, string) -> bool, writeFaults: Faults)
    ensures Resolves(file, Forget(v, before, file, made, writeFaults)) <==> Resolves(file, v)
  {
    var after := Forget(v, before, file, made, writeFaults);
    forall name, i | name in file && 0 <= i < |file[name]| && file[name][i].value.Reference?
      ensures file[name][i].value.slot in after <==> file[name][i].value.slot in v
    {
      var slot := file[name][i].value.slot;
      assert file[name][i].value == Reference(slot);
      ForgetSparesWhatIsUsed(v, before, file, made, writeFaults, slot);
      assert Lookup(after, slot) == Lookup(v, slot);
    }
  }

  // Whatever the outcome, refused, confirmed, saved but not confirmed, or saved
  // but not loaded, no reference in the file lacks its secret unless the person
  // wrote one that led nowhere.
  lemma NoReferenceIsLeftDangling(d: Desk, m: Mutation, x: Surroundings)
    requires Resolves(d.file, d.vault)
    ensures var (after, outcome) := Apply(d, m, x);
            Resolves(after.file, after.vault)
            <==> (outcome.Refused? || OwnReferencesResolve(m, KeepTyped(d.vault, m, x).vault))
  {
    var (after, outcome) := Apply(d, m, x);
    var k := KeepTyped(d.vault, m, x);
    if outcome.Refused? {
      KeepTypedIsFaithful(d.vault, m, x);
      forall name | name in d.file ensures ServerResolves(d.file[name], after.vault) {
        forall i | 0 <= i < |d.file[name]| && d.file[name][i].value.Reference? && Writable(d.file[name][i].value.slot)
          ensures d.file[name][i].value.slot in after.vault
        {
          UndoLosesNothing(d, m, x, d.file[name][i].value.slot);
        }
      }
    } else {
      WrittenResolves(d, m, x);
      if outcome.Confirmed? {
        ForgettingKeepsResolution(k.vault, Leaving(m, x), after.file, x.made, x.forgetFaults);
      }
    }
  }

  lemma UndoLosesNothing(d: Desk, m: Mutation, x: Surroundings, slot: Slot)
    requires slot in d.vault
    ensures var k := KeepTyped(d.vault, m, x);
            slot in PutBack(k.vault, x.store, k.staged, x.backFaults).0
  {
    var k := KeepTyped(d.vault, m, x);
    var server := if m.AddServer? || m.UpdateServer? then m.server else [];
    KeepTypedIsFaithful(d.vault, m, x);
    KeepingLosesNothing(d.vault, x.store, server, k, slot);
    PutBackEffect(k.vault, x.store, k.staged, x.backFaults, slot);
    if slot.store == x.store && StagedUnder(k.staged, slot.name) {
      var i :| 0 <= i < |k.staged| && k.staged[i].name == slot.name;
      assert Slot(x.store, k.staged[i].name) == slot;
    }
  }

  // -------------------------------------------------------------------------
  // The stores and the file as they are
  // -------------------------------------------------------------------------

  class Keeper {
    var file: ConfigFile
    var values: Vault

    constructor (file: ConfigFile, values: Vault)
      ensures this.file == file && this.values == values
    {
      this.file, this.values := file, values;
    }

    method KeepStaged(store: string, naming: Naming, server: Server, readFaults: Faults, writeFaults: Faults)
        returns (kept: Server, staged: seq<Staged>)
      modifies this`values
      ensures Kept(values, kept, staged) == Keep(old(values), store, naming, server, readFaults, writeFaults)
    {
      kept, staged := [], [];
      var i := 0;
      while i < |server|
        invariant i <= |server|
        invariant Kept(values, kept, staged) == Keep(old(values), store, naming, server[..i], readFaults, writeFaults)
      {
        var f := server[i];
        assert server[..i + 1][..i] == server[..i];
        if f.secret && f.value.Typed? && !readFaults(i) && !writeFaults(i) {
          var slot := Slot(store, naming(f.key));
          var before := if slot in values then Some(values[slot]) else None;
          values := values[slot := f.value.text];
          var seen := exists j :: 0 <= j < |staged| && staged[j].name == slot.name;
          if !seen {
            staged := staged + [Staged(slot.name, before)];
          }
          kept := kept + [f.(value := Reference(slot))];
        } else {
          kept := kept + [f];
        }
        i := i + 1;
      }
      assert server[..i] == server;
    }

    method PutBackStaged(store: string, staged: seq<Staged>, writeFaults: Faults) returns (failed: seq<string>)
      modifies this`values
      ensures (values, failed) == PutBack(old(values), store, staged, writeFaults)
    {
      failed := [];
      var i := 0;
      while i < |staged|
        invariant i <= |staged|
        invariant (values, failed) == PutBack(old(values), store, staged[..i], writeFaults)
      {
        assert staged[..i + 1][..i] == staged[..i];
        var slot := Slot(store, staged[i].name);
        if writeFaults(i) {
          failed := failed + [staged[i].name];
        } else if staged[i].before.Some? {
          values := values[slot := staged[i].before.value];
        } else {
          values := values - {slot};
        }
        i := i + 1;
      }
      assert staged[..i] == staged;
    }

    method ForgetUnused(before: Server, made: (string, string) -> bool, writeFaults: Faults)
      modifies this`values
      ensures values == Forget(old(values), before, file, made, writeFaults)
    {
      var i := 0;
      while i < |before|
        invariant i <= |before|
        invariant values == Forget(old(values), before[..i], file, made, writeFaults)
      {
        assert before[..i + 1][..i] == before[..i];
        var f := before[i];
        if f.value.Reference? && !InUse(file, f.value.slot) && Writable(f.value.slot)
           && made(f.key, f.value.slot.name) && !writeFaults(i) {
          values := values - {f.value.slot};
        }
        i := i + 1;
      }
      assert before[..i] == before;
    }

    method ApplyOperatorMutation(m: Mutation, x: Surroundings) returns (outcome: Outcome)
      modifies this
      ensures (Desk(file, values), outcome) == Apply(old(Desk(file, values)), m, x)
    {
      var kept, staged := [], [];
      if m.AddServer? || m.UpdateServer? {
        kept, staged := KeepStaged(x.store, x.naming, m.server, x.readFaults, x.writeFaults);
      }
      var fileBefore := file;
      if !x.save.Refuses? {
        file := Written(file, m, kept);
      }
      if !x.save.Saves? {
        if file != fileBefore {
          return SavedUnconfirmed;
        }
        var failed := PutBackStaged(x.store, staged, x.backFaults);
        return Refused(failed);
      }
      if !x.loads {
        return NotLoaded;
      }
      ForgetUnused(Leaving(m, x), x.made, x.forgetFaults);
      return Confirmed;
    }
  }
}
