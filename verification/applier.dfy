/** Keeping the scheduler's handler table in step with the profile registry
    (executor/applier.go, executor/merge_profiles.go). */
module Appliers {
  import opened Jobs
  import opened Ordering
  import opened Texts
  import opened Registries

  /** A command of the configuration or of the store; the two flags say whether its fields other than the
      name pass validation, with paths anywhere and with paths inside the workspace. */
  datatype Command = Command(name: string, body: int, fits: bool, fitsStrictly: bool)

  datatype Record = Unreadable | Stored(cmd: Command)

  datatype Handler = Plain(id: int) | ForProfile(profile: Profile)

  predicate ValidName(name: string) {
    1 <= |name| <= 64 && forall i :: 0 <= i < |name| ==> NameChar(name[i])
  }

  function NewProfile(name: string, body: int): (p: Profile)
    ensures p.Keyed() && p.name == name && p.body == body
  {
    Profile(name, HandlerKey(name), body)
  }

  function Build(cmd: Command, strictly: bool): Option<Profile> {
    if ValidName(Trim(cmd.name)) && (if strictly then cmd.fitsStrictly else cmd.fits)
    then Some(NewProfile(Trim(cmd.name), cmd.body)) else None
  }

  // ---------- Reading the two sources ----------

  predicate AllBuild(commands: seq<Command>) {
    forall i :: 0 <= i < |commands| ==> Build(commands[i], true).Some?
  }

  function Built(commands: seq<Command>): (r: seq<Profile>)
    requires AllBuild(commands)
    ensures |r| == |commands| && forall i :: 0 <= i < |r| ==>
            r[i] == NewProfile(Trim(commands[i].name), commands[i].body)
  {
    seq(|commands|, i requires 0 <= i < |commands| => Build(commands[i], true).value)
  }

  /** One invalid or repeated command refuses the whole list. */
  ghost predicate Loadable(commands: seq<Command>) {
    AllBuild(commands) && DistinctKeys(Built(commands))
  }

  lemma OtherNameOtherKey(p: Profile, q: Profile)
    requires p.Keyed() && q.Keyed() && p.name != q.name
    ensures p.key != q.key
  {
    if p.key == q.key { HandlerKeyInjective(p.name, q.name); }
  }

  method LoadProfiles(commands: seq<Command>) returns (profiles: Option<seq<Profile>>)
    ensures profiles.Some? <==> Loadable(commands)
    ensures profiles.Some? ==> profiles.value == Built(commands)
  {
    var done: seq<Profile> := [];
    var declared: set<string> := {};
    for i := 0 to |commands|
      invariant AllBuild(commands[..i]) && done == Built(commands[..i]) && DistinctKeys(done)
      invariant declared == set p | p in done :: p.name
    {
      var built := Build(commands[i], true);
      if built.None? {
        return None;
      }
      assert commands[..i + 1] == commands[..i] + [commands[i]];
      if built.value.name in declared {
        RepeatedName(commands, done, i);
        return None;
      }
      forall p | p in done ensures p.key != built.value.key { OtherNameOtherKey(p, built.value); }
      declared := declared + {built.value.name};
      done := done + [built.value];
    }
    assert commands[..|commands|] == commands;
    profiles := Some(done);
  }

  /** A list loads exactly when every trimmed name is a valid one, every command passes the strict checks,
      and no two trimmed names are the same. */
  lemma LoadableIff(commands: seq<Command>)
    ensures Loadable(commands) <==>
            && (forall i :: 0 <= i < |commands| ==> ValidName(Trim(commands[i].name)) && commands[i].fitsStrictly)
            && (forall i, j :: 0 <= i < j < |commands| ==> Trim(commands[i].name) != Trim(commands[j].name))
  {
    forall i | 0 <= i < |commands|
      ensures Build(commands[i], true).Some? <==> ValidName(Trim(commands[i].name)) && commands[i].fitsStrictly
    {}
    if AllBuild(commands) {
      var built := Built(commands);
      forall i, j | 0 <= i < j < |commands|
        ensures built[i].key != built[j].key <==> Trim(commands[i].name) != Trim(commands[j].name)
      {
        if built[i].name != built[j].name { OtherNameOtherKey(built[i], built[j]); }
      }
    }
  }

  lemma RepeatedName(commands: seq<Command>, done: seq<Profile>, i: nat)
    requires i < |commands| && AllBuild(commands[..i]) && done == Built(commands[..i])
    requires Build(commands[i], true).Some? && exists p :: p in done && p.name == Trim(commands[i].name)
    ensures !Loadable(commands)
  {
    var k :| 0 <= k < |done| && done[k].name == Trim(commands[i].name);
    if AllBuild(commands) {
      assert commands[..i][k] == commands[k];
      assert Built(commands)[k].key == Built(commands)[i].key;
    }
  }

  /** The key a command of the configuration is looked up by: its name as written, not trimmed. */
  function ConfigKeys(commands: seq<Command>): set<string> {
    set c | c in commands && Trim(c.name) != "" :: HandlerKey(c.name)
  }

  function EntryOf(keys: set<string>, record: Record): Option<StoreEntry> {
    if record.Unreadable? then None
    else
      match Build(record.cmd, false)
      case None => None
      case Some(profile) => Some(StoreEntry(profile, profile.key in keys, None))
  }

  function MergedEntries(keys: set<string>, records: seq<Record>): seq<StoreEntry> {
    if records == [] then []
    else
      var rest := MergedEntries(keys, records[..|records| - 1]);
      match EntryOf(keys, records[|records| - 1])
      case None => rest
      case Some(entry) => rest + [entry]
  }

  /** A bad record is skipped with a warning; the others go in. */
  method MergeStoreProfiles(commands: seq<Command>, records: seq<Record>)
    returns (entries: seq<StoreEntry>, warnings: nat)
    ensures entries == MergedEntries(ConfigKeys(commands), records)
    ensures |entries| + warnings == |records|
  {
    var keys: set<string> := {};
    for i := 0 to |commands|
      invariant keys == ConfigKeys(commands[..i])
    {
      assert commands[..i + 1] == commands[..i] + [commands[i]];
      if Trim(commands[i].name) != "" {
        keys := keys + {HandlerKey(commands[i].name)};
      }
    }
    assert commands[..|commands|] == commands;
    entries, warnings := [], 0;
    for i := 0 to |records|
      invariant entries == MergedEntries(keys, records[..i]) && |entries| + warnings == i
    {
      assert records[..i + 1][..i] == records[..i];
      match EntryOf(keys, records[i]) {
        case None => warnings := warnings + 1;
        case Some(entry) => entries := entries + [entry];
      }
    }
    assert records[..|records|] == records;
  }

  // ---------- One call, on values ----------

  /** The registry's table, the scheduler's handlers and the command list on record. */
  datatype State = State(enabled: bool, hasStore: bool, table: Table, handlers: map<string, Handler>,
                         commands: seq<Command>)

  predicate Stays(handlers: map<string, Handler>, entries: map<string, Entry>, key: string) {
    key in handlers && (!IsExecKey(key) || key in entries)
  }

  /** The given keys registered afresh, executor keys that are no longer live removed, the rest as it was. */
  function Synced(handlers: map<string, Handler>, entries: map<string, Entry>, again: set<string>): map<string, Handler>
    requires again <= entries.Keys
  {
    map k | k in handlers.Keys + again && (k in again || Stays(handlers, entries, k)) ::
      if k in again then ForProfile(entries[k].profile) else handlers[k]
  }

  function StoreKeys(entries: map<string, Entry>): set<string> {
    set k | k in entries && entries[k].source == FromStore
  }

  ghost function ApplyStep(s: State, list: Option<seq<Record>>): Option<State> {
    if !s.hasStore || list.None? then None
    else
      var entries := MergedEntries(ConfigKeys(s.commands), list.value);
      if !s.enabled || StoreRefused(s.table.entries, entries) then None
      else
        var table := StoreApplied(s.table, entries);
        Some(s.(table := table, handlers := Synced(s.handlers, table.entries, StoreKeys(table.entries))))
  }

  ghost function ConfigStep(s: State, commands: seq<Command>): Option<State> {
    if !s.enabled || !Loadable(commands) then None
    else
      var table := ConfigApplied(s.table, Built(commands));
      Some(s.(table := table, handlers := Synced(s.handlers, table.entries, table.entries.Keys), commands := commands))
  }

  // ---------- Agreement ----------

  ghost predicate AllKeyed(t: Table) {
    forall k :: k in t.entries ==> t.entries[k].profile.Keyed()
  }

  /** The executor's handlers are exactly those of the live profiles. */
  ghost predicate Agrees(s: State) {
    forall k :: IsExecKey(k) ==>
      (k in s.handlers <==> k in s.table.entries)
        && (k in s.handlers ==> s.handlers[k] == ForProfile(s.table.entries[k].profile))
  }

  /** The config profiles of the table are those of the command list on record. */
  ghost predicate OnRecord(s: State) {
    && Loadable(s.commands)
    && (forall k :: HeldByConfig(s.table.entries, k) <==> k in KeysOf(Built(s.commands)))
    && (forall k :: HeldByConfig(s.table.entries, k) ==> s.table.entries[k].profile in Built(s.commands))
  }

  ghost predicate Inv(s: State) {
    TableOk(s.table) && AllKeyed(s.table) && Agrees(s) && OnRecord(s)
  }

  lemma {:induction false} MergedIs(keys: set<string>, records: seq<Record>, entry: StoreEntry)
    ensures entry in MergedEntries(keys, records) <==> exists r :: r in records && EntryOf(keys, r) == Some(entry)
    decreases |records|
  {
    if records != [] {
      var front, last := records[..|records| - 1], records[|records| - 1];
      MergedIs(keys, front, entry);
      assert records == front + [last];
      assert EntryOf(keys, last) == Some(entry) ==> last in records;
    }
  }

  /** What the record of a stored profile becomes: a profile of the trimmed name, marked when a command of
      the configuration is written with exactly that name. */
  predicate Becomes(commands: seq<Command>, r: Record, entry: StoreEntry) {
    && r.Stored? && ValidName(Trim(r.cmd.name)) && r.cmd.fits
    && entry.profile.name == Trim(r.cmd.name) && entry.profile.key == "exec." + entry.profile.name
    && entry.profile.body == r.cmd.body && entry.reason.None?
    && (entry.degraded <==> exists c :: c in commands && c.name == entry.profile.name)
  }

  lemma BecomesIff(commands: seq<Command>, r: Record, entry: StoreEntry)
    ensures EntryOf(ConfigKeys(commands), r) == Some(entry) <==> Becomes(commands, r, entry)
  {
    if r.Stored? && Build(r.cmd, false).Some? {
      var name := Trim(r.cmd.name);
      forall c | c in commands ensures HandlerKey(c.name) == HandlerKey(name) <==> c.name == name {
        if HandlerKey(c.name) == HandlerKey(name) { HandlerKeyInjective(c.name, name); }
      }
      assert Trim(name) == name;
    }
  }

  /** The merged entries are exactly those of the records that can be read and are valid. */
  lemma MergedAre(commands: seq<Command>, records: seq<Record>, entry: StoreEntry)
    ensures entry in MergedEntries(ConfigKeys(commands), records) <==>
            exists r :: r in records && Becomes(commands, r, entry)
  {
    MergedIs(ConfigKeys(commands), records, entry);
    forall r ensures EntryOf(ConfigKeys(commands), r) == Some(entry) <==> Becomes(commands, r, entry) {
      BecomesIff(commands, r, entry);
    }
  }

  lemma StoreKeepsKeyed(t: Table, keys: set<string>, records: seq<Record>)
    requires AllKeyed(t) && !StoreRefused(t.entries, MergedEntries(keys, records))
    ensures AllKeyed(StoreApplied(t, MergedEntries(keys, records)))
  {
    var items := MergedEntries(keys, records);
    var u := StoreApplied(t, items);
    forall k | k in u.entries ensures u.entries[k].profile.Keyed() {
      OverlaidAt(Without(t.entries, FromStore), ProfilesOf(items), FromStore, k);
      if u.entries[k].profile in ProfilesOf(items) {
        var i :| 0 <= i < |items| && items[i].profile == u.entries[k].profile;
        MergedIs(keys, records, items[i]);
      }
    }
  }

  lemma ConfigKeepsKeyed(t: Table, commands: seq<Command>)
    requires AllKeyed(t) && Loadable(commands)
    ensures AllKeyed(ConfigApplied(t, Built(commands)))
  {
    var u := ConfigApplied(t, Built(commands));
    forall k | k in u.entries ensures u.entries[k].profile.Keyed() {
      OverlaidAt(Without(t.entries, FromConfig), Built(commands), FromConfig, k);
    }
  }

  lemma ApplyKeepsInv(s: State, list: Option<seq<Record>>)
    requires Inv(s) && ApplyStep(s, list).Some?
    ensures Inv(ApplyStep(s, list).value)
  {
    var items := MergedEntries(ConfigKeys(s.commands), list.value);
    var base := Without(s.table.entries, FromStore);
    var u := ApplyStep(s, list).value;
    StoreKeepsTable(s.table, items);
    StoreKeepsKeyed(s.table, ConfigKeys(s.commands), list.value);
    forall k
      ensures k in u.table.entries && u.table.entries[k].source != FromStore ==>
              k in s.table.entries && u.table.entries[k] == s.table.entries[k]
      ensures HeldByConfig(u.table.entries, k) <==> HeldByConfig(s.table.entries, k)
    {
      OverlaidAt(base, ProfilesOf(items), FromStore, k);
    }
    assert forall k :: k in u.table.entries ==> IsExecKey(k);
  }

  lemma ConfigKeepsInv(s: State, commands: seq<Command>)
    requires Inv(s) && ConfigStep(s, commands).Some?
    ensures Inv(ConfigStep(s, commands).value)
  {
    var batch, base := Built(commands), Without(s.table.entries, FromConfig);
    var u := ConfigStep(s, commands).value;
    ConfigKeepsTable(s.table, batch);
    ConfigKeepsKeyed(s.table, commands);
    forall k
      ensures HeldByConfig(u.table.entries, k) <==> k in KeysOf(batch)
      ensures HeldByConfig(u.table.entries, k) ==> u.table.entries[k].profile in batch
    {
      OverlaidAt(base, batch, FromConfig, k);
    }
    assert forall k :: k in u.table.entries ==> IsExecKey(k);
  }

  lemma PlainHandlersStay(s: State, list: Option<seq<Record>>, commands: seq<Command>, k: string)
    requires TableOk(s.table) && AllKeyed(s.table) && !IsExecKey(k)
    ensures ApplyStep(s, list).Some? ==>
              var h := ApplyStep(s, list).value.handlers;
                (k in h <==> k in s.handlers) && (k in h ==> h[k] == s.handlers[k])
    ensures ConfigStep(s, commands).Some? ==>
              var h := ConfigStep(s, commands).value.handlers;
                (k in h <==> k in s.handlers) && (k in h ==> h[k] == s.handlers[k])
  {
    if ApplyStep(s, list).Some? {
      StoreKeepsTable(s.table, MergedEntries(ConfigKeys(s.commands), list.value));
      StoreKeepsKeyed(s.table, ConfigKeys(s.commands), list.value);
    }
    if ConfigStep(s, commands).Some? {
      ConfigKeepsTable(s.table, Built(commands));
      ConfigKeepsKeyed(s.table, commands);
    }
  }

  // ---------- Repeating a call ----------

  lemma SyncedTwice(handlers: map<string, Handler>, entries: map<string, Entry>, again: set<string>)
    requires again <= entries.Keys
    ensures Synced(Synced(handlers, entries, again), entries, again) == Synced(handlers, entries, again)
  {
    var once := Synced(handlers, entries, again);
    assert Synced(once, entries, again).Keys == once.Keys;
  }

  /** The same call again leaves everything as it is. */
  lemma ApplyTwice(s: State, list: Option<seq<Record>>)
    requires Inv(s) && ApplyStep(s, list).Some?
    ensures var u := ApplyStep(s, list).value; ApplyStep(u, list) == Some(u)
  {
    var items := MergedEntries(ConfigKeys(s.commands), list.value);
    var u := ApplyStep(s, list).value;
    StoreTwice(s.table, items);
    forall k ensures HeldByConfig(u.table.entries, k) <==> HeldByConfig(s.table.entries, k) {
      OverlaidAt(Without(s.table.entries, FromStore), ProfilesOf(items), FromStore, k);
    }
    SyncedTwice(s.handlers, u.table.entries, StoreKeys(u.table.entries));
  }

  lemma ConfigTwice(s: State, commands: seq<Command>)
    requires Inv(s) && ConfigStep(s, commands).Some?
    ensures var u := ConfigStep(s, commands).value; ConfigStep(u, commands) == Some(u)
  {
    var u := ConfigStep(s, commands).value;
    Registries.ConfigTwice(s.table, Built(commands));
    SyncedTwice(s.handlers, u.table.entries, u.table.entries.Keys);
  }

  function Added(handlers: map<string, Handler>, again: set<string>): set<string> {
    set k | k in again && !(k in handlers && IsExecKey(k))
  }

  function Removed(handlers: map<string, Handler>, entries: map<string, Entry>): set<string> {
    set k | k in handlers && IsExecKey(k) && k !in entries
  }

  /** The reported keys are the executor handlers that are new and those that are gone. */
  lemma ReportedIs(before: map<string, Handler>, entries: map<string, Entry>, again: set<string>, k: string)
    requires again <= entries.Keys && forall x :: x in entries ==> IsExecKey(x)
    ensures var after := Synced(before, entries, again);
      && (k in Added(before, again) <==> k in after && k !in before)
      && (k in Removed(before, entries) <==> k in before && k !in after)
  {}

  lemma ReportedAre(before: map<string, Handler>, entries: map<string, Entry>, again: set<string>)
    requires again <= entries.Keys && forall x :: x in entries ==> IsExecKey(x)
    ensures var after := Synced(before, entries, again);
      Added(before, again) == after.Keys - before.Keys && Removed(before, entries) == before.Keys - after.Keys
  {
    forall k { ReportedIs(before, entries, again, k); }
  }

  ghost predicate SamePlain(before: map<string, Handler>, after: map<string, Handler>) {
    forall k :: !IsExecKey(k) ==> (k in after <==> k in before) && (k in after ==> after[k] == before[k])
  }

  /** A successful Apply: the table took the merged entries, and other handlers are untouched. */
  lemma ApplyMeans(s: State, list: Option<seq<Record>>)
    requires Inv(s) && ApplyStep(s, list).Some?
    ensures var u := ApplyStep(s, list).value;
      && StoreTook(s.table, u.table, MergedEntries(ConfigKeys(s.commands), list.value))
         && SamePlain(s.handlers, u.handlers)
      && Added(s.handlers, StoreKeys(u.table.entries)) == u.handlers.Keys - s.handlers.Keys
      && Removed(s.handlers, u.table.entries) == s.handlers.Keys - u.handlers.Keys
  {
    var u := ApplyStep(s, list).value;
    ApplyKeepsInv(s, list);
    StoreTakes(s.table, MergedEntries(ConfigKeys(s.commands), list.value));
    forall k | !IsExecKey(k) { PlainHandlersStay(s, list, [], k); }
    ReportedAre(s.handlers, u.table.entries, StoreKeys(u.table.entries));
  }

  lemma ConfigMeans(s: State, commands: seq<Command>)
    requires Inv(s) && ConfigStep(s, commands).Some?
    ensures var u := ConfigStep(s, commands).value;
      && ConfigTook(s.table, u.table, Built(commands)) && SamePlain(s.handlers, u.handlers)
      && Added(s.handlers, u.table.entries.Keys) == u.handlers.Keys - s.handlers.Keys
      && Removed(s.handlers, u.table.entries) == s.handlers.Keys - u.handlers.Keys
  {
    var u := ConfigStep(s, commands).value;
    ConfigKeepsInv(s, commands);
    ConfigTakes(s.table, Built(commands));
    forall k | !IsExecKey(k) { PlainHandlersStay(s, None, commands, k); }
    ReportedAre(s.handlers, u.table.entries, u.table.entries.Keys);
  }

  lemma AgreeingAddsNothing(s: State, again: set<string>)
    requires Inv(s) && again <= s.table.entries.Keys
    ensures Added(s.handlers, again) == {} && Removed(s.handlers, s.table.entries) == {}
  {
    assert forall k :: k in s.table.entries ==> IsExecKey(k);
  }

  // ---------- Runs ----------

  datatype Call = Apply(list: Option<seq<Record>>) | ApplyConfig(commands: seq<Command>)

  /** A failed call leaves table, handlers and the command list on record alone. */
  ghost function CallStep(s: State, c: Call): State {
    var next := if c.Apply? then ApplyStep(s, c.list) else ConfigStep(s, c.commands);
    if next.Some? then next.value else s
  }

  ghost function Run(s: State, calls: seq<Call>): State
    decreases |calls|
  {
    if calls == [] then s else Run(CallStep(s, calls[0]), calls[1..])
  }

  /** Over any run of calls the executor's handlers are exactly those of the live profiles, each built
      from its profile; every degraded profile is held down by a live config profile; the config part is
      what is on record; and a handler without the executor prefix is never touched. */
  lemma {:induction false} RunKeepsAgreement(s: State, calls: seq<Call>, plain: string)
    requires Inv(s) && !IsExecKey(plain)
    ensures var u := Run(s, calls);
      Inv(u) && (plain in u.handlers <==> plain in s.handlers)
        && (plain in u.handlers ==> u.handlers[plain] == s.handlers[plain])
    decreases |calls|
  {
    if calls != [] {
      var c := calls[0];
      var next := if c.Apply? then ApplyStep(s, c.list) else ConfigStep(s, c.commands);
      if next.Some? {
        if c.Apply? {
          ApplyKeepsInv(s, c.list);
          PlainHandlersStay(s, c.list, [], plain);
        } else {
          ConfigKeepsInv(s, c.commands);
          PlainHandlersStay(s, None, c.commands, plain);
        }
      }
      RunKeepsAgreement(CallStep(s, c), calls[1..], plain);
    }
  }

  // ---------- When the store is refused ----------

  /** The stored record r is built and clashes with the command c, whose name is padded with white space. */
  predicate PaddedClash(r: Record, c: Command) {
    r.Stored? && Build(r.cmd, false).Some? && Trim(r.cmd.name) == Trim(c.name) && c.name != Trim(c.name)
  }

  lemma HeldByCommand(s: State, name: string) returns (c: Command)
    requires Inv(s) && HeldByConfig(s.table.entries, HandlerKey(name))
    ensures c in s.commands && Trim(c.name) == name && Trim(c.name) != ""
  {
    var p :| p in Built(s.commands) && p.key == HandlerKey(name);
    var i :| 0 <= i < |s.commands| && Built(s.commands)[i] == p;
    HandlerKeyInjective(p.name, name);
    c := s.commands[i];
    assert Build(c, true).Some?;
  }

  lemma CommandHolds(s: State, c: Command)
    requires Inv(s) && c in s.commands
    ensures HeldByConfig(s.table.entries, HandlerKey(Trim(c.name)))
  {
    var i :| 0 <= i < |s.commands| && s.commands[i] == c;
    assert Built(s.commands)[i].key in KeysOf(Built(s.commands));
  }

  lemma OneCommandOfName(commands: seq<Command>, c: Command, d: Command)
    requires Loadable(commands) && c in commands && d in commands && Trim(c.name) == Trim(d.name)
    ensures c == d
  {
    var i :| 0 <= i < |commands| && commands[i] == c;
    var j :| 0 <= j < |commands| && commands[j] == d;
    var built := Built(commands);
    assert built[i] == NewProfile(Trim(c.name), c.body) && built[j] == NewProfile(Trim(d.name), d.body);
    SameKey(built[i], built[j]);
    assert i == j;
  }

  lemma SameKey(p: Profile, q: Profile)
    requires p.Keyed() && q.Keyed() && p.name == q.name
    ensures p.key == q.key
  {}

  lemma MarkedUnlessPadded(s: State, name: string)
    requires Inv(s) && Trim(name) == name && HeldByConfig(s.table.entries, HandlerKey(name))
    ensures HandlerKey(name) !in ConfigKeys(s.commands) <==>
            exists c :: c in s.commands && Trim(c.name) == name && c.name != name
  {
    var c := HeldByCommand(s, name);
    if HandlerKey(name) in ConfigKeys(s.commands) {
      var d :| d in s.commands && Trim(d.name) != "" && HandlerKey(d.name) == HandlerKey(name);
      HandlerKeyInjective(d.name, name);
      forall e | e in s.commands && Trim(e.name) == name ensures e.name == name { OneCommandOfName(s.commands, e, d); }
    } else {
      assert c.name == name ==> HandlerKey(name) in ConfigKeys(s.commands);
    }
  }

  ghost predicate Blocks(s: State, items: seq<StoreEntry>, i: nat) {
    i < |items| && HeldByConfig(s.table.entries, items[i].profile.key) && !items[i].degraded
  }

  lemma BlockedIsPadded(s: State, records: seq<Record>, i: nat) returns (r: Record, c: Command)
    requires Inv(s) && Blocks(s, MergedEntries(ConfigKeys(s.commands), records), i)
    ensures r in records && c in s.commands && PaddedClash(r, c)
  {
    var keys := ConfigKeys(s.commands);
    var item := MergedEntries(keys, records)[i];
    MergedIs(keys, records, item);
    r :| r in records && EntryOf(keys, r) == Some(item);
    MarkedUnlessPadded(s, item.profile.name);
    c :| c in s.commands && Trim(c.name) == item.profile.name && c.name != item.profile.name;
  }

  lemma PaddedIsBlocked(s: State, records: seq<Record>, r: Record, c: Command) returns (i: nat)
    requires Inv(s) && r in records && c in s.commands && PaddedClash(r, c)
    ensures Blocks(s, MergedEntries(ConfigKeys(s.commands), records), i)
  {
    var keys := ConfigKeys(s.commands);
    var item := EntryOf(keys, r).value;
    var items := MergedEntries(keys, records);
    MergedIs(keys, records, item);
    i :| 0 <= i < |items| && items[i] == item;
    CommandHolds(s, c);
    MarkedUnlessPadded(s, Trim(c.name));
    assert item.profile.key == HandlerKey(Trim(c.name));
  }

  /** A store whose own names are distinct is refused exactly when a command of the configuration that is
      written with white space around its name meets a stored profile of the trimmed name: the merge marks
      clashes by the name as written, the registry finds them by the trimmed one. */
  lemma StoreRefusedIffPadded(s: State, records: seq<Record>)
    requires Inv(s) && DistinctKeys(ProfilesOf(MergedEntries(ConfigKeys(s.commands), records)))
    ensures StoreRefused(s.table.entries, MergedEntries(ConfigKeys(s.commands), records)) <==>
            exists r, c :: r in records && c in s.commands && PaddedClash(r, c)
  {
    var items := MergedEntries(ConfigKeys(s.commands), records);
    if StoreRefused(s.table.entries, items) {
      var i :| 0 <= i < |items| && HeldByConfig(s.table.entries, items[i].profile.key) && !items[i].degraded;
      var r, c := BlockedIsPadded(s, records, i);
    }
    if exists r, c :: r in records && c in s.commands && PaddedClash(r, c) {
      var r, c :| r in records && c in s.commands && PaddedClash(r, c);
      var i := PaddedIsBlocked(s, records, r, c);
    }
  }

  /** A concrete instance: the configuration declares " a", the store holds a profile called a. */
  lemma PaddedNameBlocksTheStore()
    ensures var c, r := Command(" a", 1, true, true), Stored(Command("a", 2, true, true));
      var s := State(true, true, Table(map["exec.a" := Entry(NewProfile("a", 1), FromConfig)], []),
                     map["exec.a" := ForProfile(NewProfile("a", 1))], [c]);
      Inv(s) && ApplyStep(s, Some([r])) == None
  {
    var c, r := Command(" a", 1, true, true), Stored(Command("a", 2, true, true));
    var s := State(true, true, Table(map["exec.a" := Entry(NewProfile("a", 1), FromConfig)], []),
                   map["exec.a" := ForProfile(NewProfile("a", 1))], [c]);
    assert !IsSpace('a') && IsSpace(' ');
    assert FirstInk(" a", 0) == 1 && LastInk(" a", 1, 2) == 2 && Trim(" a") == "a";
    assert NewProfile("a", 1).key == "exec.a";
    assert Built([c]) == [NewProfile("a", 1)];
    assert forall k :: k in KeysOf(Built([c])) <==> k == "exec.a" by {
      assert NewProfile("a", 1) in Built([c]);
    }
    assert Inv(s);
    assert Trim("a") == "a";
    assert PaddedClash(r, c);
    assert r in [r] && c in s.commands;
    var items := MergedEntries(ConfigKeys(s.commands), [r]);
    assert MergedEntries(ConfigKeys(s.commands), [r][..0]) == [];
    assert |items| == 1;
    StoreRefusedIffPadded(s, [r]);
  }

  // ---------- The applier itself ----------

  lemma SyncedIs(before: map<string, Handler>, after: map<string, Handler>, entries: map<string, Entry>,
                 again: set<string>, have: set<string>)
    requires again <= entries.Keys && have == set k | k in before && IsExecKey(k)
    requires forall k :: k in after <==> (k in before || k in again) && !(k in have && k !in entries)
    requires forall k :: k in after ==> after[k] == if k in again then ForProfile(entries[k].profile) else before[k]
    ensures after == Synced(before, entries, again)
    ensures again - have == Added(before, again)
    ensures (set k | k in have && k !in entries) == Removed(before, entries)
  {
    assert after.Keys == Synced(before, entries, again).Keys;
  }

  datatype ApplyResult = ApplyResult(stored: nat, config: nat, degraded: nat, added: seq<string>, removed: seq<string>)

  class Applier {
    const registry: Registry
    const hasStore: bool
    var handlers: map<string, Handler>
    var configCommands: seq<Command>

    ghost function View(): State
      reads this, registry
    {
      State(registry.enabled, hasStore, registry.data.table, handlers, configCommands)
    }

    ghost predicate Valid()
      reads this, registry
    {
      registry.Valid() && Inv(View())
    }

    constructor (registry: Registry, hasStore: bool, handlers: map<string, Handler>, commands: seq<Command>)
      requires registry.Valid() && Inv(State(registry.enabled, hasStore, registry.data.table, handlers, commands))
      ensures Valid() && this.registry == registry
      ensures View() == State(registry.enabled, hasStore, registry.data.table, handlers, commands)
    {
      this.registry, this.hasStore, this.handlers, configCommands := registry, hasStore, handlers, commands;
    }

    method RegisterAll(again: seq<string>, have: set<string>) returns (added: set<string>)
      requires forall k :: k in again ==> k in registry.data.table.entries
      modifies this`handlers
      ensures forall k :: k in handlers <==> k in old(handlers) || k in again
      ensures forall k :: k in handlers ==>
                handlers[k] ==
                if k in again then ForProfile(registry.data.table.entries[k].profile) else old(handlers)[k]
      ensures added == Elements(again) - have
    {
      added := {};
      for i := 0 to |again|
        invariant forall k :: k in handlers <==> k in old(handlers) || k in again[..i]
        invariant forall k :: k in handlers ==>
                    handlers[k] ==
                    if k in again[..i] then ForProfile(registry.data.table.entries[k].profile) else old(handlers)[k]
        invariant added == Elements(again[..i]) - have
      {
        assert again[..i + 1] == again[..i] + [again[i]];
        handlers := handlers[again[i] := ForProfile(registry.data.table.entries[again[i]].profile)];
        if again[i] !in have {
          added := added + {again[i]};
        }
      }
      assert again[..|again|] == again;
    }

    method RemoveGone(have: set<string>) returns (removed: set<string>)
      modifies this`handlers
      ensures removed == set k | k in have && k !in registry.data.table.entries
      ensures handlers == old(handlers) - removed
    {
      removed := {};
      var rest := have;
      while rest != {}
        invariant rest <= have && removed == set k | k in have - rest && k !in registry.data.table.entries
        invariant handlers == old(handlers) - removed
        decreases |rest|
      {
        var key :| key in rest;
        rest := rest - {key};
        if key !in registry.data.table.entries {
          handlers := handlers - {key};
          removed := removed + {key};
        }
      }
    }

    /** Registers first, then removes; a handler without the executor prefix is not looked at. */
    method SyncHandlers(again: seq<string>) returns (added: seq<string>, removed: seq<string>)
      requires forall k :: k in again ==> k in registry.data.table.entries
      modifies this`handlers
      ensures handlers == Synced(old(handlers), registry.data.table.entries, Elements(again))
      ensures Listing(added, Added(old(handlers), Elements(again)))
      ensures Listing(removed, Removed(old(handlers), registry.data.table.entries))
    {
      var have := set k | k in handlers && IsExecKey(k);
      var addedKeys := RegisterAll(again, have);
      var removedKeys := RemoveGone(have);
      SyncedIs(old(handlers), handlers, registry.data.table.entries, Elements(again), have);
      added := SortStrings(addedKeys);
      removed := SortStrings(removedKeys);
    }

    /** The live keys of the store, in order, and how many are not of the store. */
    method SplitKeys() returns (storeKeys: seq<string>, others: nat)
      requires registry.Valid()
      ensures Listing(storeKeys, StoreKeys(registry.data.table.entries))
      ensures |storeKeys| == |StoreKeys(registry.data.table.entries)|
              && |storeKeys| + others == |registry.data.table.entries.Keys|
    {
      var keys, entries := registry.data.keys, registry.data.table.entries;
      storeKeys, others := [], 0;
      for i := 0 to |keys|
        invariant forall k :: k in storeKeys <==> k in keys[..i] && entries[k].source == FromStore
        invariant SortedBy(Before, storeKeys) && |storeKeys| + others == i
      {
        assert keys[..i + 1] == keys[..i] + [keys[i]];
        if entries[keys[i]].source == FromStore {
          forall j | 0 <= j < |storeKeys| ensures Before(storeKeys[j], keys[i]) { assert storeKeys[j] in keys[..i]; }
          storeKeys := storeKeys + [keys[i]];
        } else {
          others := others + 1;
        }
      }
      assert keys[..|keys|] == keys;
      ListingSize(keys, entries.Keys);
      ListingSize(storeKeys, StoreKeys(entries));
    }

    ghost predicate Counts(result: ApplyResult)
      reads registry
    {
      var t := registry.data.table;
      && result.stored == |StoreKeys(t.entries)| && result.stored + result.config == |t.entries.Keys|
      && result.degraded == |t.degraded|
    }

    /** Brings the store's profiles into the table and registers them; config handlers are left alone. */
    method Apply(list: Option<seq<Record>>) returns (result: Option<ApplyResult>)
      requires Valid()
      modifies this`handlers, registry
      ensures Valid()
      ensures result.Some? <==> ApplyStep(old(View()), list).Some?
      ensures View() == if result.Some? then ApplyStep(old(View()), list).value else old(View())
      ensures result.Some? ==>
                StoreTook(old(View()).table, View().table, MergedEntries(ConfigKeys(configCommands), list.value))
      ensures SamePlain(old(handlers), handlers)
      ensures result.Some? ==>
                && Counts(result.value)
                && Listing(result.value.added, handlers.Keys - old(handlers).Keys)
                && Listing(result.value.removed, old(handlers).Keys - handlers.Keys)
    {
      if ApplyStep(View(), list).Some? { ApplyMeans(View(), list); }
      result := BringIn(list);
    }

    method BringIn(list: Option<seq<Record>>) returns (result: Option<ApplyResult>)
      requires Valid()
      modifies this`handlers, registry
      ensures Valid()
      ensures result.Some? <==> ApplyStep(old(View()), list).Some?
      ensures View() == if result.Some? then ApplyStep(old(View()), list).value else old(View())
      ensures result.Some? ==>
                && Counts(result.value)
                && Listing(result.value.added, Added(old(handlers), StoreKeys(registry.data.table.entries)))
                && Listing(result.value.removed, Removed(old(handlers), registry.data.table.entries))
    {
      ghost var s := View();
      if !hasStore || list.None? {
        return None;
      }
      var entries, warnings := MergeStoreProfiles(configCommands, list.value);
      var ok := registry.ApplyStore(entries);
      if !ok {
        assert View() == s;
        return None;
      }
      ApplyKeepsInv(s, list);
      var storeKeys, others := SplitKeys();
      assert Elements(storeKeys) == StoreKeys(registry.data.table.entries);
      var added, removed := SyncHandlers(storeKeys);
      assert View() == ApplyStep(s, list).value;
      result := Some(ApplyResult(|storeKeys|, others, |registry.data.table.degraded|, added, removed));
    }

    /** Replaces the config profiles; everything that can fail comes before the first change. */
    method ApplyConfig(commands: seq<Command>) returns (result: Option<ApplyResult>)
      requires Valid()
      modifies this`handlers, this`configCommands, registry
      ensures Valid()
      ensures result.Some? <==> ConfigStep(old(View()), commands).Some?
      ensures View() == if result.Some? then ConfigStep(old(View()), commands).value else old(View())
      ensures result.Some? ==> AllBuild(commands) && ConfigTook(old(View()).table, View().table, Built(commands))
      ensures configCommands == if result.Some? then commands else old(configCommands)
      ensures SamePlain(old(handlers), handlers)
      ensures result.Some? ==>
                && Counts(result.value)
                && Listing(result.value.added, handlers.Keys - old(handlers).Keys)
                && Listing(result.value.removed, old(handlers).Keys - handlers.Keys)
    {
      if ConfigStep(View(), commands).Some? { ConfigMeans(View(), commands); }
      result := ReplaceConfig(commands);
    }

    method SwapConfig(profiles: seq<Profile>) returns (ok: bool)
      requires registry.Valid()
      modifies registry
      ensures registry.Valid() && (ok <==> registry.enabled && DistinctKeys(profiles))
      ensures registry.data.table ==
              if ok then ConfigApplied(old(registry.data).table, profiles) else old(registry.data).table
    {
      ok := registry.ApplyConfig(profiles);
    }

    method ReplaceConfig(commands: seq<Command>) returns (result: Option<ApplyResult>)
      requires Valid()
      modifies this`handlers, this`configCommands, registry
      ensures Valid()
      ensures result.Some? <==> ConfigStep(old(View()), commands).Some?
      ensures View() == if result.Some? then ConfigStep(old(View()), commands).value else old(View())
      ensures result.Some? ==>
                && Counts(result.value)
                && Listing(result.value.added, Added(old(handlers), registry.data.table.entries.Keys))
                && Listing(result.value.removed, Removed(old(handlers), registry.data.table.entries))
    {
      ghost var s := View();
      if !registry.enabled {
        return None;
      }
      var profiles := LoadProfiles(commands);
      if profiles.None? {
        return None;
      }
      var ok := SwapConfig(profiles.value);
      ConfigKeepsInv(s, commands);
      var live := registry.data.keys;
      assert Elements(live) == registry.data.table.entries.Keys;
      var storeKeys, others := SplitKeys();
      var added, removed := SyncHandlers(live);
      configCommands := commands;
      assert View() == ConfigStep(s, commands).value;
      result := Some(ApplyResult(|storeKeys|, others, |registry.data.table.degraded|, added, removed));
    }
  }
}
