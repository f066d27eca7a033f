/** The two-source profile registry (executor/registry.go): whole-table replacement of one source's part. */
module Registries {
  import opened Jobs
  import opened Ordering

  const EXEC := "exec."

  function HandlerKey(name: string): string {
    EXEC + name
  }

  predicate IsExecKey(key: string) {
    EXEC <= key
  }

  lemma HandlerKeyInjective(a: string, b: string)
    requires HandlerKey(a) == HandlerKey(b)
    ensures a == b
  {
    assert HandlerKey(a)[|EXEC|..] == a && HandlerKey(b)[|EXEC|..] == b;
  }

  /** A validated profile with its handler key; `body` stands for everything else. */
  datatype Profile = Profile(name: string, key: string, body: int)
  {
    predicate Keyed() {
      key == HandlerKey(name)
    }
  }

  datatype Source = FromConfig | FromStore | FromAdhoc

  datatype Entry = Entry(profile: Profile, source: Source)

  datatype Reason = DeclaredInConfig | AddedByReload | Given(text: string)

  /** A profile that is shown but has no handler, because a config profile holds its key. */
  datatype DegradedProfile = DegradedProfile(profile: Profile, reason: Reason)

  /** One profile of the store, with the caller's mark that a config profile holds its key. */
  datatype StoreEntry = StoreEntry(profile: Profile, degraded: bool, reason: Option<string>)

  datatype Table = Table(entries: map<string, Entry>, degraded: seq<DegradedProfile>)

  // ---------- What a replacement yields ----------

  function Without(entries: map<string, Entry>, source: Source): map<string, Entry> {
    map k | k in entries && entries[k].source != source :: entries[k]
  }

  predicate HeldByConfig(base: map<string, Entry>, key: string) {
    key in base && base[key].source == FromConfig
  }

  ghost predicate DistinctKeys(profiles: seq<Profile>) {
    forall i, j :: 0 <= i < j < |profiles| ==> profiles[i].key != profiles[j].key
  }

  function ProfilesOf(items: seq<StoreEntry>): (r: seq<Profile>)
    ensures |r| == |items| && forall i :: 0 <= i < |r| ==> r[i] == items[i].profile
  {
    seq(|items|, i requires 0 <= i < |items| => items[i].profile)
  }

  ghost predicate StoreRefused(entries: map<string, Entry>, items: seq<StoreEntry>) {
    || !DistinctKeys(ProfilesOf(items))
    || exists i :: 0 <= i < |items| && HeldByConfig(entries, items[i].profile.key) && !items[i].degraded
  }

  /** The base with a batch laid over it; a config entry of the base stands where the batch gives way. */
  ghost function Overlaid(base: map<string, Entry>, batch: seq<Profile>, source: Source): map<string, Entry> {
    if batch == [] then base
    else
      var rest, last := Overlaid(base, batch[..|batch| - 1], source), batch[|batch| - 1];
      if source == FromStore && HeldByConfig(base, last.key) then rest else rest[last.key := Entry(last, source)]
  }

  function ReasonOf(item: StoreEntry): Reason {
    if item.reason.Some? && item.reason.value != "" then Given(item.reason.value) else DeclaredInConfig
  }

  ghost function Clashing(base: map<string, Entry>, items: seq<StoreEntry>): seq<DegradedProfile> {
    if items == [] then []
    else
      var rest, last := Clashing(base, items[..|items| - 1]), items[|items| - 1];
      if HeldByConfig(base, last.profile.key) then rest + [DegradedProfile(last.profile, ReasonOf(last))] else rest
  }

  ghost function StoreApplied(t: Table, items: seq<StoreEntry>): Table {
    var base := Without(t.entries, FromStore);
    Table(Overlaid(base, ProfilesOf(items), FromStore), Clashing(base, items))
  }

  ghost function KeysOf(profiles: seq<Profile>): set<string> {
    set p | p in profiles :: p.key
  }

  /** The degraded profiles that a config profile of the new batch still holds down. */
  ghost function StillHeld(degraded: seq<DegradedProfile>, held: set<string>): seq<DegradedProfile> {
    if degraded == [] then []
    else
      var rest, last := StillHeld(degraded[..|degraded| - 1], held), degraded[|degraded| - 1];
      if last.profile.key in held then rest + [last] else rest
  }

  ghost function Displaced(base: map<string, Entry>, batch: seq<Profile>): seq<DegradedProfile> {
    if batch == [] then []
    else
      var rest, last := Displaced(base, batch[..|batch| - 1]), batch[|batch| - 1];
      if last.key in base then rest + [DegradedProfile(base[last.key].profile, AddedByReload)] else rest
  }

  ghost function ConfigApplied(t: Table, batch: seq<Profile>): Table {
    var base := Without(t.entries, FromConfig);
    Table(Overlaid(base, batch, FromConfig), StillHeld(t.degraded, KeysOf(batch)) + Displaced(base, batch))
  }

  // ---------- Meaning of the overlay ----------

  lemma LastApart(batch: seq<Profile>)
    requires batch != [] && DistinctKeys(batch)
    ensures var front, last := batch[..|batch| - 1], batch[|batch| - 1];
      && DistinctKeys(front) && last.key !in KeysOf(front) && KeysOf(batch) == KeysOf(front) + {last.key}
      && forall p :: p in batch <==> p in front || p == last
  {
    var front, last := batch[..|batch| - 1], batch[|batch| - 1];
    assert batch == front + [last];
    forall i | 0 <= i < |front| ensures front[i].key != last.key { assert batch[i].key != batch[|batch| - 1].key; }
    forall k ensures k in KeysOf(batch) <==> k in KeysOf(front) + {last.key} {}
  }

  /** Entry by entry: a key of the batch is taken by the batch unless a config entry holds it against
      the store; every other key is as in the base. */
  lemma {:induction false} OverlaidAt(base: map<string, Entry>, batch: seq<Profile>, source: Source, k: string)
    requires DistinctKeys(batch) && source != FromAdhoc
    ensures k in Overlaid(base, batch, source) <==> k in base || k in KeysOf(batch)
    ensures k in Overlaid(base, batch, source) ==>
              var e := Overlaid(base, batch, source)[k];
              if k in KeysOf(batch) && !(source == FromStore && HeldByConfig(base, k))
              then e.source == source && e.profile in batch && e.profile.key == k
              else k in base && e == base[k]
    decreases |batch|
  {
    if batch != [] {
      LastApart(batch);
      OverlaidAt(base, batch[..|batch| - 1], source, k);
    }
  }

  /** A profile of a batch is the only one with its key. */
  lemma OneOfKey(batch: seq<Profile>, p: Profile, q: Profile)
    requires DistinctKeys(batch) && p in batch && q in batch && p.key == q.key
    ensures p == q
  {}

  /** Two bases that agree outside the batch, and hold the same keys against the store, give the same table. */
  lemma SameOverlay(base: map<string, Entry>, base': map<string, Entry>, batch: seq<Profile>, source: Source)
    requires DistinctKeys(batch) && source != FromAdhoc
    requires forall k :: k !in KeysOf(batch) || (source == FromStore && HeldByConfig(base, k)) ==>
                         (k in base <==> k in base') && (k in base ==> base[k] == base'[k])
    requires source == FromStore ==> forall k :: HeldByConfig(base, k) <==> HeldByConfig(base', k)
    ensures Overlaid(base, batch, source) == Overlaid(base', batch, source)
  {
    var a, b := Overlaid(base, batch, source), Overlaid(base', batch, source);
    forall k ensures k in a <==> k in b
      ensures k in a ==> a[k] == b[k]
    {
      OverlaidAt(base, batch, source, k);
      OverlaidAt(base', batch, source, k);
      if k in a && k in KeysOf(batch) && !(source == FromStore && HeldByConfig(base, k)) {
        OneOfKey(batch, a[k].profile, b[k].profile);
      }
    }
    assert a.Keys == b.Keys;
  }

  lemma {:induction false} ClashingIs(base: map<string, Entry>, items: seq<StoreEntry>)
    requires DistinctKeys(ProfilesOf(items))
    ensures var ds := Clashing(base, items);
      && (forall d :: d in ds ==> HeldByConfig(base, d.profile.key) && d.profile in ProfilesOf(items))
      && (forall p :: p in ProfilesOf(items) && HeldByConfig(base, p.key) ==> exists d :: d in ds && d.profile == p)
      && (forall i, j :: 0 <= i < j < |ds| ==> ds[i].profile.key != ds[j].profile.key)
    decreases |items|
  {
    if items != [] {
      var front := items[..|items| - 1];
      LastApart(ProfilesOf(items));
      assert ProfilesOf(front) == ProfilesOf(items)[..|items| - 1];
      ClashingIs(base, front);
      forall d | d in Clashing(base, front) ensures d.profile.key != items[|items| - 1].profile.key {
        assert d.profile.key in KeysOf(ProfilesOf(front));
      }
      var last := items[|items| - 1].profile;
      forall p | p in ProfilesOf(items) && HeldByConfig(base, p.key)
        ensures exists d :: d in Clashing(base, items) && d.profile == p
      {
        if p in ProfilesOf(front) {
          var d :| d in Clashing(base, front) && d.profile == p;
          assert d in Clashing(base, items);
        } else {
          assert DegradedProfile(last, ReasonOf(items[|items| - 1])) in Clashing(base, items);
        }
      }
    }
  }

  lemma {:induction false} SameClashing(base: map<string, Entry>, base': map<string, Entry>, items: seq<StoreEntry>)
    requires forall k :: HeldByConfig(base, k) <==> HeldByConfig(base', k)
    ensures Clashing(base, items) == Clashing(base', items)
    decreases |items|
  {
    if items != [] { SameClashing(base, base', items[..|items| - 1]); }
  }

  lemma {:induction false} DisplacedIs(base: map<string, Entry>, batch: seq<Profile>)
    requires DistinctKeys(batch) && forall k :: k in base ==> base[k].profile.key == k
    ensures var ds := Displaced(base, batch);
      && (forall d :: d in ds ==> d.profile.key in base && d.profile.key in KeysOf(batch))
      && (forall k :: k in base && k in KeysOf(batch) ==> exists d :: d in ds && d.profile == base[k].profile)
      && ((forall k :: k in KeysOf(batch) ==> k !in base) ==> ds == [])
      && (forall i, j :: 0 <= i < j < |ds| ==> ds[i].profile.key != ds[j].profile.key)
    decreases |batch|
  {
    if batch != [] {
      LastApart(batch);
      var front, last := batch[..|batch| - 1], batch[|batch| - 1];
      DisplacedIs(base, front);
      forall k | k in base && k in KeysOf(batch)
        ensures exists d :: d in Displaced(base, batch) && d.profile == base[k].profile
    {
        if k in KeysOf(front) {
          var d :| d in Displaced(base, front) && d.profile == base[k].profile;
          assert d in Displaced(base, batch);
        } else {
          assert DegradedProfile(base[k].profile, AddedByReload) in Displaced(base, batch);
        }
      }
    }
  }

  lemma {:induction false} StillHeldAre(degraded: seq<DegradedProfile>, held: set<string>)
    ensures var ds := StillHeld(degraded, held);
      && (forall d :: d in ds <==> d in degraded && d.profile.key in held)
      && ((forall d :: d in degraded ==> d.profile.key in held) ==> ds == degraded)
    decreases |degraded|
  {
    if degraded != [] {
      var front, last := degraded[..|degraded| - 1], degraded[|degraded| - 1];
      assert degraded == front + [last];
      StillHeldAre(front, held);
    }
  }

  lemma {:induction false} StillHeldIs(degraded: seq<DegradedProfile>, held: set<string>)
    requires forall i, j :: 0 <= i < j < |degraded| ==> degraded[i].profile.key != degraded[j].profile.key
    ensures var ds := StillHeld(degraded, held);
      && (forall d :: d in ds <==> d in degraded && d.profile.key in held)
      && (forall i, j :: 0 <= i < j < |ds| ==> ds[i].profile.key != ds[j].profile.key)
      && ((forall d :: d in degraded ==> d.profile.key in held) ==> ds == degraded)
    decreases |degraded|
  {
    StillHeldAre(degraded, held);
    if degraded != [] {
      var front, last := degraded[..|degraded| - 1], degraded[|degraded| - 1];
      StillHeldAre(front, held);
      StillHeldIs(front, held);
      forall d | d in front ensures d.profile.key != last.profile.key {}
    }
  }

  // ---------- The invariant of the table ----------

  /** Keys and entries agree, and every degraded profile is held down by a live config profile, once. */
  ghost predicate TableOk(t: Table) {
    && (forall k :: k in t.entries ==> t.entries[k].profile.key == k)
    && (forall d :: d in t.degraded ==> HeldByConfig(t.entries, d.profile.key))
    && (forall i, j :: 0 <= i < j < |t.degraded| ==> t.degraded[i].profile.key != t.degraded[j].profile.key)
  }

  lemma StoreKeepsTable(t: Table, items: seq<StoreEntry>)
    requires TableOk(t) && !StoreRefused(t.entries, items)
    ensures TableOk(StoreApplied(t, items))
  {
    var base, batch := Without(t.entries, FromStore), ProfilesOf(items);
    var u := StoreApplied(t, items);
    forall k | k in u.entries ensures u.entries[k].profile.key == k { OverlaidAt(base, batch, FromStore, k); }
    ClashingIs(base, items);
    forall d | d in u.degraded ensures HeldByConfig(u.entries, d.profile.key) {
      OverlaidAt(base, batch, FromStore, d.profile.key);
    }
  }

  lemma ConfigKeepsTable(t: Table, batch: seq<Profile>)
    requires TableOk(t) && DistinctKeys(batch)
    ensures TableOk(ConfigApplied(t, batch))
  {
    var base := Without(t.entries, FromConfig);
    var u := ConfigApplied(t, batch);
    forall k | k in u.entries ensures u.entries[k].profile.key == k { OverlaidAt(base, batch, FromConfig, k); }
    DisplacedIs(base, batch);
    StillHeldIs(t.degraded, KeysOf(batch));
    forall d | d in u.degraded ensures HeldByConfig(u.entries, d.profile.key) {
      OverlaidAt(base, batch, FromConfig, d.profile.key);
    }
    // What was already degraded is held by a config entry, so it is not in the base.
    forall d, e | d in StillHeld(t.degraded, KeysOf(batch)) && e in Displaced(base, batch)
      ensures d.profile.key != e.profile.key
    {
      assert HeldByConfig(t.entries, d.profile.key) && e.profile.key in base;
    }
  }

  // ---------- Repeating and undoing ----------

  /** Laying the same batch over the table again changes nothing, for either source. */
  lemma StoreTwice(t: Table, items: seq<StoreEntry>)
    requires TableOk(t) && !StoreRefused(t.entries, items)
    ensures var u := StoreApplied(t, items); StoreApplied(u, items) == u
  {
    var base, batch := Without(t.entries, FromStore), ProfilesOf(items);
    var u := StoreApplied(t, items);
    var base' := Without(u.entries, FromStore);
    forall k
      ensures k !in KeysOf(batch) || HeldByConfig(base, k) ==>
              (k in base <==> k in base') && (k in base ==> base[k] == base'[k])
      ensures HeldByConfig(base, k) <==> HeldByConfig(base', k)
    {
      OverlaidAt(base, batch, FromStore, k);
    }
    SameOverlay(base, base', batch, FromStore);
    SameClashing(base, base', items);
  }

  lemma ConfigTwice(t: Table, batch: seq<Profile>)
    requires TableOk(t) && DistinctKeys(batch)
    ensures var u := ConfigApplied(t, batch); ConfigApplied(u, batch) == u
  {
    var base := Without(t.entries, FromConfig);
    var u := ConfigApplied(t, batch);
    var base' := Without(u.entries, FromConfig);
    forall k
      ensures k !in KeysOf(batch) ==> (k in base <==> k in base') && (k in base ==> base[k] == base'[k])
      ensures k in KeysOf(batch) ==> k !in base'
    {
      OverlaidAt(base, batch, FromConfig, k);
    }
    SameOverlay(base, base', batch, FromConfig);
    DisplacedIs(base, batch);
    StillHeldIs(t.degraded, KeysOf(batch));
    ConfigKeepsTable(t, batch);
    StillHeldIs(u.degraded, KeysOf(batch));
    DisplacedIs(base', batch);
  }

  /** Applying the old config profiles after the new ones brings the live table back exactly when the
      new ones displaced no entry of another source: the displaced entry does not come back. */
  lemma ConfigUndoIff(t: Table, before: seq<Profile>, after: seq<Profile>)
    requires TableOk(t) && DistinctKeys(before) && DistinctKeys(after)
    requires forall k :: HeldByConfig(t.entries, k) <==> k in KeysOf(before)
    requires forall k :: HeldByConfig(t.entries, k) ==> t.entries[k].profile in before
    ensures ConfigApplied(ConfigApplied(t, after), before).entries == t.entries <==>
            forall k :: k in KeysOf(after) && k in t.entries ==> t.entries[k].source == FromConfig
  {
    var base := Without(t.entries, FromConfig);
    var u := ConfigApplied(t, after);
    var base' := Without(u.entries, FromConfig);
    var v := ConfigApplied(u, before);
    forall k
      ensures k in base' <==> k in base && k !in KeysOf(after)
      ensures k in base' ==> base'[k] == base[k]
    {
      OverlaidAt(base, after, FromConfig, k);
    }
    forall k
      ensures k in v.entries <==> k in base' || k in KeysOf(before)
      ensures k in v.entries && k in t.entries ==> v.entries[k] == t.entries[k]
    {
      OverlaidAt(base', before, FromConfig, k);
      if k in KeysOf(before) { OneOfKey(before, v.entries[k].profile, t.entries[k].profile); }
    }
    if forall k :: k in KeysOf(after) && k in t.entries ==> t.entries[k].source == FromConfig {
      forall k ensures k in v.entries <==> k in t.entries {
        assert k in base ==> k !in KeysOf(after);
      }
      assert v.entries.Keys == t.entries.Keys;
    }
  }

  /** A store profile, displaced by a config profile of the same name, is gone after the config is undone. */
  lemma DisplacedIsNotUndone(p: Profile, q: Profile)
    requires p.key == q.key
    ensures var t := Table(map[p.key := Entry(p, FromStore)], []);
      TableOk(t) && ConfigApplied(ConfigApplied(t, [q]), []).entries == map[]
  {
    var t := Table(map[p.key := Entry(p, FromStore)], []);
    var base := Without(t.entries, FromConfig);
    assert base == t.entries;
    assert [q][..0] == [];
    assert Overlaid(base, [q], FromConfig) == map[q.key := Entry(q, FromConfig)];
    assert Without(map[q.key := Entry(q, FromConfig)], FromConfig) == map[];
  }

  /** A built-in profile that has given way to another one never returns while the process runs. */
  lemma AdhocNeverReturns(t: Table, items: seq<StoreEntry>, batch: seq<Profile>, k: string)
    requires DistinctKeys(ProfilesOf(items)) && DistinctKeys(batch)
    requires !(k in t.entries && t.entries[k].source == FromAdhoc)
    ensures var u := StoreApplied(t, items).entries; !(k in u && u[k].source == FromAdhoc)
    ensures var u := ConfigApplied(t, batch).entries; !(k in u && u[k].source == FromAdhoc)
  {
    OverlaidAt(Without(t.entries, FromStore), ProfilesOf(items), FromStore, k);
    OverlaidAt(Without(t.entries, FromConfig), batch, FromConfig, k);
  }

  // ---------- What a batch means for the table ----------

  /** Config entries stay; the batch takes its other keys; of what is left, store entries go and built-in
      ones stay. A profile of the batch that a config entry holds down is listed as degraded. */
  ghost predicate StoreTook(before: Table, after: Table, items: seq<StoreEntry>) {
    && (forall k :: k in before.entries && before.entries[k].source == FromConfig ==>
          k in after.entries && after.entries[k] == before.entries[k])
    && (forall i :: 0 <= i < |items| ==>
          var k := items[i].profile.key;
          k in after.entries
          && (!(k in before.entries && before.entries[k].source == FromConfig) ==>
                after.entries[k] == Entry(items[i].profile, FromStore)))
    && (forall k :: (forall i :: 0 <= i < |items| ==> items[i].profile.key != k) ==>
          (k in after.entries <==> k in before.entries && before.entries[k].source != FromStore)
          && (k in after.entries ==> after.entries[k] == before.entries[k]))
    && (forall d :: d in after.degraded <==> exists i :: 0 <= i < |items| && HeldDown(before, items[i], d))
  }

  predicate HeldDown(before: Table, item: StoreEntry, d: DegradedProfile) {
    var k := item.profile.key;
    && k in before.entries && before.entries[k].source == FromConfig && d.profile == item.profile
    && d.reason == if item.reason.Some? && item.reason.value != "" then Given(item.reason.value) else DeclaredInConfig
  }

  lemma {:induction false} ClashingAre(base: map<string, Entry>, items: seq<StoreEntry>, d: DegradedProfile)
    ensures d in Clashing(base, items) <==>
            exists i :: 0 <= i < |items| && HeldByConfig(base, items[i].profile.key)
                        && d == DegradedProfile(items[i].profile, ReasonOf(items[i]))
    decreases |items|
  {
    if items != [] {
      var front, last := items[..|items| - 1], items[|items| - 1];
      assert items == front + [last];
      ClashingAre(base, front, d);
      if HeldByConfig(base, last.profile.key) && d == DegradedProfile(last.profile, ReasonOf(last)) {
        assert items[|items| - 1] == last;
      }
      if i :| 0 <= i < |front| && HeldByConfig(base, front[i].profile.key)
              && d == DegradedProfile(front[i].profile, ReasonOf(front[i])) {
        assert items[i] == front[i];
      }
    }
  }

  lemma StoreDegrades(t: Table, items: seq<StoreEntry>, d: DegradedProfile)
    ensures d in StoreApplied(t, items).degraded <==> exists i :: 0 <= i < |items| && HeldDown(t, items[i], d)
  {
    var base := Without(t.entries, FromStore);
    ClashingAre(base, items, d);
    forall i | 0 <= i < |items|
      ensures HeldDown(t, items[i], d) <==>
              HeldByConfig(base, items[i].profile.key) && d == DegradedProfile(items[i].profile, ReasonOf(items[i]))
    {}
  }

  lemma StoreTakes(t: Table, items: seq<StoreEntry>)
    requires TableOk(t) && !StoreRefused(t.entries, items)
    ensures StoreTook(t, StoreApplied(t, items), items)
  {
    var base, batch, u := Without(t.entries, FromStore), ProfilesOf(items), StoreApplied(t, items);
    forall k | HeldByConfig(t.entries, k) ensures k in u.entries && u.entries[k] == t.entries[k] {
      OverlaidAt(base, batch, FromStore, k);
    }
    forall i | 0 <= i < |items|
      ensures var k := items[i].profile.key;
        k in u.entries && (!HeldByConfig(t.entries, k) ==> u.entries[k] == Entry(items[i].profile, FromStore))
    {
      assert batch[i] in batch;
      OverlaidAt(base, batch, FromStore, batch[i].key);
      if !HeldByConfig(t.entries, batch[i].key) { OneOfKey(batch, batch[i], u.entries[batch[i].key].profile); }
    }
    forall k | forall i :: 0 <= i < |items| ==> items[i].profile.key != k
      ensures k in u.entries <==> k in t.entries && t.entries[k].source != FromStore
      ensures k in u.entries ==> u.entries[k] == t.entries[k]
    {
      OverlaidAt(base, batch, FromStore, k);
      assert k !in KeysOf(batch);
    }
    forall d ensures d in u.degraded <==> exists i :: 0 <= i < |items| && HeldDown(t, items[i], d) {
      StoreDegrades(t, items, d);
    }
  }

  /** The batch takes its keys, whoever held them; of the others, config entries go and the rest stays. A
      degraded profile stays degraded while the batch holds its key, and what the batch displaces becomes so. */
  ghost predicate ConfigTook(before: Table, after: Table, batch: seq<Profile>) {
    && (forall i :: 0 <= i < |batch| ==>
          batch[i].key in after.entries && after.entries[batch[i].key] == Entry(batch[i], FromConfig))
    && (forall k :: (forall i :: 0 <= i < |batch| ==> batch[i].key != k) ==>
          (k in after.entries <==> k in before.entries && before.entries[k].source != FromConfig)
          && (k in after.entries ==> after.entries[k] == before.entries[k]))
    && (forall d :: d in after.degraded <==>
          && (exists i :: 0 <= i < |batch| && batch[i].key == d.profile.key)
          && (d in before.degraded || GivesWay(before, d)))
  }

  predicate GivesWay(before: Table, d: DegradedProfile) {
    var k := d.profile.key;
    d.reason == AddedByReload && k in before.entries && before.entries[k].source != FromConfig
    && before.entries[k].profile == d.profile
  }

  lemma {:induction false} DisplacedAre(base: map<string, Entry>, batch: seq<Profile>, d: DegradedProfile)
    requires forall k :: k in base ==> base[k].profile.key == k
    ensures d in Displaced(base, batch) <==>
            && (exists i :: 0 <= i < |batch| && batch[i].key == d.profile.key)
            && d.profile.key in base && d == DegradedProfile(base[d.profile.key].profile, AddedByReload)
    decreases |batch|
  {
    if batch != [] {
      var front, last := batch[..|batch| - 1], batch[|batch| - 1];
      assert batch == front + [last];
      DisplacedAre(base, front, d);
      if last.key == d.profile.key { assert batch[|batch| - 1].key == d.profile.key; }
      if i :| 0 <= i < |front| && front[i].key == d.profile.key { assert batch[i] == front[i]; }
    }
  }

  lemma ConfigDegrades(t: Table, batch: seq<Profile>, d: DegradedProfile)
    requires TableOk(t)
    ensures d in ConfigApplied(t, batch).degraded <==>
            && (exists i :: 0 <= i < |batch| && batch[i].key == d.profile.key)
            && (d in t.degraded || GivesWay(t, d))
  {
    DisplacedAre(Without(t.entries, FromConfig), batch, d);
    StillHeldAre(t.degraded, KeysOf(batch));
    if i :| 0 <= i < |batch| && batch[i].key == d.profile.key { assert batch[i] in batch; }
  }

  lemma ConfigTakes(t: Table, batch: seq<Profile>)
    requires TableOk(t) && DistinctKeys(batch)
    ensures ConfigTook(t, ConfigApplied(t, batch), batch)
  {
    var base, u := Without(t.entries, FromConfig), ConfigApplied(t, batch);
    forall i | 0 <= i < |batch|
      ensures batch[i].key in u.entries && u.entries[batch[i].key] == Entry(batch[i], FromConfig)
    {
      assert batch[i] in batch;
      OverlaidAt(base, batch, FromConfig, batch[i].key);
      OneOfKey(batch, batch[i], u.entries[batch[i].key].profile);
    }
    forall k | forall i :: 0 <= i < |batch| ==> batch[i].key != k
      ensures k in u.entries <==> k in t.entries && t.entries[k].source != FromConfig
      ensures k in u.entries ==> u.entries[k] == t.entries[k]
    {
      OverlaidAt(base, batch, FromConfig, k);
      assert k !in KeysOf(batch);
    }
    forall d
      ensures d in u.degraded <==>
              && (exists i :: 0 <= i < |batch| && batch[i].key == d.profile.key)
              && (d in t.degraded || GivesWay(t, d))
    {
      ConfigDegrades(t, batch, d);
    }
  }

  // ---------- The registry itself ----------

  /** A row of the listing. */
  datatype Listed = Listed(profile: Profile, source: Source, degraded: bool, editable: bool)

  predicate ListedBefore(a: Listed, b: Listed) {
    Before(a.profile.key, b.profile.key) || (a.profile.key == b.profile.key && !a.degraded && b.degraded)
  }

  function LiveRows(t: Table, web: bool): set<Listed> {
    set k | k in t.entries ::
      Listed(t.entries[k].profile, t.entries[k].source, false, web && t.entries[k].source == FromStore)
  }

  function DegradedRows(t: Table): set<Listed> {
    set d | d in t.degraded :: Listed(d.profile, FromStore, true, false)
  }

  lemma RowsAreOrdered(t: Table, web: bool)
    requires TableOk(t)
    ensures StrictTotal(ListedBefore, LiveRows(t, web) + DegradedRows(t))
  {
    var rows := LiveRows(t, web) + DegradedRows(t);
    StringsStrictTotal(set r | r in rows :: r.profile.key);
    forall a, b | a in rows && b in rows && a.profile.key == b.profile.key && a.degraded == b.degraded ensures a == b {
      if a.degraded {
        var i :| 0 <= i < |t.degraded| && t.degraded[i].profile == a.profile;
        var j :| 0 <= j < |t.degraded| && t.degraded[j].profile == b.profile;
        assert i == j;
      }
    }
    forall a, b | a in rows && b in rows && a != b ensures ListedBefore(a, b) || ListedBefore(b, a) {
      assert a.profile.key in (set r | r in rows :: r.profile.key);
      assert b.profile.key in (set r | r in rows :: r.profile.key);
    }
    forall a, b, c | a in rows && b in rows && c in rows && ListedBefore(a, b) && ListedBefore(b, c)
      ensures ListedBefore(a, c)
    {
      BeforeChain(a.profile.key, b.profile.key, c.profile.key);
    }
    forall a | a in rows ensures !ListedBefore(a, a) { BeforeIrreflexive(a.profile.key); }
  }

  lemma BeforeChain(a: string, b: string, c: string)
    ensures Before(a, b) && Before(b, c) ==> Before(a, c)
  {
    if Before(a, b) && Before(b, c) { BeforeTransitive(a, b, c); }
  }

  /** What the loop over a store batch has computed after i items. */
  ghost predicate MergedUpTo(entries: map<string, Entry>, items: seq<StoreEntry>, i: nat, merged: map<string, Entry>,
                             degraded: seq<DegradedProfile>, seen: set<string>)
    requires i <= |items|
  {
    var base, front := Without(entries, FromStore), ProfilesOf(items)[..i];
    && merged == Overlaid(base, front, FromStore) && degraded == Clashing(base, items[..i])
    && seen == KeysOf(front) && DistinctKeys(front) && !StoreRefused(entries, items[..i])
  }

  predicate Clashes(merged: map<string, Entry>, key: string) {
    key in merged && merged[key].source != FromAdhoc
  }

  lemma MergeRefusal(entries: map<string, Entry>, items: seq<StoreEntry>, i: nat, merged: map<string, Entry>,
                     degraded: seq<DegradedProfile>, seen: set<string>)
    requires i < |items| && MergedUpTo(entries, items, i, merged, degraded, seen)
    requires var key := items[i].profile.key; key in seen || (Clashes(merged, key) && !items[i].degraded)
    ensures StoreRefused(entries, items)
  {
    StoreNext(entries, items, i);
    if items[i].profile.key !in seen { StoreItem(entries, items, i); }
  }

  lemma MergeNext(entries: map<string, Entry>, items: seq<StoreEntry>, i: nat, merged: map<string, Entry>,
                  degraded: seq<DegradedProfile>, seen: set<string>)
    requires i < |items| && MergedUpTo(entries, items, i, merged, degraded, seen)
    requires var key := items[i].profile.key; key !in seen && (Clashes(merged, key) ==> items[i].degraded)
    ensures var key, profile := items[i].profile.key, items[i].profile;
      if Clashes(merged, key) then
        var longer := degraded + [DegradedProfile(profile, ReasonOf(items[i]))];
        MergedUpTo(entries, items, i + 1, merged, longer, seen + {key})
      else
        MergedUpTo(entries, items, i + 1, merged[key := Entry(profile, FromStore)], degraded, seen + {key})
  {
    StoreNext(entries, items, i);
    StoreItem(entries, items, i);
  }

  lemma MergeStarts(entries: map<string, Entry>, items: seq<StoreEntry>)
    ensures MergedUpTo(entries, items, 0, Without(entries, FromStore), [], {})
  {}

  /** Lays the batch over the other sources' entries, one item after the other. */
  method MergeStore(entries: map<string, Entry>, items: seq<StoreEntry>)
    returns (ok: bool, merged: map<string, Entry>, degraded: seq<DegradedProfile>)
    ensures ok <==> !StoreRefused(entries, items)
    ensures ok ==> merged == Overlaid(Without(entries, FromStore), ProfilesOf(items), FromStore)
    ensures ok ==> degraded == Clashing(Without(entries, FromStore), items)
  {
    ok, merged, degraded := true, Without(entries, FromStore), [];
    var seen: set<string> := {};
    MergeStarts(entries, items);
    for i := 0 to |items|
      invariant ok && MergedUpTo(entries, items, i, merged, degraded, seen)
    {
      var item := items[i];
      var key := item.profile.key;
      if key in seen || (Clashes(merged, key) && !item.degraded) {
        MergeRefusal(entries, items, i, merged, degraded, seen);
        return false, merged, degraded;
      }
      MergeNext(entries, items, i, merged, degraded, seen);
      seen := seen + {key};
      if Clashes(merged, key) {
        degraded := degraded + [DegradedProfile(item.profile, ReasonOf(item))];
      } else {
        merged := merged[key := Entry(item.profile, FromStore)];
      }
    }
    assert items[..|items|] == items && ProfilesOf(items)[..|items|] == ProfilesOf(items);
  }

  // ---------- The table at startup ----------

  /** A built-in profile gives way to whatever holds its key. */
  ghost function Yielding(base: map<string, Entry>, builtin: seq<Profile>): map<string, Entry> {
    if builtin == [] then base
    else
      var rest, last := Yielding(base, builtin[..|builtin| - 1]), builtin[|builtin| - 1];
      if last.key in rest then rest else rest[last.key := Entry(last, FromAdhoc)]
  }

  ghost function StartTable(enabled: bool, declared: seq<Profile>, builtin: seq<Profile>): Table {
    Table(if enabled then Yielding(Overlaid(map[], declared, FromConfig), builtin) else map[], [])
  }

  lemma {:induction false} YieldingAt(base: map<string, Entry>, builtin: seq<Profile>, k: string)
    ensures var r := Yielding(base, builtin);
      && (k in r <==> k in base || k in KeysOf(builtin))
      && (k in r ==> if k in base then r[k] == base[k]
                     else r[k].source == FromAdhoc && r[k].profile in builtin && r[k].profile.key == k)
  {
    if builtin != [] {
      var front, last := builtin[..|builtin| - 1], builtin[|builtin| - 1];
      assert builtin == front + [last];
      assert k in KeysOf(builtin) <==> k in KeysOf(front) || k == last.key;
      YieldingAt(base, front, k);
    }
  }

  /** Exactly the declared and the built-in keys; where both claim one, the declared profile has it. */
  lemma StartTableAt(declared: seq<Profile>, builtin: seq<Profile>, k: string)
    requires DistinctKeys(declared)
    ensures var entries := StartTable(true, declared, builtin).entries;
      && (k in entries <==> k in KeysOf(declared) || k in KeysOf(builtin))
      && (k in entries ==>
            && (entries[k].source == if k in KeysOf(declared) then FromConfig else FromAdhoc)
            && entries[k].profile.key == k
            && entries[k].profile in if k in KeysOf(declared) then declared else builtin)
  {
    OverlaidAt(map[], declared, FromConfig, k);
    YieldingAt(Overlaid(map[], declared, FromConfig), builtin, k);
  }

  lemma {:induction false} OverlaidKeys(batch: seq<Profile>)
    ensures forall k :: k in Overlaid(map[], batch, FromConfig) ==>
            Overlaid(map[], batch, FromConfig)[k].profile.key == k
  {
    if batch != [] { OverlaidKeys(batch[..|batch| - 1]); }
  }

  lemma StartTableOk(enabled: bool, declared: seq<Profile>, builtin: seq<Profile>)
    ensures TableOk(StartTable(enabled, declared, builtin))
  {
    OverlaidKeys(declared);
    var base := Overlaid(map[], declared, FromConfig);
    forall k | k in Yielding(base, builtin) ensures Yielding(base, builtin)[k].profile.key == k {
      YieldingAt(base, builtin, k);
    }
  }

  method LayFirst(declared: seq<Profile>, builtin: seq<Profile>) returns (entries: map<string, Entry>)
    ensures entries == StartTable(true, declared, builtin).entries
  {
    entries := map[];
    for i := 0 to |declared|
      invariant entries == Overlaid(map[], declared[..i], FromConfig)
    {
      assert declared[..i + 1][..i] == declared[..i];
      entries := entries[declared[i].key := Entry(declared[i], FromConfig)];
    }
    ghost var base := entries;
    assert declared[..|declared|] == declared;
    for i := 0 to |builtin|
      invariant entries == Yielding(base, builtin[..i])
    {
      assert builtin[..i + 1][..i] == builtin[..i];
      if builtin[i].key !in entries {
        entries := entries[builtin[i].key := Entry(builtin[i], FromAdhoc)];
      }
    }
    assert builtin[..|builtin|] == builtin;
  }

  /** An immutable table with its keys in order, replaced as a whole. */
  datatype Snapshot = Snapshot(table: Table, keys: seq<string>)
  {
    ghost predicate Ordered() {
      SortedBy(Before, keys) && forall k :: k in keys <==> k in table.entries
    }
  }

  class Registry {
    const enabled: bool
    const webEnabled: bool
    var data: Snapshot

    ghost predicate Valid()
      reads this
    {
      data.Ordered() && TableOk(data.table)
    }

    /** The table at startup: config profiles, then the built-in ones whose keys are free; empty when disabled. */
    constructor (enabled: bool, webEnabled: bool, declared: seq<Profile>, builtin: seq<Profile>)
      ensures Valid() && this.enabled == enabled && this.webEnabled == webEnabled
      ensures data.table == StartTable(enabled, declared, builtin)
      ensures !enabled ==> data.table.entries == map[]
    {
      this.enabled, this.webEnabled := enabled, webEnabled;
      var entries: map<string, Entry> := map[];
      if enabled {
        entries := LayFirst(declared, builtin);
      }
      StartTableOk(enabled, declared, builtin);
      var keys := SortStrings(entries.Keys);
      data := Snapshot(Table(entries, []), keys);
    }

    /** Replaces the store's part; a refused batch leaves the old table standing. */
    method ApplyStore(items: seq<StoreEntry>) returns (ok: bool)
      requires Valid()
      modifies this`data
      ensures Valid()
      ensures ok <==> enabled && !StoreRefused(old(data).table.entries, items)
      ensures ok ==> data.table == StoreApplied(old(data).table, items)
      ensures ok ==> StoreTook(old(data).table, data.table, items)
      ensures !ok ==> data == old(data)
    {
      if !enabled {
        return false;
      }
      var merged: map<string, Entry>, degraded: seq<DegradedProfile>;
      ok, merged, degraded := MergeStore(data.table.entries, items);
      if !ok {
        return;
      }
      StoreKeepsTable(data.table, items);
      StoreTakes(data.table, items);
      var keys := SortStrings(merged.Keys);
      data := Snapshot(Table(merged, degraded), keys);
    }

    /** Replaces the config part; config wins over a stored profile of the same key, which is degraded. */
    method ApplyConfig(batch: seq<Profile>) returns (ok: bool)
      requires Valid()
      modifies this`data
      ensures Valid()
      ensures ok <==> enabled && DistinctKeys(batch)
      ensures ok ==> data.table == ConfigApplied(old(data).table, batch)
      ensures ok ==> ConfigTook(old(data).table, data.table, batch)
      ensures !ok ==> data == old(data)
    {
      if !enabled {
        return false;
      }
      var batchKeys: set<string> := {};
      for i := 0 to |batch|
        invariant batchKeys == KeysOf(batch[..i]) && DistinctKeys(batch[..i]) && data == old(data)
      {
        ConfigNext(batch, i);
        if batch[i].key in batchKeys {
          return false;
        }
        batchKeys := batchKeys + {batch[i].key};
      }
      assert batch[..|batch|] == batch;
      var degraded := KeepHeld(data.table.degraded, batchKeys);
      var merged, displaced := Overlay(Without(data.table.entries, FromConfig), batch);
      ConfigKeepsTable(data.table, batch);
      ConfigTakes(data.table, batch);
      var keys := SortStrings(merged.Keys);
      data := Snapshot(Table(merged, degraded + displaced), keys);
      ok := true;
    }

    /** All rows in one reading of the table, a degraded profile right after the one that holds its key. */
    method List() returns (rows: seq<Listed>)
      requires Valid()
      ensures SortedBy(ListedBefore, rows)
      ensures forall r :: r in rows <==>
                if r.degraded then
                  r.source == FromStore && !r.editable && exists d :: d in data.table.degraded && d.profile == r.profile
                else
                  && r.profile.key in data.table.entries
                  && data.table.entries[r.profile.key] == Entry(r.profile, r.source)
                  && r.editable == (webEnabled && r.source == FromStore)
    {
      RowsAreOrdered(data.table, webEnabled);
      rows := SortBy(ListedBefore, LiveRows(data.table, webEnabled) + DegradedRows(data.table));
    }
  }

  method KeepHeld(degraded: seq<DegradedProfile>, held: set<string>) returns (kept: seq<DegradedProfile>)
    ensures kept == StillHeld(degraded, held)
  {
    kept := [];
    for i := 0 to |degraded|
      invariant kept == StillHeld(degraded[..i], held)
    {
      assert degraded[..i + 1][..i] == degraded[..i];
      if degraded[i].profile.key in held {
        kept := kept + [degraded[i]];
      }
    }
    assert degraded[..|degraded|] == degraded;
  }

  method Overlay(base: map<string, Entry>, batch: seq<Profile>)
    returns (merged: map<string, Entry>, displaced: seq<DegradedProfile>)
    requires DistinctKeys(batch)
    ensures merged == Overlaid(base, batch, FromConfig) && displaced == Displaced(base, batch)
  {
    merged, displaced := base, [];
    for i := 0 to |batch|
      invariant merged == Overlaid(base, batch[..i], FromConfig) && displaced == Displaced(base, batch[..i])
    {
      var key := batch[i].key;
      ConfigNext(batch, i);
      OverlaidAt(base, batch[..i], FromConfig, key);
      assert batch[..i + 1][..i] == batch[..i];
      if key in merged {
        displaced := displaced + [DegradedProfile(merged[key].profile, AddedByReload)];
      }
      merged := merged[key := Entry(batch[i], FromConfig)];
    }
    assert batch[..|batch|] == batch;
  }

  lemma ConfigNext(batch: seq<Profile>, i: nat)
    requires i < |batch|
    ensures batch[..i + 1] == batch[..i] + [batch[i]]
    ensures KeysOf(batch[..i + 1]) == KeysOf(batch[..i]) + {batch[i].key}
    ensures DistinctKeys(batch[..i + 1]) <==> DistinctKeys(batch[..i]) && batch[i].key !in KeysOf(batch[..i])
    ensures DistinctKeys(batch) ==> DistinctKeys(batch[..i + 1])
  {
    var done, next := batch[..i], batch[..i + 1];
    assert next == done + [batch[i]];
    forall k ensures k in KeysOf(next) <==> k in KeysOf(done) || k == batch[i].key {}
    if DistinctKeys(next) {
      forall p | p in done ensures p.key != batch[i].key {
        var j :| 0 <= j < i && done[j] == p;
        assert next[j].key != next[i].key;
      }
      forall a, b | 0 <= a < b < i ensures done[a].key != done[b].key { assert next[a].key != next[b].key; }
    }
    if DistinctKeys(done) && batch[i].key !in KeysOf(done) {
      forall a, b | 0 <= a < b < |next| ensures next[a].key != next[b].key {
        if b == i { assert done[a] in done; } else { assert done[a].key != done[b].key; }
      }
    }
  }

  /** What the next item of a batch does to the merged table: the clash test on the table being built sees
      exactly the config entries of the base. */
  lemma StoreItem(entries: map<string, Entry>, items: seq<StoreEntry>, i: nat)
    requires i < |items| && DistinctKeys(ProfilesOf(items)[..i])
             && items[i].profile.key !in KeysOf(ProfilesOf(items)[..i])
    ensures var base, key, profiles := Without(entries, FromStore), items[i].profile.key, ProfilesOf(items);
      var merged := Overlaid(base, profiles[..i], FromStore);
      && (key in merged && merged[key].source != FromAdhoc <==> HeldByConfig(base, key))
      && (HeldByConfig(base, key) <==> HeldByConfig(entries, key))
      && Overlaid(base, profiles[..i + 1], FromStore) ==
         (if HeldByConfig(base, key) then merged else merged[key := Entry(items[i].profile, FromStore)])
      && Clashing(base, items[..i + 1]) == Clashing(base, items[..i]) +
         (if HeldByConfig(base, key) then [DegradedProfile(items[i].profile, ReasonOf(items[i]))] else [])
  {
    OverlaidAt(Without(entries, FromStore), ProfilesOf(items)[..i], FromStore, items[i].profile.key);
    assert ProfilesOf(items)[..i + 1][..i] == ProfilesOf(items)[..i];
    assert items[..i + 1][..i] == items[..i];
  }

  lemma StoreNext(entries: map<string, Entry>, items: seq<StoreEntry>, i: nat)
    requires i < |items|
    ensures var done, profiles := items[..i], ProfilesOf(items);
      var key := items[i].profile.key;
      && items[..i + 1] == done + [items[i]] && profiles[..i + 1] == profiles[..i] + [items[i].profile]
      && ProfilesOf(done) == profiles[..i]
      && KeysOf(profiles[..i + 1]) == KeysOf(profiles[..i]) + {key}
      && (StoreRefused(entries, items[..i + 1]) <==>
          StoreRefused(entries, done) || key in KeysOf(profiles[..i])
            || (HeldByConfig(entries, key) && !items[i].degraded))
      && (StoreRefused(entries, items[..i + 1]) ==> StoreRefused(entries, items))
  {
    var done, next, profiles := items[..i], items[..i + 1], ProfilesOf(items);
    ConfigNext(profiles, i);
    assert next == done + [items[i]];
    assert ProfilesOf(done) == profiles[..i] && ProfilesOf(next) == profiles[..i + 1];
    forall j | 0 <= j < i ensures done[j] == next[j] == items[j] {}
  }
}
