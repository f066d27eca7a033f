/** The hot-reload chain (cmd/server/reload.go): an ordered apply with reverse rollback. */
module Reloads {
  import opened Ordering
  import opened ConfigDiffs

  /** A configuration as its leaves; a value is an opaque code, or the number itself for scheduler.workers. */
  type Config = map<string, int>

  const MAX_HOT_WORKERS := 4096

  /** The landing points, in the order of the step table. */
  datatype Target = Level | Debounce | Retry | Retention | EventRetention | AuditRetention | Workers | Commands

  const TABLE: seq<Target> := [Level, Debounce, Retry, Retention, EventRetention, AuditRetention, Workers, Commands]

  function Rank(t: Target): (r: nat)
    ensures r < |TABLE| && TABLE[r] == t
  {
    match t
    case Level => 0
    case Debounce => 1
    case Retry => 2
    case Retention => 3
    case EventRetention => 4
    case AuditRetention => 5
    case Workers => 6
    case Commands => 7
  }

  predicate Claims(t: Target, path: string) {
    match t
    case Level => path == "logging.level"
    case Debounce => path == "reload.debounce"
    case Retry => path == "scheduler.max_retry_delay"
    case Retention => path == "store.history_limit" || path == "store.history_ttl"
    case EventRetention =>
      path == "observability.events.retention_count" || path == "observability.events.retention_age"
    case AuditRetention => path == "observability.audit.retention_count" || path == "observability.audit.retention_age"
    case Workers => path == "scheduler.workers"
    case Commands => Within(path, COMMANDS)
  }

  /** What a step whose landing point does not exist means for the reload. */
  datatype WhenMissing = FailsAll | IsIgnored | NotInEffect

  function Missing(t: Target): WhenMissing {
    match t
    case Debounce => IsIgnored
    case EventRetention => IsIgnored
    case AuditRetention => IsIgnored
    case Commands => NotInEffect
    case _ => FailsAll
  }

  /** The part of a configuration that a landing point holds. */
  function Projection(cfg: Config, t: Target): Config {
    map p | p in cfg && Claims(t, p) :: cfg[p]
  }

  function WorkerCount(cfg: Config): int {
    if "scheduler.workers" in cfg then cfg["scheduler.workers"] else 0
  }

  /** A refusal the outside world chooses: of applying a step, or of putting it back. */
  datatype Refusal = Refusal(target: Target, undo: bool)

  predicate Refuses(t: Target, cfg: Config, undo: bool, refusals: set<Refusal>) {
    (t == Workers && WorkerCount(cfg) > MAX_HOT_WORKERS) || Refusal(t, undo) in refusals
  }

  /** `live` holds what each existing landing point is set to; `degraded` remembers a failed rollback. */
  datatype Chain = Chain(applied: Config, live: map<Target, Config>, hasPath: bool, stopped: bool, degraded: bool)

  datatype File = NoValues | Unreadable | Parsed(candidate: Config)

  datatype Result = Nothing | Ok | Unchanged | Rejected | Failed | Degraded

  datatype Verdict = Verdict(result: Result, applied: set<string>, ignored: set<string>, rejected: set<string>)

  // ---------- One reload, on values ----------

  function Changed(before: Config, after: Config, c: ConfigClass): set<string> {
    set p | p in before.Keys + after.Keys && Differs(before, after, p) && ClassOf(before, after, p) == c
  }

  predicate Planned(t: Target, hot: set<string>) {
    exists p :: p in hot && Claims(t, p)
  }

  function Unmatched(hot: set<string>): set<string> {
    set p | p in hot && forall t <- TABLE :: !Claims(t, p)
  }

  /** The steps that would be refused. */
  function Failing(c: Chain, candidate: Config, hot: set<string>, refusals: set<Refusal>): set<Target> {
    set t | t in c.live && Planned(t, hot) && Refuses(t, candidate, false, refusals)
  }

  /** The hot keys of the steps before `bound` whose section is not running. */
  function Skipped(c: Chain, hot: set<string>, bound: nat): set<string> {
    set p, t | p in hot && t in TABLE && Claims(t, p) && t !in c.live && Missing(t) == IsIgnored && Rank(t) < bound :: p
  }

  predicate LacksEntry(c: Chain, hot: set<string>) {
    exists t :: t in TABLE && t !in c.live && Missing(t) == FailsAll && Planned(t, hot)
  }

  function FirstRank(ts: set<Target>, from: nat): (r: nat)
    requires from <= |TABLE|
    ensures from <= r <= |TABLE| && (r < |TABLE| ==> TABLE[r] in ts)
    ensures forall i :: from <= i < r ==> TABLE[i] !in ts
    decreases |TABLE| - from
  {
    if from == |TABLE| || TABLE[from] in ts then from else FirstRank(ts, from + 1)
  }

  /** The steps that had been applied when the one at `bound` was refused. */
  predicate Done(c: Chain, hot: set<string>, bound: nat, t: Target) {
    t in c.live && Planned(t, hot) && Rank(t) < bound
  }

  function Advanced(c: Chain, candidate: Config, hot: set<string>, bound: nat): map<Target, Config> {
    map t | t in c.live :: if Done(c, hot, bound, t) then Projection(candidate, t) else c.live[t]
  }

  function RolledBack(c: Chain, candidate: Config, hot: set<string>, bound: nat,
                      refusals: set<Refusal>): map<Target, Config> {
    map t | t in c.live ::
      if !Done(c, hot, bound, t) then c.live[t]
      else if Refuses(t, c.applied, true, refusals) then Projection(candidate, t)
      else Projection(c.applied, t)
  }

  function Unrestored(c: Chain, hot: set<string>, bound: nat, refusals: set<Refusal>): set<Target> {
    set t | t in c.live && Done(c, hot, bound, t) && Refuses(t, c.applied, true, refusals)
  }

  function PlanStep(c: Chain, candidate: Config, hot: set<string>, restart: set<string>,
                    refusals: set<Refusal>): (Chain, Verdict) {
    var bound := FirstRank(Failing(c, candidate, hot, refusals), 0);
    var skipped := Skipped(c, hot, bound);
    if bound == |TABLE| then
      (c.(applied := candidate, live := Advanced(c, candidate, hot, bound)),
       Verdict(Ok, hot - skipped, restart + skipped, {}))
    else
      var broken := Unrestored(c, hot, bound, refusals) != {};
      (c.(live := RolledBack(c, candidate, hot, bound, refusals), degraded := c.degraded || broken),
       Verdict(if broken then Degraded else Failed, {}, restart + skipped, {}))
  }

  /** A hot key without a step, or a step without an entry point, fails the reload before anything moves. */
  function ApplyStep(c: Chain, candidate: Config, refusals: set<Refusal>): (Chain, Verdict) {
    var hot, restart := Changed(c.applied, candidate, ClassHot), Changed(c.applied, candidate, ClassRestart);
    if Unmatched(hot) != {} || LacksEntry(c, hot) then (c, Verdict(Failed, {}, restart, {}))
    else PlanStep(c, candidate, hot, restart, refusals)
  }

  function Step(c: Chain, file: File, refusals: set<Refusal>): (Chain, Verdict) {
    if c.stopped then (c, Verdict(Nothing, {}, {}, {}))
    else if !c.hasPath || !file.Parsed? then (c, Verdict(Rejected, {}, {}, {}))
    else
      var rejected := Changed(c.applied, file.candidate, ClassReject);
      if rejected != {} then (c, Verdict(Rejected, {}, {}, rejected))
      else if Changed(c.applied, file.candidate, ClassHot) + Changed(c.applied, file.candidate, ClassRestart) == {} then
        (c, Verdict(Unchanged, {}, {}, {}))
      else ApplyStep(c, file.candidate, refusals)
  }

  // ---------- Every hot key has one landing point ----------

  lemma HotPathKinds(before: Config, after: Config, path: string)
    requires ClassOf(before, after, path) == ClassHot
    ensures path in HOT_PATHS || Within(path, COMMANDS)
  {}

  /** No hot change is left without a step, and none is claimed by two. */
  lemma HotKeyHasOneStep(before: Config, after: Config, path: string)
    requires ClassOf(before, after, path) == ClassHot
    ensures exists t :: Claims(t, path) && forall s :: Claims(s, path) ==> s == t
  {
    HotPathKinds(before, after, path);
    if Within(path, COMMANDS) {
      OnlyCommands(path);
    } else {
      OneScalarStep(path);
    }
  }

  lemma OnlyCommands(path: string)
    requires Within(path, COMMANDS)
    ensures Claims(Commands, path) && forall s :: Claims(s, path) ==> s == Commands
  {
    assert path[..|COMMANDS|] == COMMANDS;
    assert path[0] == COMMANDS[0] == 'e';
  }

  lemma OneScalarStep(path: string)
    requires path in HOT_PATHS && !Within(path, COMMANDS)
    ensures exists t :: Claims(t, path) && forall s :: Claims(s, path) ==> s == t
  {
    var t :=
      if path == "logging.level" then Level
      else if path == "reload.debounce" then Debounce
      else if path == "scheduler.max_retry_delay" then Retry
      else if path == "store.history_limit" || path == "store.history_ttl" then Retention
      else if Claims(EventRetention, path) then EventRetention
      else if Claims(AuditRetention, path) then AuditRetention
      else Workers;
    assert Claims(t, path);
    forall s | Claims(s, path) ensures s == t {}
  }

  lemma NothingUnmatched(before: Config, after: Config)
    ensures Unmatched(Changed(before, after, ClassHot)) == {}
  {
    forall p | p in Changed(before, after, ClassHot) ensures exists t :: t in TABLE && Claims(t, p) {
      HotKeyHasOneStep(before, after, p);
      var t :| Claims(t, p);
      assert TABLE[Rank(t)] == t;
    }
  }

  // ---------- All or nothing ----------

  /** Flattening produces only leaves that have a class; the table and the configuration type are kept in step. */
  ghost predicate Classified(cfg: Config) {
    forall p :: p in cfg ==> Classify(p).Some?
  }

  ghost predicate WellFormed(c: Chain) {
    Classified(c.applied)
  }

  /** Every existing landing point holds its part of the applied configuration. */
  ghost predicate InEffect(c: Chain) {
    forall t :: t in c.live ==> c.live[t] == Projection(c.applied, t)
  }

  lemma ClaimedScalarIsHot(t: Target, path: string)
    requires Claims(t, path) && t != Commands
    ensures path in HOT_PATHS && !Within(path, COMMANDS)
  {
    if Within(path, COMMANDS) { OnlyCommands(path); }
  }

  lemma ScalarClass(before: Config, after: Config, path: string)
    requires path in HOT_PATHS && !Within(path, COMMANDS)
    ensures ClassOf(before, after, path) == ClassHot
  {}

  lemma CommandClass(before: Config, after: Config, path: string)
    requires Within(path, COMMANDS) && Classify(path).Some?
    ensures ClassOf(before, after, path) != ClassRestart
  {
    if path != COMMANDS { CommandLeavesAreNotListed(path); }
  }

  /** A claimed path that differs is a hot change, unless it voids the reload. */
  lemma ClaimedIsHot(before: Config, after: Config, t: Target, path: string)
    requires Classified(before) && Classified(after)
    requires Claims(t, path) && Differs(before, after, path) && Changed(before, after, ClassReject) == {}
    ensures path in Changed(before, after, ClassHot)
  {
    assert path in before.Keys + after.Keys && Classify(path).Some?;
    assert path !in Changed(before, after, ClassReject);
    if t == Commands {
      CommandClass(before, after, path);
    } else {
      ClaimedScalarIsHot(t, path);
      ScalarClass(before, after, path);
    }
  }

  lemma UnplannedKeepsProjection(before: Config, after: Config, t: Target)
    requires Classified(before) && Classified(after) && Changed(before, after, ClassReject) == {}
    requires !Planned(t, Changed(before, after, ClassHot))
    ensures Projection(before, t) == Projection(after, t)
  {
    forall p | Claims(t, p) ensures !Differs(before, after, p) {
      if Differs(before, after, p) { ClaimedIsHot(before, after, t, p); }
    }
    var a, b := Projection(before, t), Projection(after, t);
    forall p ensures Lookup(a, p) == Lookup(b, p) {
      if Claims(t, p) { assert !Differs(before, after, p); }
    }
    SameLookups(a, b);
  }

  lemma PlannedChangesProjection(before: Config, after: Config, t: Target)
    requires Planned(t, Changed(before, after, ClassHot))
    ensures Projection(before, t) != Projection(after, t)
  {
    var p :| p in Changed(before, after, ClassHot) && Claims(t, p);
    assert Lookup(Projection(before, t), p) == Lookup(before, p) != Lookup(after, p) == Lookup(Projection(after, t), p);
  }

  function AllChanged(before: Config, after: Config): (r: set<string>)
    ensures forall p :: p in r <==> Differs(before, after, p)
  {
    assert forall p :: Differs(before, after, p) ==> p in before.Keys + after.Keys;
    Changed(before, after, ClassHot) + Changed(before, after, ClassRestart) + Changed(before, after, ClassReject)
  }

  lemma NoChangesMeansSame(before: Config, after: Config)
    ensures AllChanged(before, after) == {} <==> before == after
  {
    if AllChanged(before, after) == {} {
      forall p ensures Lookup(before, p) == Lookup(after, p) { assert p !in AllChanged(before, after); }
      SameLookups(before, after);
    } else {
      var p :| p in AllChanged(before, after);
    }
  }

  lemma AdvancedIsInEffect(c: Chain, candidate: Config)
    requires InEffect(c) && WellFormed(c) && Classified(candidate) && Changed(c.applied, candidate, ClassReject) == {}
    ensures InEffect(c.(applied := candidate,
                        live := Advanced(c, candidate, Changed(c.applied, candidate, ClassHot), |TABLE|)))
  {
    var hot := Changed(c.applied, candidate, ClassHot);
    forall t | t in c.live ensures Advanced(c, candidate, hot, |TABLE|)[t] == Projection(candidate, t) {
      if !Planned(t, hot) { UnplannedKeepsProjection(c.applied, candidate, t); }
    }
  }

  lemma RolledBackIsMixedIff(c: Chain, candidate: Config, bound: nat, refusals: set<Refusal>)
    requires InEffect(c)
    ensures var hot := Changed(c.applied, candidate, ClassHot);
      var live := RolledBack(c, candidate, hot, bound, refusals);
      (Unrestored(c, hot, bound, refusals) == {} <==> live == c.live)
      && (live == c.live <==> InEffect(c.(live := live)))
  {
    var hot := Changed(c.applied, candidate, ClassHot);
    var live := RolledBack(c, candidate, hot, bound, refusals);
    if Unrestored(c, hot, bound, refusals) == {} {
      assert forall t :: t in c.live ==> t !in Unrestored(c, hot, bound, refusals);
      assert live == c.live;
    } else {
      var t :| t in Unrestored(c, hot, bound, refusals);
      PlannedChangesProjection(c.applied, candidate, t);
      assert live[t] == Projection(candidate, t) != c.live[t];
    }
  }

  ghost predicate Settled(c: Chain, candidate: Config, d: Chain, result: Result) {
    && (result == Ok ==> d == c.(applied := candidate, live := d.live) && d.live.Keys == c.live.Keys && InEffect(d))
    && (result != Ok ==> d.applied == c.applied)
    && (result !in {Ok, Degraded} ==> d == c)
    && (result == Degraded <==> !InEffect(d))
  }

  lemma PlanSettles(c: Chain, candidate: Config, restart: set<string>, refusals: set<Refusal>)
    requires InEffect(c) && WellFormed(c) && Classified(candidate) && Changed(c.applied, candidate, ClassReject) == {}
    ensures var (d, v) := PlanStep(c, candidate, Changed(c.applied, candidate, ClassHot), restart, refusals);
      Settled(c, candidate, d, v.result)
  {
    var hot := Changed(c.applied, candidate, ClassHot);
    var bound := FirstRank(Failing(c, candidate, hot, refusals), 0);
    if bound == |TABLE| {
      AdvancedIsInEffect(c, candidate);
    } else {
      RollbackSettles(c, candidate, bound, restart, refusals);
    }
  }

  lemma RollbackSettles(c: Chain, candidate: Config, bound: nat, restart: set<string>, refusals: set<Refusal>)
    requires InEffect(c)
    requires bound == FirstRank(Failing(c, candidate, Changed(c.applied, candidate, ClassHot), refusals), 0) < |TABLE|
    ensures var (d, v) := PlanStep(c, candidate, Changed(c.applied, candidate, ClassHot), restart, refusals);
      Settled(c, candidate, d, v.result)
  {
    RolledBackIsMixedIff(c, candidate, bound, refusals);
  }

  lemma ApplySettles(c: Chain, candidate: Config, refusals: set<Refusal>)
    requires InEffect(c) && WellFormed(c) && Classified(candidate) && Changed(c.applied, candidate, ClassReject) == {}
    ensures var (d, v) := ApplyStep(c, candidate, refusals); Settled(c, candidate, d, v.result)
  {
    PlanSettles(c, candidate, Changed(c.applied, candidate, ClassRestart), refusals);
  }

  /** A reload that succeeds puts every existing landing point and the applied configuration to the
      candidate. With any other result both stay as they were, except that a degraded one leaves values
      that are no longer those of the applied configuration; and only a degraded one does. */
  lemma AllOrNothing(c: Chain, file: File, refusals: set<Refusal>)
    requires InEffect(c) && WellFormed(c) && (file.Parsed? ==> Classified(file.candidate))
    ensures var (d, v) := Step(c, file, refusals);
      && (v.result == Ok ==>
            && file.Parsed? && d == c.(applied := file.candidate, live := d.live)
            && d.live.Keys == c.live.Keys && InEffect(d))
      && (v.result != Ok ==> d.applied == c.applied)
      && (v.result !in {Ok, Degraded} ==> d == c)
      && (v.result == Degraded <==> !InEffect(d))
  {
    if file.Parsed? && Changed(c.applied, file.candidate, ClassReject) == {} {
      ApplySettles(c, file.candidate, refusals);
    }
  }

  lemma BoundIsFirst(failing: set<Target>, t: Target)
    ensures var bound := FirstRank(failing, 0);
      && (bound < |TABLE| <==> failing != {})
      && (failing != {} ==> (Rank(t) < bound <==> forall g :: g in failing ==> Rank(t) < Rank(g)))
  {
    var bound := FirstRank(failing, 0);
    forall g | g in failing ensures bound <= Rank(g) { assert TABLE[Rank(g)] == g; }
    if bound < |TABLE| {
      assert TABLE[bound] in failing && Rank(TABLE[bound]) == bound;
    }
  }

  /** Applied before anything was refused, and not to be put back. */
  ghost predicate StuckBefore(c: Chain, hot: set<string>, failing: set<Target>, refusals: set<Refusal>, t: Target) {
    && t in c.live && Planned(t, hot) && Refuses(t, c.applied, true, refusals)
    && forall g :: g in failing ==> Rank(t) < Rank(g)
  }

  ghost predicate SomeStuck(c: Chain, hot: set<string>, failing: set<Target>, refusals: set<Refusal>) {
    exists t :: StuckBefore(c, hot, failing, refusals, t)
  }

  lemma UnrestoredIffStuck(c: Chain, hot: set<string>, failing: set<Target>, refusals: set<Refusal>)
    requires failing != {}
    ensures Unrestored(c, hot, FirstRank(failing, 0), refusals) != {} <==> SomeStuck(c, hot, failing, refusals)
  {
    var broken := Unrestored(c, hot, FirstRank(failing, 0), refusals);
    forall t ensures t in broken <==> StuckBefore(c, hot, failing, refusals, t) { BoundIsFirst(failing, t); }
  }

  /** Degraded is reported exactly when some step is refused and one that had been applied before it
      refuses to be put back. */
  lemma DegradedIff(c: Chain, candidate: Config, refusals: set<Refusal>)
    ensures var hot := Changed(c.applied, candidate, ClassHot);
      var failing := Failing(c, candidate, hot, refusals);
      ApplyStep(c, candidate, refusals).1.result == Degraded <==>
      !LacksEntry(c, hot) && failing != {} && SomeStuck(c, hot, failing, refusals)
  {
    var failing := Failing(c, candidate, Changed(c.applied, candidate, ClassHot), refusals);
    NothingUnmatched(c.applied, candidate);
    BoundIsFirst(failing, Level);
    if failing != {} {
      UnrestoredIffStuck(c, Changed(c.applied, candidate, ClassHot), failing, refusals);
    }
  }

  /** A degraded reload leaves the values of the file exactly where a step that had been applied refused to be
      put back; everything else is as before. */
  lemma OnlyStuckKeepTheNew(c: Chain, candidate: Config, refusals: set<Refusal>, t: Target)
    requires InEffect(c) && ApplyStep(c, candidate, refusals).1.result == Degraded && t in c.live
    ensures var d, hot := ApplyStep(c, candidate, refusals).0, Changed(c.applied, candidate, ClassHot);
      t in d.live && d.live[t] ==
        if StuckBefore(c, hot, Failing(c, candidate, hot, refusals), refusals, t) then Projection(candidate, t)
        else c.live[t]
  {
    BoundIsFirst(Failing(c, candidate, Changed(c.applied, candidate, ClassHot), refusals), t);
  }

  lemma OnlyWorkersStick(c: Chain, hot: set<string>, failing: set<Target>, refusals: set<Refusal>)
    requires failing != {} && forall t :: Refusal(t, true) !in refusals
    ensures SomeStuck(c, hot, failing, refusals) <==>
            Workers in c.live && Planned(Workers, hot) && WorkerCount(c.applied) > MAX_HOT_WORKERS
              && failing == {Commands}
  {
    if SomeStuck(c, hot, failing, refusals) {
      var t :| StuckBefore(c, hot, failing, refusals, t);
      forall g | g in failing ensures g == Commands { assert Rank(Workers) < Rank(g); }
      assert failing == {Commands};
    }
    if Workers in c.live && Planned(Workers, hot) && WorkerCount(c.applied) > MAX_HOT_WORKERS && failing == {Commands} {
      assert StuckBefore(c, hot, failing, refusals, Workers);
    }
  }

  /** With landing points that never refuse to be put back a reload still ends degraded in exactly one
      way: the process was started with more workers than a reload may set, the file brings the number
      down, and the commands after it are refused. */
  lemma OversizedWorkersCannotBeRestored(c: Chain, candidate: Config, refusals: set<Refusal>)
    requires forall t :: Refusal(t, true) !in refusals
    ensures var hot := Changed(c.applied, candidate, ClassHot);
      ApplyStep(c, candidate, refusals).1.result == Degraded <==>
      && !LacksEntry(c, hot) && Workers in c.live && Planned(Workers, hot) && WorkerCount(c.applied) > MAX_HOT_WORKERS
      && Failing(c, candidate, hot, refusals) == {Commands}
  {
    var hot := Changed(c.applied, candidate, ClassHot);
    DegradedIff(c, candidate, refusals);
    if Failing(c, candidate, hot, refusals) != {} {
      OnlyWorkersStick(c, hot, Failing(c, candidate, hot, refusals), refusals);
    }
  }

  /** A process that runs with a configuration, all landing points existing. */
  function Serving(cfg: Config): (c: Chain)
    ensures InEffect(c) && c.applied == cfg && forall t :: t in c.live
  {
    var live := map i | 0 <= i < |TABLE| :: TABLE[i] := Projection(cfg, TABLE[i]);
    assert forall t :: t in live by {
      forall t ensures t in live { assert TABLE[Rank(t)] == t; }
    }
    Chain(cfg, live, true, false, false)
  }

  const WORKERS_PATH := "scheduler.workers"

  lemma WorkersIsScalar(names: set<string>, others: set<string>)
    ensures ClassifyChange(WORKERS_PATH, names, others) == ClassHot && Classify(WORKERS_PATH).Some?
    ensures forall t :: Claims(t, WORKERS_PATH) <==> t == Workers
  {
    assert WORKERS_PATH in HOT_PATHS;
    assert WORKERS_PATH[0] != COMMANDS[0];
  }

  lemma AllChangesAre(before: Config, after: Config, paths: set<string>, c: ConfigClass)
    requires forall p :: Differs(before, after, p) <==> p in paths
    requires forall p :: p in paths ==> ClassOf(before, after, p) == c
    ensures Changed(before, after, c) == paths && forall d :: d != c ==> Changed(before, after, d) == {}
  {
    forall p | p in paths ensures p in before.Keys + after.Keys { assert Differs(before, after, p); }
  }

  lemma NewEntryIsHot(entry: string, before: Config, after: Config)
    requires SplitCommandLeaf(entry).Some? && before.Keys == {WORKERS_PATH}
    ensures ClassOf(before, after, entry) == ClassHot
  {
    assert WORKERS_PATH[0] != COMMANDS[0];
    assert EntryNames(before) == {};
  }

  lemma KindIsClassified(entry: string)
    requires SplitCommandLeaf(entry).Some? && SplitCommandLeaf(entry).value.1 == "kind"
    ensures Classify(entry).Some?
  {
    assert "kind" in PERMISSION_FIELDS;
  }

  lemma NewEntryAndFewerWorkers(entry: string, before: Config, after: Config)
    requires SplitCommandLeaf(entry).Some? && entry != WORKERS_PATH
    requires before == map[WORKERS_PATH := 5000] && after == map[WORKERS_PATH := 10, entry := 1]
    ensures Changed(before, after, ClassHot) == {WORKERS_PATH, entry}
    ensures Changed(before, after, ClassRestart) == {} && Changed(before, after, ClassReject) == {}
  {
    WorkersIsScalar(EntryNames(before), EntryNames(after));
    NewEntryIsHot(entry, before, after);
    AllChangesAre(before, after, {WORKERS_PATH, entry}, ClassHot);
  }

  lemma OnlyCommandsFail(c: Chain, entry: string, after: Config)
    requires Within(entry, COMMANDS) && Commands in c.live && WorkerCount(after) == 10
    ensures Failing(c, after, {WORKERS_PATH, entry}, {Refusal(Commands, false)}) == {Commands}
  {
    OnlyCommands(entry);
    assert Planned(Commands, {WORKERS_PATH, entry});
  }

  lemma OversizedApply(c: Chain, entry: string, after: Config)
    requires Changed(c.applied, after, ClassHot) == {WORKERS_PATH, entry} && Claims(Workers, WORKERS_PATH)
             && Within(entry, COMMANDS)
    requires (forall t :: t in c.live) && WorkerCount(c.applied) == 5000 && WorkerCount(after) == 10
    ensures ApplyStep(c, after, {Refusal(Commands, false)}).1.result == Degraded
  {
    var hot := {WORKERS_PATH, entry};
    OnlyCommandsFail(c, entry, after);
    assert Planned(Workers, hot);
    OversizedWorkersCannotBeRestored(c, after, {Refusal(Commands, false)});
  }

  lemma DegradedStep(c: Chain, candidate: Config, refusals: set<Refusal>)
    requires InEffect(c) && WellFormed(c) && Classified(candidate) && !c.stopped && c.hasPath
    requires Changed(c.applied, candidate, ClassReject) == {} && Changed(c.applied, candidate, ClassHot) != {}
    requires ApplyStep(c, candidate, refusals).1.result == Degraded
    ensures var (d, v) := Step(c, Parsed(candidate), refusals);
      v.result == Degraded && d.applied == c.applied && !InEffect(d)
  {
    StepApplies(c, candidate, refusals);
    ApplySettles(c, candidate, refusals);
  }

  lemma StepApplies(c: Chain, candidate: Config, refusals: set<Refusal>)
    requires !c.stopped && c.hasPath && Changed(c.applied, candidate, ClassReject) == {}
             && Changed(c.applied, candidate, ClassHot) != {}
    ensures Step(c, Parsed(candidate), refusals) == ApplyStep(c, candidate, refusals)
  {}

  lemma OversizedFacts(entry: string, before: Config, after: Config)
    requires SplitCommandLeaf(entry).Some? && SplitCommandLeaf(entry).value.1 == "kind" && entry != WORKERS_PATH
    requires before == map[WORKERS_PATH := 5000] && after == map[WORKERS_PATH := 10, entry := 1]
    ensures Changed(before, after, ClassHot) == {WORKERS_PATH, entry} && Changed(before, after, ClassReject) == {}
    ensures Classified(before) && Classified(after) && Claims(Workers, WORKERS_PATH) && Within(entry, COMMANDS)
  {
    NewEntryAndFewerWorkers(entry, before, after);
    WorkersIsScalar({}, {});
    KindIsClassified(entry);
    TwoLeavesClassified(before, after, entry);
  }

  lemma TwoLeavesClassified(before: Config, after: Config, entry: string)
    requires Classify(WORKERS_PATH).Some? && Classify(entry).Some?
    requires before.Keys == {WORKERS_PATH} && after.Keys == {WORKERS_PATH, entry}
    ensures Classified(before) && Classified(after)
  {}

  /** The process was started with 5000 workers; the file asks for 10 and adds a command, which is refused. */
  lemma OversizedWorkersDegrade()
    ensures var before, after := map[WORKERS_PATH := 5000],
            map[WORKERS_PATH := 10, LeafPath(COMMANDS, "x", "kind") := 1];
      var (d, v) := Step(Serving(before), Parsed(after), {Refusal(Commands, false)});
      v.result == Degraded && d.applied == before && !InEffect(d)
  {
    var entry := LeafPath(COMMANDS, "x", "kind");
    var before, after := map[WORKERS_PATH := 5000], map[WORKERS_PATH := 10, entry := 1];
    SplitOfSegments("x", "kind", "");
    assert "kind" + "" == "kind";
    assert entry != WORKERS_PATH by { assert entry[0] == COMMANDS[0] != WORKERS_PATH[0]; }
    OversizedFacts(entry, before, after);
    OversizedApply(Serving(before), entry, after);
    DegradedStep(Serving(before), after, {Refusal(Commands, false)});
  }

  lemma PlanNeverUndoesCommands(c: Chain, candidate: Config, hot: set<string>, restart: set<string>,
                                refusals: set<Refusal>)
    requires Commands in c.live
    ensures var (d, v) := PlanStep(c, candidate, hot, restart, refusals);
      v.result != Ok ==> Commands in d.live && d.live[Commands] == c.live[Commands]
  {}

  /** The last step is never put back: unless the reload succeeds, the command table is the old one. Its
      undo, which is not an exact inverse, never runs. */
  lemma CommandsNeverUndone(c: Chain, file: File, refusals: set<Refusal>)
    requires Commands in c.live
    ensures var (d, v) := Step(c, file, refusals);
      v.result != Ok ==> Commands in d.live && d.live[Commands] == c.live[Commands]
  {
    if file.Parsed? {
      var hot, restart := Changed(c.applied, file.candidate, ClassHot),
        Changed(c.applied, file.candidate, ClassRestart);
      PlanNeverUndoesCommands(c, file.candidate, hot, restart, refusals);
    }
  }

  // ---------- The keys reported ----------

  /** Reading back what is already applied is no change, even when the values in effect are mixed: after
      a degraded reload, restoring the old file repairs nothing. */
  lemma AppliedFileIsUnchanged(d: Chain, again: set<Refusal>)
    requires !d.stopped && d.hasPath
    ensures Step(d, Parsed(d.applied), again) == (d, Verdict(Unchanged, {}, {}, {}))
  {
    NoChangesMeansSame(d.applied, d.applied);
  }

  lemma OkApplies(c: Chain, file: File, refusals: set<Refusal>)
    requires Step(c, file, refusals).1.result == Ok
    ensures var (d, v) := Step(c, file, refusals);
      && file.Parsed? && d.applied == file.candidate && !d.stopped && d.hasPath
      && Changed(c.applied, file.candidate, ClassReject) == {} && v.rejected == {} && v.applied !! v.ignored
      && v.applied + v.ignored ==
         Changed(c.applied, file.candidate, ClassHot) + Changed(c.applied, file.candidate, ClassRestart)
  {}

  /** After a successful reload every changed path is reported exactly once, as applied or as ignored;
      reading the same file again changes nothing. */
  lemma OkReportsEveryKeyOnce(c: Chain, file: File, refusals: set<Refusal>, again: set<Refusal>, p: string)
    requires Step(c, file, refusals).1.result == Ok
    ensures var (d, v) := Step(c, file, refusals);
      && (Differs(c.applied, file.candidate, p) <==> p in v.applied + v.ignored) && v.applied !! v.ignored
         && v.rejected == {}
      && Step(d, file, again) == (d, Verdict(Unchanged, {}, {}, {}))
  {
    OkApplies(c, file, refusals);
    AppliedFileIsUnchanged(Step(c, file, refusals).0, again);
    if Differs(c.applied, file.candidate, p) {
      assert p in c.applied.Keys + file.candidate.Keys;
      assert p !in Changed(c.applied, file.candidate, ClassReject);
    }
  }

  // ---------- Which verdict, and what it reports ----------

  /** A hot change lands at t. */
  ghost predicate Moves(c: Chain, candidate: Config, t: Target) {
    exists p :: Differs(c.applied, candidate, p) && ClassOf(c.applied, candidate, p) == ClassHot && Claims(t, p)
  }

  ghost predicate HasReject(c: Chain, candidate: Config) {
    exists p :: Differs(c.applied, candidate, p) && ClassOf(c.applied, candidate, p) == ClassReject
  }

  /** Level, retry policy, retention and workers cannot be done without. */
  ghost predicate LacksNeeded(c: Chain, candidate: Config) {
    exists t :: t in {Level, Retry, Retention, Workers} && t !in c.live && Moves(c, candidate, t)
  }

  ghost predicate SomeRefuses(c: Chain, candidate: Config, refusals: set<Refusal>) {
    exists t :: t in c.live && Moves(c, candidate, t)
      && (Refusal(t, false) in refusals || (t == Workers && WorkerCount(candidate) > 4096))
  }

  lemma MovesIsPlanned(c: Chain, candidate: Config, t: Target)
    ensures Moves(c, candidate, t) <==> Planned(t, Changed(c.applied, candidate, ClassHot))
  {
    var hot := Changed(c.applied, candidate, ClassHot);
    if p :| Differs(c.applied, candidate, p) && ClassOf(c.applied, candidate, p) == ClassHot && Claims(t, p) {
      assert p in c.applied.Keys + candidate.Keys && p in hot;
    }
  }

  lemma LackingIsNeeded(c: Chain, candidate: Config)
    ensures LacksEntry(c, Changed(c.applied, candidate, ClassHot)) <==> LacksNeeded(c, candidate)
  {
    forall t
      ensures Moves(c, candidate, t) <==> Planned(t, Changed(c.applied, candidate, ClassHot))
      ensures t in TABLE
    {
      MovesIsPlanned(c, candidate, t);
      assert TABLE[Rank(t)] == t;
    }
    forall t ensures Missing(t) == FailsAll <==> t in {Level, Retry, Retention, Workers} {}
  }

  lemma RefusalFails(c: Chain, candidate: Config, refusals: set<Refusal>)
    ensures FirstRank(Failing(c, candidate, Changed(c.applied, candidate, ClassHot), refusals), 0) < |TABLE| <==>
            SomeRefuses(c, candidate, refusals)
  {
    var failing := Failing(c, candidate, Changed(c.applied, candidate, ClassHot), refusals);
    BoundIsFirst(failing, Level);
    forall t ensures t in failing <==>
                     t in c.live && Moves(c, candidate, t)
                     && (Refusal(t, false) in refusals || (t == Workers && WorkerCount(candidate) > 4096))
    {
      MovesIsPlanned(c, candidate, t);
    }
  }

  lemma RejectIsHas(c: Chain, candidate: Config)
    ensures Changed(c.applied, candidate, ClassReject) != {} <==> HasReject(c, candidate)
  {
    if p :| Differs(c.applied, candidate, p) && ClassOf(c.applied, candidate, p) == ClassReject {
      assert p in c.applied.Keys + candidate.Keys && p in Changed(c.applied, candidate, ClassReject);
    }
  }

  /** The verdict, in the order in which a reload looks: stopped; unreadable, or a change nobody may make while
      running; no change; a needed landing point missing; a landing point that refuses. */
  lemma VerdictIs(c: Chain, file: File, refusals: set<Refusal>)
    ensures var result := Step(c, file, refusals).1.result;
      && (result == Nothing <==> c.stopped)
      && (result == Rejected <==> !c.stopped && (!c.hasPath || !file.Parsed? || HasReject(c, file.candidate)))
      && (result == Unchanged <==> !c.stopped && c.hasPath && file == Parsed(c.applied))
      && (result == Ok <==>
            && !c.stopped && c.hasPath && file.Parsed? && file.candidate != c.applied && !HasReject(c, file.candidate)
            && !LacksNeeded(c, file.candidate) && !SomeRefuses(c, file.candidate, refusals))
  {
    if !c.stopped && c.hasPath && file.Parsed? {
      RejectIsHas(c, file.candidate);
      NoChangesMeansSame(c.applied, file.candidate);
      NothingUnmatched(c.applied, file.candidate);
      LackingIsNeeded(c, file.candidate);
      RefusalFails(c, file.candidate, refusals);
      VerdictCases(c, file.candidate, refusals);
    }
  }

  lemma VerdictCases(c: Chain, candidate: Config, refusals: set<Refusal>)
    requires !c.stopped && c.hasPath && Unmatched(Changed(c.applied, candidate, ClassHot)) == {}
    ensures var result, hot := Step(c, Parsed(candidate), refusals).1.result, Changed(c.applied, candidate, ClassHot);
      var rejected, all := Changed(c.applied, candidate, ClassReject), AllChanged(c.applied, candidate);
      var fails := FirstRank(Failing(c, candidate, hot, refusals), 0) < |TABLE|;
      if rejected != {} then result == Rejected
      else if all == {} then result == Unchanged
      else if LacksEntry(c, hot) then result == Failed
      else if fails then result in {Failed, Degraded}
      else result == Ok
  {
    var all := AllChanged(c.applied, candidate);
    if Changed(c.applied, candidate, ClassReject) == {} {
      assert all == Changed(c.applied, candidate, ClassHot) + Changed(c.applied, candidate, ClassRestart);
    }
  }

  /** Without its section a hot key is reported as waiting for a restart. */
  ghost predicate SectionIsOff(c: Chain, p: string) {
    exists t :: t in {Debounce, EventRetention, AuditRetention} && t !in c.live && Claims(t, p)
  }

  /** What a successful reload reports of a path: a hot change as applied, unless its section is not running;
      that, and a change that waits for a restart, as ignored. */
  lemma OkReports(c: Chain, file: File, refusals: set<Refusal>, p: string)
    requires Step(c, file, refusals).1.result == Ok
    ensures var v := Step(c, file, refusals).1;
      var differs, kind := Differs(c.applied, file.candidate, p), ClassOf(c.applied, file.candidate, p);
      && (p in v.applied <==> differs && kind == ClassHot && !SectionIsOff(c, p))
      && (p in v.ignored <==> differs && (kind == ClassRestart || (kind == ClassHot && SectionIsOff(c, p))))
  {
    var hot := Changed(c.applied, file.candidate, ClassHot);
    assert Differs(c.applied, file.candidate, p) ==> p in c.applied.Keys + file.candidate.Keys;
    forall t ensures t in TABLE && (Missing(t) == IsIgnored <==> t in {Debounce, EventRetention, AuditRetention}) {
      assert TABLE[Rank(t)] == t;
    }
    assert p in Skipped(c, hot, |TABLE|) <==> p in hot && SectionIsOff(c, p);
    OkSplits(c, file.candidate, refusals);
  }

  lemma OkSplits(c: Chain, candidate: Config, refusals: set<Refusal>)
    requires ApplyStep(c, candidate, refusals).1.result == Ok
    ensures var v, hot := ApplyStep(c, candidate, refusals).1, Changed(c.applied, candidate, ClassHot);
      v.applied == hot - Skipped(c, hot, |TABLE|)
      && v.ignored == Changed(c.applied, candidate, ClassRestart) + Skipped(c, hot, |TABLE|)
  {}

  /** Any other verdict reports nothing as applied, and a refused file exactly the paths that void it. */
  lemma OthersReport(c: Chain, file: File, refusals: set<Refusal>, p: string)
    requires Step(c, file, refusals).1.result != Ok
    ensures var v := Step(c, file, refusals).1;
      && v.applied == {}
      && (p in v.rejected <==>
            && v.result == Rejected && c.hasPath && file.Parsed?
            && Differs(c.applied, file.candidate, p) && ClassOf(c.applied, file.candidate, p) == ClassReject)
  {
    if file.Parsed? {
      ChangedIs(c.applied, file.candidate, ClassReject, p);
      StepRejects(c, file.candidate, refusals);
    }
  }

  lemma ChangedIs(before: Config, after: Config, kind: ConfigClass, p: string)
    ensures p in Changed(before, after, kind) <==> Differs(before, after, p) && ClassOf(before, after, p) == kind
  {
    assert Differs(before, after, p) ==> p in before.Keys + after.Keys;
  }

  lemma ApplyRejectsNothing(c: Chain, candidate: Config, refusals: set<Refusal>)
    ensures var v := ApplyStep(c, candidate, refusals).1;
      v.rejected == {} && v.result != Rejected && (v.result != Ok ==> v.applied == {})
  {}

  lemma StepRejects(c: Chain, candidate: Config, refusals: set<Refusal>)
    ensures var v := Step(c, Parsed(candidate), refusals).1;
      && (v.result != Ok ==> v.applied == {})
      && v.rejected ==
           if v.result == Rejected && c.hasPath then Changed(c.applied, candidate, ClassReject) else {}
  {
    ApplyRejectsNothing(c, candidate, refusals);
  }

  /** Where each value of a configuration lands. */
  ghost predicate Landed(live: map<Target, Config>, cfg: Config) {
    && (Level in live ==> SameAt(live[Level], cfg, "logging.level"))
    && (Debounce in live ==> SameAt(live[Debounce], cfg, "reload.debounce"))
    && (Retry in live ==> SameAt(live[Retry], cfg, "scheduler.max_retry_delay"))
    && (Retention in live ==>
          SameAt(live[Retention], cfg, "store.history_limit") && SameAt(live[Retention], cfg, "store.history_ttl"))
    && (EventRetention in live ==>
          && SameAt(live[EventRetention], cfg, "observability.events.retention_count")
          && SameAt(live[EventRetention], cfg, "observability.events.retention_age"))
    && (AuditRetention in live ==>
          && SameAt(live[AuditRetention], cfg, "observability.audit.retention_count")
          && SameAt(live[AuditRetention], cfg, "observability.audit.retention_age"))
    && (Workers in live ==> SameAt(live[Workers], cfg, "scheduler.workers"))
    && (Commands in live ==> forall p :: "executors.commands." <= p ==> SameAt(live[Commands], cfg, p))
  }

  /** After a successful reload each landing point holds the values of the file. */
  lemma ValuesLand(c: Chain, file: File, refusals: set<Refusal>)
    requires InEffect(c) && WellFormed(c) && file.Parsed? && Classified(file.candidate)
    requires Step(c, file, refusals).1.result == Ok
    ensures Landed(Step(c, file, refusals).0.live, file.candidate)
  {
    AllOrNothing(c, file, refusals);
    InEffectLands(Step(c, file, refusals).0);
  }

  lemma InEffectLands(d: Chain)
    requires InEffect(d)
    ensures Landed(d.live, d.applied)
  {
    forall t, p | t in d.live && Claims(t, p) ensures SameAt(d.live[t], d.applied, p) {}
    assert forall p :: "executors.commands." <= p ==> Claims(Commands, p);
  }

  /** The same value, or none in either. */
  predicate SameAt(a: Config, b: Config, p: string) {
    (p in a <==> p in b) && (p in a ==> a[p] == b[p])
  }

  // ---------- Runs ----------

  datatype Event = Reload(file: File, refusals: set<Refusal>) | Stop

  function EventStep(c: Chain, e: Event): Chain {
    match e
    case Reload(file, refusals) => Step(c, file, refusals).0
    case Stop => c.(stopped := true)
  }

  ghost function Run(c: Chain, events: seq<Event>): Chain
    decreases |events|
  {
    if events == [] then c else Run(EventStep(c, events[0]), events[1..])
  }

  ghost predicate Readable(e: Event) {
    e.Reload? && e.file.Parsed? ==> Classified(e.file.candidate)
  }

  ghost predicate Sound(c: Chain) {
    WellFormed(c) && (!c.degraded ==> InEffect(c))
  }

  lemma PlanStepMoves(c: Chain, candidate: Config, hot: set<string>, restart: set<string>, refusals: set<Refusal>)
    ensures var d := PlanStep(c, candidate, hot, restart, refusals).0;
      (d.applied == c.applied || d.applied == candidate) && (c.degraded ==> d.degraded)
  {}

  lemma StepMoves(c: Chain, file: File, refusals: set<Refusal>)
    ensures var d := Step(c, file, refusals).0;
      (d.applied == c.applied || (file.Parsed? && d.applied == file.candidate)) && (c.degraded ==> d.degraded)
  {
    if file.Parsed? {
      PlanStepMoves(c, file.candidate, Changed(c.applied, file.candidate, ClassHot),
                    Changed(c.applied, file.candidate, ClassRestart), refusals);
    }
  }

  lemma StepKeepsSound(c: Chain, e: Event)
    requires Sound(c) && Readable(e)
    ensures Sound(EventStep(c, e)) && (c.degraded ==> EventStep(c, e).degraded)
  {
    if e.Reload? {
      StepMoves(c, e.file, e.refusals);
      if !c.degraded {
        AllOrNothing(c, e.file, e.refusals);
        DegradedIsRemembered(c, e.file, e.refusals);
      }
    }
  }

  lemma DegradedIsRemembered(c: Chain, file: File, refusals: set<Refusal>)
    ensures var (d, v) := Step(c, file, refusals); v.result == Degraded ==> d.degraded
  {}

  /** Over any run, as long as no reload ended degraded, every landing point holds its part of the
      applied configuration. */
  lemma {:induction false} RunStaysInEffect(c: Chain, events: seq<Event>)
    requires Sound(c) && forall e :: e in events ==> Readable(e)
    ensures Sound(Run(c, events))
    decreases |events|
  {
    if events != [] {
      StepKeepsSound(c, events[0]);
      RunStaysInEffect(EventStep(c, events[0]), events[1..]);
    }
  }

  lemma UnplannedAgree(c: Chain, candidate: Config, refusals: set<Refusal>, t: Target)
    requires InEffect(c) && WellFormed(c) && Classified(candidate) && Changed(c.applied, candidate, ClassReject) == {}
    requires t in c.live && !Planned(t, Changed(c.applied, candidate, ClassHot))
    requires ApplyStep(c, candidate, refusals).1.result == Degraded
    ensures var d := ApplyStep(c, candidate, refusals).0; t in d.live && d.live[t] == Projection(candidate, t)
  {
    UnplannedKeepsProjection(c.applied, candidate, t);
  }

  lemma SuccessRepairs(d: Chain, candidate: Config, refusals: set<Refusal>)
    requires forall t :: t in d.live && !Planned(t, Changed(d.applied, candidate, ClassHot)) ==>
             d.live[t] == Projection(candidate, t)
    ensures var (e, v) := ApplyStep(d, candidate, refusals); v.result == Ok ==> InEffect(e) && e.applied == candidate
  {}

  /** What a degraded reload leaves: the old configuration on record, and outside the plan the values of
      either configuration, which are the same there. */
  lemma DegradedLeaves(c: Chain, candidate: Config, refusals: set<Refusal>)
    requires InEffect(c) && WellFormed(c) && Classified(candidate) && Changed(c.applied, candidate, ClassReject) == {}
    ensures var (d, v) := ApplyStep(c, candidate, refusals);
      v.result == Degraded ==>
        && !InEffect(d) && d.applied == c.applied
        && forall t :: t in d.live && !Planned(t, Changed(d.applied, candidate, ClassHot)) ==>
           d.live[t] == Projection(candidate, t)
  {
    var (d, v) := ApplyStep(c, candidate, refusals);
    if v.result == Degraded {
      ApplySettles(c, candidate, refusals);
      assert d.live.Keys == c.live.Keys;
      forall t | t in d.live && !Planned(t, Changed(c.applied, candidate, ClassHot))
        ensures d.live[t] == Projection(candidate, t)
      {
        UnplannedAgree(c, candidate, refusals, t);
      }
    }
  }

  /** A successful reload of the same candidate repairs everything a degraded one left behind. */
  lemma RepairTakesTheCandidate(c: Chain, candidate: Config, refusals: set<Refusal>, again: set<Refusal>)
    requires InEffect(c) && WellFormed(c) && Classified(candidate) && Changed(c.applied, candidate, ClassReject) == {}
    ensures var (d, v) := ApplyStep(c, candidate, refusals);
      var (e, w) := ApplyStep(d, candidate, again);
      v.result == Degraded && w.result == Ok ==> InEffect(e) && e.applied == candidate
  {
    var (d, v) := ApplyStep(c, candidate, refusals);
    DegradedLeaves(c, candidate, refusals);
    if v.result == Degraded { SuccessRepairs(d, candidate, again); }
  }

  // ---------- The chain itself ----------

  ghost predicate InTableOrder(plan: seq<Target>) {
    forall i, j :: 0 <= i < j < |plan| ==> Rank(plan[i]) < Rank(plan[j])
  }

  ghost predicate IsPlan(plan: seq<Target>, hot: set<string>) {
    InTableOrder(plan) && forall t :: t in plan <==> Planned(t, hot)
  }

  ghost function BoundAt(plan: seq<Target>, i: nat): nat {
    if i < |plan| then Rank(plan[i]) else |TABLE|
  }

  /** The planned steps before the i-th are exactly the planned ones of lower rank. */
  lemma PlanPrefix(plan: seq<Target>, hot: set<string>, i: nat, t: Target)
    requires IsPlan(plan, hot) && i <= |plan|
    ensures Planned(t, hot) && Rank(t) < BoundAt(plan, i) <==> t in plan[..i]
  {
    if t in plan {
      var k :| 0 <= k < |plan| && plan[k] == t;
      if k < i { assert plan[..i][k] == t; }
    }
  }

  lemma PlanNext(plan: seq<Target>, hot: set<string>, i: nat, t: Target)
    requires IsPlan(plan, hot) && i < |plan|
    ensures Planned(t, hot) && Rank(t) < BoundAt(plan, i + 1) <==>
            (Planned(t, hot) && Rank(t) < BoundAt(plan, i)) || t == plan[i]
  {
    PlanPrefix(plan, hot, i, t);
    PlanPrefix(plan, hot, i + 1, t);
    assert plan[..i + 1] == plan[..i] + [plan[i]];
  }

  lemma DiffListsChanges(change: ConfigChange<int>, before: Config, after: Config)
    requires IsDiff(change, before, after)
    ensures Listing(Paths(change.hot), Changed(before, after, ClassHot))
    ensures Listing(Paths(change.restart), Changed(before, after, ClassRestart))
    ensures Listing(Paths(change.reject), Changed(before, after, ClassReject))
  {
    forall p ensures Differs(before, after, p) ==> p in before.Keys + after.Keys {}
    forall p
      ensures p in Paths(change.hot) <==> p in Changed(before, after, ClassHot)
      ensures p in Paths(change.restart) <==> p in Changed(before, after, ClassRestart)
      ensures p in Paths(change.reject) <==> p in Changed(before, after, ClassReject)
    {
      InBucket(change, before, after, p);
    }
  }

  lemma RankAt(i: nat)
    requires i < |TABLE|
    ensures forall t :: Rank(t) == i <==> t == TABLE[i]
  {}

  /** The hot keys that no step has claimed. */
  method Unclaimed(hot: seq<string>, claimed: set<string>) returns (unmatched: seq<string>)
    ensures Elements(unmatched) == Elements(hot) - claimed
  {
    unmatched := [];
    for i := 0 to |hot|
      invariant forall p :: p in unmatched <==> p in hot[..i] && p !in claimed
    {
      assert hot[..i + 1] == hot[..i] + [hot[i]];
      if hot[i] !in claimed {
        unmatched := unmatched + [hot[i]];
      }
    }
    assert hot[..|hot|] == hot;
  }

  /** The steps of the table that claim some hot key, in table order, and the keys nobody claims. */
  method BuildPlan(hot: seq<string>) returns (plan: seq<Target>, unmatched: seq<string>)
    ensures IsPlan(plan, Elements(hot)) && Elements(unmatched) == Unmatched(Elements(hot))
  {
    plan := [];
    var claimed: set<string> := {};
    for i := 0 to |TABLE|
      invariant InTableOrder(plan)
      invariant forall t :: t in plan <==> Planned(t, Elements(hot)) && Rank(t) < i
      invariant claimed == set p, t | p in hot && t in TABLE && Rank(t) < i && Claims(t, p) :: p
    {
      var matched := set p | p in hot && Claims(TABLE[i], p);
      claimed := claimed + matched;
      RankAt(i);
      assert matched != {} <==> Planned(TABLE[i], Elements(hot)) by {
        if Planned(TABLE[i], Elements(hot)) {
          var p :| p in Elements(hot) && Claims(TABLE[i], p);
          assert p in matched;
        }
      }
      if matched != {} {
        plan := plan + [TABLE[i]];
      }
    }
    unmatched := Unclaimed(hot, claimed);
    forall p | p in hot ensures p in claimed <==> p !in Unmatched(Elements(hot)) {
      if p in claimed { var t :| t in TABLE && Claims(t, p); }
    }
  }

  /** A report as it is handed to the watcher, with the keys in ascending order. */
  datatype Report = Report(result: Result, appliedKeys: seq<string>, ignoredKeys: seq<string>,
                           rejectedKeys: seq<string>)
  {
    ghost predicate Says(v: Verdict) {
      && result == v.result && Listing(appliedKeys, v.applied) && Listing(ignoredKeys, v.ignored)
         && Listing(rejectedKeys, v.rejected)
    }
  }

  /** What the forward pass has left after the steps before `bound`. */
  ghost predicate AppliedUpTo(c: Chain, candidate: Config, hot: set<string>, bound: nat, live: map<Target, Config>,
                              undo: seq<Target>, ignored: set<string>) {
    && live == Advanced(c, candidate, hot, bound)
    && InTableOrder(undo) && (forall t :: t in undo <==> t in c.live && Done(c, hot, bound, t))
    && ignored == Skipped(c, hot, bound)
  }

  lemma AdvancedNext(c: Chain, candidate: Config, hot: set<string>, plan: seq<Target>, i: nat)
    requires IsPlan(plan, hot) && i < |plan|
    ensures var before, after := Advanced(c, candidate, hot, BoundAt(plan, i)),
            Advanced(c, candidate, hot, BoundAt(plan, i + 1));
      after == if plan[i] in c.live then before[plan[i] := Projection(candidate, plan[i])] else before
  {
    var before, after := Advanced(c, candidate, hot, BoundAt(plan, i)),
      Advanced(c, candidate, hot, BoundAt(plan, i + 1));
    assert plan[i] in plan;
    forall t | t in c.live ensures after[t] == if t == plan[i] then Projection(candidate, t) else before[t] {
      PlanNext(plan, hot, i, t);
    }
    assert after.Keys == before.Keys == c.live.Keys;
  }

  lemma StepOver(c: Chain, candidate: Config, hot: set<string>, plan: seq<Target>, i: nat, live: map<Target, Config>,
                 undo: seq<Target>, ignored: set<string>)
    requires IsPlan(plan, hot) && i < |plan| && plan[i] !in c.live
    requires AppliedUpTo(c, candidate, hot, BoundAt(plan, i), live, undo, ignored)
    ensures var matched := set p | p in hot && Claims(plan[i], p);
      AppliedUpTo(c, candidate, hot, BoundAt(plan, i + 1), live, undo,
                  if Missing(plan[i]) == IsIgnored then ignored + matched else ignored)
  {
    forall t | t in c.live ensures Done(c, hot, BoundAt(plan, i + 1), t) <==> Done(c, hot, BoundAt(plan, i), t) {
      PlanNext(plan, hot, i, t);
    }
    AdvancedNext(c, candidate, hot, plan, i);
    SkippedNext(c, hot, plan, i);
  }

  lemma SkippedNext(c: Chain, hot: set<string>, plan: seq<Target>, i: nat)
    requires IsPlan(plan, hot) && i < |plan|
    ensures var matched := set p | p in hot && Claims(plan[i], p);
      Skipped(c, hot, BoundAt(plan, i + 1)) ==
      Skipped(c, hot, BoundAt(plan, i)) + if plan[i] !in c.live && Missing(plan[i]) == IsIgnored then matched else {}
  {
    var matched := set p | p in hot && Claims(plan[i], p);
    forall p, t | p in hot && t in TABLE && Claims(t, p)
      ensures Rank(t) < BoundAt(plan, i + 1) <==> Rank(t) < BoundAt(plan, i) || t == plan[i]
    {
      PlanNext(plan, hot, i, t);
    }
    assert plan[i] in TABLE by { assert TABLE[Rank(plan[i])] == plan[i]; }
  }

  lemma UndoNext(c: Chain, hot: set<string>, plan: seq<Target>, i: nat, undo: seq<Target>)
    requires IsPlan(plan, hot) && i < |plan| && plan[i] in c.live
    requires InTableOrder(undo) && forall t :: t in undo <==> t in c.live && Done(c, hot, BoundAt(plan, i), t)
    ensures InTableOrder(undo + [plan[i]])
    ensures forall t :: t in undo + [plan[i]] <==> t in c.live && Done(c, hot, BoundAt(plan, i + 1), t)
  {
    assert plan[i] in plan;
    forall t ensures Done(c, hot, BoundAt(plan, i + 1), t) <==> Done(c, hot, BoundAt(plan, i), t) || t == plan[i] {
      PlanNext(plan, hot, i, t);
    }
    forall k | 0 <= k < |undo| ensures Rank(undo[k]) < Rank(plan[i]) { assert undo[k] in undo; }
  }

  lemma StepApplied(c: Chain, candidate: Config, hot: set<string>, plan: seq<Target>, i: nat, live: map<Target, Config>,
                    undo: seq<Target>, ignored: set<string>)
    requires IsPlan(plan, hot) && i < |plan| && plan[i] in c.live
    requires AppliedUpTo(c, candidate, hot, BoundAt(plan, i), live, undo, ignored)
    ensures AppliedUpTo(c, candidate, hot, BoundAt(plan, i + 1), live[plan[i] := Projection(candidate, plan[i])],
                        undo + [plan[i]], ignored)
  {
    UndoNext(c, hot, plan, i, undo);
    AdvancedNext(c, candidate, hot, plan, i);
    SkippedNext(c, hot, plan, i);
  }

  lemma NothingYet(c: Chain, candidate: Config, hot: set<string>, plan: seq<Target>)
    requires IsPlan(plan, hot)
    ensures AppliedUpTo(c, candidate, hot, BoundAt(plan, 0), c.live, [], {})
  {
    forall t ensures !(Planned(t, hot) && Rank(t) < BoundAt(plan, 0)) { PlanPrefix(plan, hot, 0, t); }
    forall p, t | p in hot && t in TABLE && Claims(t, p) && Rank(t) < BoundAt(plan, 0) ensures false {
      assert Planned(t, hot);
    }
    assert Advanced(c, candidate, hot, BoundAt(plan, 0)) == c.live;
  }

  lemma FirstRankIs(failing: set<Target>, bound: nat)
    requires bound <= |TABLE| && (bound < |TABLE| ==> TABLE[bound] in failing)
    requires forall t :: t in failing ==> Rank(t) >= bound
    ensures FirstRank(failing, 0) == bound
  {
    forall i: nat | i < |TABLE| ensures Rank(TABLE[i]) == i {}
  }

  function AfterPutBack(c: Chain, candidate: Config, t: Target, refusals: set<Refusal>): Config {
    if Refuses(t, c.applied, true, refusals) then Projection(candidate, t) else Projection(c.applied, t)
  }

  /** What the rollback has left when the steps from `j` on have been put back. */
  ghost predicate PutBackFrom(c: Chain, candidate: Config, undo: seq<Target>, j: nat, refusals: set<Refusal>,
                              live: map<Target, Config>, failures: nat)
    requires j <= |undo|
  {
    && live.Keys == c.live.Keys
    && (forall t :: t in c.live && t !in undo ==> live[t] == c.live[t])
    && (forall k :: 0 <= k < j && undo[k] in c.live ==> live[undo[k]] == Projection(candidate, undo[k]))
    && (forall k :: j <= k < |undo| && undo[k] in c.live ==>
        live[undo[k]] == AfterPutBack(c, candidate, undo[k], refusals))
    && (failures > 0 <==> exists k :: j <= k < |undo| && Refuses(undo[k], c.applied, true, refusals))
  }

  class Reloader {
    const hasPath: bool
    var applied: Config
    var live: map<Target, Config>
    var stopped: bool
    ghost var degraded: bool

    ghost function View(): Chain
      reads this
    {
      Chain(applied, live, hasPath, stopped, degraded)
    }

    constructor (applied: Config, live: map<Target, Config>, hasPath: bool)
      ensures View() == Chain(applied, live, hasPath, false, false)
    {
      this.applied, this.live, this.hasPath := applied, live, hasPath;
      stopped, degraded := false, false;
    }

    /** The landing point of the debounce window appears when the watcher does. */
    method BindDebounce(window: Config)
      modifies this`live
      ensures live == old(live)[Debounce := window]
    {
      live := live[Debounce := window];
    }

    method Stop()
      modifies this`stopped
      ensures View() == EventStep(old(View()), Event.Stop)
    {
      stopped := true;
    }

    /** One landing point, set to its part of a configuration or left as it is. */
    method RunStep(t: Target, cfg: Config, undo: bool, refusals: set<Refusal>) returns (ok: bool)
      requires t in live
      modifies this`live
      ensures ok <==> !Refuses(t, cfg, undo, refusals)
      ensures live == if ok then old(live)[t := Projection(cfg, t)] else old(live)
    {
      if t == Workers && WorkerCount(cfg) > MAX_HOT_WORKERS {
        return false;
      }
      ok := Refusal(t, undo) !in refusals;
      if ok {
        live := live[t := Projection(cfg, t)];
      }
    }

    /** Applies the plan in order until a step is refused. */
    method Forward(plan: seq<Target>, hot: seq<string>, candidate: Config, refusals: set<Refusal>)
      returns (undo: seq<Target>, ignored: set<string>, refused: bool)
      requires IsPlan(plan, Elements(hot))
      modifies this`live
      ensures var c, hotSet := old(View()), Elements(hot);
        var bound := FirstRank(Failing(c, candidate, hotSet, refusals), 0);
        && AppliedUpTo(c, candidate, hotSet, bound, live, undo, ignored)
        && (refused <==> bound < |TABLE|)
    {
      ghost var c, hotSet := View(), Elements(hot);
      ghost var failing := Failing(c, candidate, hotSet, refusals);
      undo, ignored, refused := [], {}, false;
      ghost var bound := |TABLE|;
      NothingYet(c, candidate, hotSet, plan);
      for i := 0 to |plan|
        invariant AppliedUpTo(c, candidate, hotSet, BoundAt(plan, i), live, undo, ignored)
        invariant forall t :: t in failing ==> Rank(t) >= BoundAt(plan, i)
        invariant !refused && bound == |TABLE|
      {
        var step := plan[i];
        if step !in live {
          StepOver(c, candidate, hotSet, plan, i, live, undo, ignored);
          if Missing(step) == IsIgnored {
            ignored := ignored + set p | p in hot && Claims(step, p);
          }
        } else {
          StepApplied(c, candidate, hotSet, plan, i, live, undo, ignored);
          var ok := RunStep(step, candidate, false, refusals);
          if !ok {
            refused, bound := true, BoundAt(plan, i);
            break;
          }
          undo := undo + [step];
        }
      }
      FirstRankIs(failing, bound);
    }

    /** Puts the applied steps back, the last one first, and counts the refusals. */
    method Rollback(undo: seq<Target>, refusals: set<Refusal>, ghost c: Chain, ghost candidate: Config)
      returns (failures: nat)
      requires InTableOrder(undo) && c.applied == applied && PutBackFrom(c, candidate, undo, |undo|, refusals, live, 0)
      requires forall t :: t in undo ==> t in c.live
      modifies this`live
      ensures PutBackFrom(c, candidate, undo, 0, refusals, live, failures)
    {
      failures := 0;
      for j := |undo| downto 0
        invariant PutBackFrom(c, candidate, undo, j, refusals, live, failures)
      {
        ghost var before, count := live, failures;
        var ok := RunStep(undo[j], applied, true, refusals);
        if !ok {
          failures := failures + 1;
        }
        PutBackNext(c, candidate, undo, j, refusals, before, count);
      }
    }

    method RollbackAll(undo: seq<Target>, refusals: set<Refusal>, ghost c: Chain, ghost candidate: Config,
                       ghost hot: set<string>, ghost bound: nat)
      returns (failures: nat)
      requires InTableOrder(undo) && c.applied == applied && live == Advanced(c, candidate, hot, bound)
      requires forall t :: t in undo <==> t in c.live && Done(c, hot, bound, t)
      modifies this`live
      ensures live == RolledBack(c, candidate, hot, bound, refusals)
      ensures failures > 0 <==> Unrestored(c, hot, bound, refusals) != {}
    {
      ForwardIsPutBack(c, candidate, hot, bound, live, undo, refusals);
      failures := Rollback(undo, refusals, c, candidate);
      PutBackIsRolledBack(c, candidate, hot, bound, live, undo, failures, refusals);
    }

    method Commit(hot: seq<string>, ignored: set<string>, ignoredKeys: seq<string>, candidate: Config,
                  ghost c: Chain, ghost restart: set<string>, ghost refusals: set<Refusal>) returns (report: Report)
      requires SortedBy(Before, hot) && Listing(ignoredKeys, restart + ignored)
      requires FirstRank(Failing(c, candidate, Elements(hot), refusals), 0) == |TABLE|
      requires View() == c.(live := Advanced(c, candidate, Elements(hot), |TABLE|))
               && ignored == Skipped(c, Elements(hot), |TABLE|)
      modifies this`applied
      ensures var (d, v) := PlanStep(c, candidate, Elements(hot), restart, refusals); View() == d && report.Says(v)
    {
      var appliedKeys := Except(hot, ignored);
      applied := candidate;
      report := Report(Ok, appliedKeys, ignoredKeys, []);
      CommitIsStep(c, candidate, Elements(hot), restart, refusals, live, ignored, report);
    }

    method Abandon(undo: seq<Target>, ignoredKeys: seq<string>, candidate: Config, refusals: set<Refusal>,
                   ghost c: Chain, ghost hot: set<string>, ghost restart: set<string>, ghost ignored: set<string>)
      returns (report: Report)
      requires var bound := FirstRank(Failing(c, candidate, hot, refusals), 0);
        bound < |TABLE| && View() == c.(live := live) && AppliedUpTo(c, candidate, hot, bound, live, undo, ignored)
      requires Listing(ignoredKeys, restart + ignored)
      modifies this`live, this`degraded
      ensures var (d, v) := PlanStep(c, candidate, hot, restart, refusals); View() == d && report.Says(v)
    {
      var failures :=
        RollbackAll(undo, refusals, c, candidate, hot, FirstRank(Failing(c, candidate, hot, refusals), 0));
      degraded := degraded || failures > 0;
      report := Report(if failures > 0 then Degraded else Failed, [], ignoredKeys, []);
      RollbackIsStep(c, candidate, hot, restart, refusals, live, ignored, failures, report);
    }

    /** The steps in order, and the rollback when one is refused. */
    method ApplyPlan(plan: seq<Target>, hot: seq<string>, restart: seq<string>, candidate: Config,
                     refusals: set<Refusal>)
      returns (report: Report)
      requires IsPlan(plan, Elements(hot)) && SortedBy(Before, hot)
      modifies this`live, this`applied, this`degraded
      ensures var (d, v) := PlanStep(old(View()), candidate, Elements(hot), Elements(restart), refusals);
        View() == d && report.Says(v)
    {
      ghost var c := View();
      var undo, ignored, refused := Forward(plan, hot, candidate, refusals);
      var ignoredKeys := SortStrings(Elements(restart) + ignored);
      if refused {
        report := Abandon(undo, ignoredKeys, candidate, refusals, c, Elements(hot), Elements(restart), ignored);
      } else {
        report := Commit(hot, ignored, ignoredKeys, candidate, c, Elements(restart), refusals);
      }
    }

    /** The whole apply pass: both checks come before anything moves. */
    method ApplyChange(hot: seq<string>, restart: seq<string>, candidate: Config, refusals: set<Refusal>)
      returns (report: Report)
      requires Listing(hot, Changed(applied, candidate, ClassHot))
               && Listing(restart, Changed(applied, candidate, ClassRestart))
      modifies this`live, this`applied, this`degraded
      ensures var (d, v) := ApplyStep(old(View()), candidate, refusals); View() == d && report.Says(v)
    {
      var plan, unmatched := BuildPlan(hot);
      assert Elements(hot) == Changed(applied, candidate, ClassHot)
        && Elements(restart) == Changed(applied, candidate, ClassRestart);
      assert unmatched == [] <==> Elements(unmatched) == {} by {
        if unmatched != [] { assert unmatched[0] in Elements(unmatched); }
      }
      LackingIff(View(), Elements(hot), plan);
      if unmatched != [] || exists t <- plan :: t !in live && Missing(t) == FailsAll {
        report := Report(Failed, [], restart, []);
      } else {
        report := ApplyPlan(plan, hot, restart, candidate, refusals);
      }
    }

    /** One reload of what is in the file. */
    method Reload(file: File, refusals: set<Refusal>) returns (report: Report)
      modifies this`live, this`applied, this`degraded
      ensures var (d, v) := Step(old(View()), file, refusals); View() == d && report.Says(v)
    {
      if stopped {
        return Report(Nothing, [], [], []);
      }
      if !hasPath || !file.Parsed? {
        return Report(Rejected, [], [], []);
      }
      var change := Diff(applied, file.candidate);
      DiffListsChanges(change, applied, file.candidate);
      assert change.HasRejections() <==> Changed(applied, file.candidate, ClassReject) != {} by {
        EmptyListing(Paths(change.reject), Changed(applied, file.candidate, ClassReject));
      }
      if change.HasRejections() {
        return Report(Rejected, [], [], Paths(change.reject));
      }
      EmptyListing(Paths(change.hot), Changed(applied, file.candidate, ClassHot));
      EmptyListing(Paths(change.restart), Changed(applied, file.candidate, ClassRestart));
      if !change.HasChanges() {
        return Report(Unchanged, [], [], []);
      }
      report := ApplyChange(Paths(change.hot), Paths(change.restart), file.candidate, refusals);
    }
  }

  lemma CommitIsStep(c: Chain, candidate: Config, hot: set<string>, restart: set<string>, refusals: set<Refusal>,
                     live: map<Target, Config>, ignored: set<string>, report: Report)
    requires FirstRank(Failing(c, candidate, hot, refusals), 0) == |TABLE|
    requires live == Advanced(c, candidate, hot, |TABLE|) && ignored == Skipped(c, hot, |TABLE|)
    requires report.Says(Verdict(Ok, hot - ignored, restart + ignored, {}))
    ensures var (d, v) := PlanStep(c, candidate, hot, restart, refusals);
      d == c.(applied := candidate, live := live) && report.Says(v)
  {}

  lemma RollbackIsStep(c: Chain, candidate: Config, hot: set<string>, restart: set<string>, refusals: set<Refusal>,
                       live: map<Target, Config>, ignored: set<string>, failures: nat, report: Report)
    requires var bound := FirstRank(Failing(c, candidate, hot, refusals), 0);
      && bound < |TABLE| && live == RolledBack(c, candidate, hot, bound, refusals) && ignored == Skipped(c, hot, bound)
      && (failures > 0 <==> Unrestored(c, hot, bound, refusals) != {})
    requires report.Says(Verdict(if failures > 0 then Degraded else Failed, {}, restart + ignored, {}))
    ensures var (d, v) := PlanStep(c, candidate, hot, restart, refusals);
      d == c.(live := live, degraded := c.degraded || failures > 0) && report.Says(v)
  {}

  lemma EmptyListing(keys: seq<string>, s: set<string>)
    requires Listing(keys, s)
    ensures keys == [] <==> s == {}
  {
    if keys != [] { assert keys[0] in s; }
    if s != {} { var p :| p in s; assert p in keys; }
  }

  lemma PutBackNext(c: Chain, candidate: Config, undo: seq<Target>, j: nat, refusals: set<Refusal>,
                    live: map<Target, Config>, failures: nat)
    requires j < |undo| && InTableOrder(undo) && undo[j] in c.live
    requires PutBackFrom(c, candidate, undo, j + 1, refusals, live, failures)
    ensures var refused := Refuses(undo[j], c.applied, true, refusals);
      PutBackFrom(c, candidate, undo, j, refusals,
                  if refused then live else live[undo[j] := Projection(c.applied, undo[j])],
                  if refused then failures + 1 else failures)
  {
    DistinctInOrder(undo, j);
    if Refuses(undo[j], c.applied, true, refusals) {
      PutBackRefused(c, candidate, undo, j, refusals, live, failures);
    } else {
      PutBackDone(c, candidate, undo, j, refusals, live, failures);
    }
  }

  lemma PutBackRefused(c: Chain, candidate: Config, undo: seq<Target>, j: nat, refusals: set<Refusal>,
                       live: map<Target, Config>, failures: nat)
    requires j < |undo| && undo[j] in c.live && Refuses(undo[j], c.applied, true, refusals)
    requires PutBackFrom(c, candidate, undo, j + 1, refusals, live, failures)
    ensures PutBackFrom(c, candidate, undo, j, refusals, live, failures + 1)
  {
    assert live[undo[j]] == AfterPutBack(c, candidate, undo[j], refusals);
  }

  lemma PutBackDone(c: Chain, candidate: Config, undo: seq<Target>, j: nat, refusals: set<Refusal>,
                    live: map<Target, Config>, failures: nat)
    requires j < |undo| && undo[j] in c.live && !Refuses(undo[j], c.applied, true, refusals)
    requires forall k :: 0 <= k < |undo| && k != j ==> undo[k] != undo[j]
    requires PutBackFrom(c, candidate, undo, j + 1, refusals, live, failures)
    ensures PutBackFrom(c, candidate, undo, j, refusals, live[undo[j] := Projection(c.applied, undo[j])], failures)
  {
    assert undo[j] in undo;
    var next := live[undo[j] := Projection(c.applied, undo[j])];
    assert next[undo[j]] == AfterPutBack(c, candidate, undo[j], refusals);
    assert forall k :: 0 <= k < |undo| && k != j && undo[k] in c.live ==> next[undo[k]] == live[undo[k]];
  }

  lemma DistinctInOrder(undo: seq<Target>, j: nat)
    requires j < |undo| && InTableOrder(undo)
    ensures forall k :: 0 <= k < |undo| && k != j ==> undo[k] != undo[j]
  {
    forall k | 0 <= k < |undo| && k != j ensures undo[k] != undo[j] {
      if k < j { assert Rank(undo[k]) < Rank(undo[j]); } else { assert Rank(undo[j]) < Rank(undo[k]); }
    }
  }

  lemma LackingIff(c: Chain, hot: set<string>, plan: seq<Target>)
    requires IsPlan(plan, hot)
    ensures (exists t <- plan :: t !in c.live && Missing(t) == FailsAll) <==> LacksEntry(c, hot)
  {
    if LacksEntry(c, hot) {
      var t :| t in TABLE && t !in c.live && Missing(t) == FailsAll && Planned(t, hot);
      assert t in plan;
    }
    if exists t <- plan :: t !in c.live && Missing(t) == FailsAll {
      var t :| t in plan && t !in c.live && Missing(t) == FailsAll;
      assert TABLE[Rank(t)] == t;
    }
  }

  lemma ForwardIsPutBack(c: Chain, candidate: Config, hot: set<string>, bound: nat, live: map<Target, Config>,
                         undo: seq<Target>, refusals: set<Refusal>)
    requires live == Advanced(c, candidate, hot, bound)
             && forall t :: t in undo <==> t in c.live && Done(c, hot, bound, t)
    ensures PutBackFrom(c, candidate, undo, |undo|, refusals, live, 0)
  {
    forall k | 0 <= k < |undo| ensures undo[k] in c.live && Done(c, hot, bound, undo[k]) { assert undo[k] in undo; }
  }

  lemma PutBackIsRolledBack(c: Chain, candidate: Config, hot: set<string>, bound: nat, live: map<Target, Config>,
                            undo: seq<Target>, failures: nat, refusals: set<Refusal>)
    requires PutBackFrom(c, candidate, undo, 0, refusals, live, failures)
    requires forall t :: t in undo <==> t in c.live && Done(c, hot, bound, t)
    ensures live == RolledBack(c, candidate, hot, bound, refusals)
    ensures failures > 0 <==> Unrestored(c, hot, bound, refusals) != {}
  {
    forall t | t in c.live ensures live[t] == if t in undo then AfterPutBack(c, candidate, t, refusals) else c.live[t] {
      if t in undo { var k :| 0 <= k < |undo| && undo[k] == t; }
    }
    if failures > 0 {
      var k :| 0 <= k < |undo| && Refuses(undo[k], c.applied, true, refusals);
      assert undo[k] in undo;
      assert undo[k] in Unrestored(c, hot, bound, refusals);
    }
    if Unrestored(c, hot, bound, refusals) != {} {
      var t :| t in Unrestored(c, hot, bound, refusals);
      var k :| 0 <= k < |undo| && undo[k] == t;
    }
  }

  /** What of the hot keys was not skipped, in the same order. */
  method Except(hot: seq<string>, ignored: set<string>) returns (kept: seq<string>)
    requires SortedBy(Before, hot)
    ensures Listing(kept, Elements(hot) - ignored)
  {
    kept := [];
    for i := 0 to |hot|
      invariant SortedBy(Before, kept) && forall p :: p in kept <==> p in hot[..i] && p !in ignored
    {
      assert hot[..i + 1] == hot[..i] + [hot[i]];
      if hot[i] !in ignored {
        forall k | 0 <= k < |kept| ensures Before(kept[k], hot[i]) { assert kept[k] in hot[..i]; }
        kept := kept + [hot[i]];
      }
    }
    assert hot[..|hot|] == hot;
  }
}