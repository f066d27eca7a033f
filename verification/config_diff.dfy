/** Classification and comparison of two configurations for hot reload (core/config_reload.go).
    A configuration is the map from leaf path to value that flattening produces. */
module ConfigDiffs {
  import opened Jobs
  import opened Ordering
  import opened Texts

  const COMMANDS := "executors.commands"

  datatype ConfigClass = ClassHot | ClassRestart | ClassReject

  const HOT_PATHS: set<string> := {
    "logging.level", "scheduler.workers", "scheduler.max_retry_delay", "store.history_limit", "store.history_ttl",
    "observability.events.retention_count", "observability.events.retention_age",
    "observability.audit.retention_count", "observability.audit.retention_age",
    "executors.commands", "reload.debounce"}

  const RESTART_BASE: set<string> := {
    "server.port", "server.cors.allow_origins", "server.cors.allow_credentials",
    "server.auth.jwt.access_ttl", "server.auth.jwt.refresh_ttl",
    "scheduler.queue_capacity", "scheduler.shutdown_timeout", "logging.format", "reload.enabled",
    "store.type", "store.path", "store.flush_interval", "store.groups_path"}

  const RESTART_OBSERVABILITY: set<string> := {
    "observability.enabled", "observability.path", "observability.flush_interval", "observability.queue_capacity",
    "observability.busy_timeout", "observability.synchronous", "observability.events.enabled",
    "observability.artifacts.enabled", "observability.audit.enabled"}

  const RESTART_EXECUTORS: set<string> := {
    "executors.enabled", "executors.required_role", "executors.workspace", "executors.runtime_allow",
    "executors.env_allow", "executors.concurrency", "executors.queue_capacity", "executors.default_timeout",
    "executors.max_timeout", "executors.restore_policy", "executors.loader_allow", "executors.web_enabled",
    "executors.profiles_path"}

  const RESTART_EXECUTOR_PARTS: set<string> := {
    "executors.adhoc.enabled", "executors.adhoc.shell_runtime", "executors.adhoc.path_prefixes",
    "executors.adhoc.require_extension", "executors.adhoc.url_hosts", "executors.adhoc.url_allow_private",
    "executors.adhoc.http_timeout", "executors.output.inline_preview", "executors.output.max_bytes",
    "executors.output.dir", "executors.output.ttl"}

  predicate IsRestart(path: string) {
    path in RESTART_BASE || path in RESTART_OBSERVABILITY || path in RESTART_EXECUTORS || path in RESTART_EXECUTOR_PARTS
  }

  const PERMISSION_FIELDS: set<string> := {
    "kind", "runtime", "script", "program", "fixed_args", "cwd", "env", "env_allow", "method", "url_template",
    "allowed_hosts", "headers", "header_allow", "deny_private_ranges", "max_redirects"}

  const HOT_FIELDS: set<string> := {
    "name", "timeout", "max_parallel", "retry_on_exit", "args", "args_render", "positional", "body",
    "expect_status", "capture_response", "max_body_bytes"}

  // ---------- Paths of command entries ----------

  predicate Within(path: string, prefix: string) {
    path == prefix || prefix + "." <= path
  }

  predicate IsCommandPath(path: string) {
    Within(path, COMMANDS)
  }

  /** A string that can stand as one segment of a path. */
  predicate Segment(s: string) {
    s != "" && '.' !in s
  }

  function Join(name: string, field: string): string {
    name + ['.'] + field
  }

  /** The path of a leaf inside an entry of the list at `list`. */
  function LeafPath(list: string, name: string, field: string): (r: string)
    ensures list + "." <= r && r[|list| + 1..] == Join(name, field)
  {
    list + "." + Join(name, field)
  }

  function SplitLeaf(rest: string): Option<(string, string)> {
    var (name, below, found) := Cut(rest, '.');
    if !found || name == "" then None
    else
      var (field, _, _) := Cut(below, '.');
      if field == "" then None else Some((name, field))
  }

  function SplitUnder(list: string, path: string): Option<(string, string)> {
    if list + "." <= path then SplitLeaf(path[|list| + 1..]) else None
  }

  /** The entry and field names of a path inside a command entry. */
  function SplitCommandLeaf(path: string): Option<(string, string)> {
    SplitUnder(COMMANDS, path)
  }

  /** The path segment of an entry: its trimmed name, or its index when the name is empty or dotted. */
  function CommandEntryName(name: string, index: nat): (r: string)
    ensures Segment(r)
  {
    var trimmed := Trim(name);
    if trimmed != "" && '.' !in trimmed then trimmed else "#" + Decimal(index)
  }

  lemma {:induction false} FirstPart(field: string, rest: string)
    requires '.' !in field && (rest == "" || rest[0] == '.')
    ensures Cut(field + rest, '.').0 == field
    decreases |field|
  {
    var whole := field + rest;
    if field == "" {
      assert whole == rest;
    } else {
      assert whole[0] == field[0] && whole[1..] == field[1..] + rest;
      FirstPart(field[1..], rest);
      assert [field[0]] + field[1..] == field;
    }
  }

  lemma SplitOfSegments(name: string, field: string, rest: string)
    requires Segment(name) && Segment(field) && (rest == "" || rest[0] == '.')
    ensures SplitLeaf(Join(name, field + rest)) == Some((name, field))
  {
    var below := field + rest;
    FirstPart(field, rest);
    CutOfJoin(name, '.', below);
  }

  /** Splitting inverts joining for every entry, named or not, whether or not the field has parts of its own. */
  lemma SplitOfJoin(list: string, name: string, index: nat, field: string, rest: string)
    requires Segment(field) && (rest == "" || rest[0] == '.')
    ensures var entry := CommandEntryName(name, index);
      SplitUnder(list, LeafPath(list, entry, field + rest)) == Some((entry, field))
  {
    SplitOfSegments(CommandEntryName(name, index), field, rest);
  }

  ghost predicate JoinedBy(list: string, path: string, name: string, field: string, rest: string) {
    Segment(name) && Segment(field) && (rest == "" || rest[0] == '.') && path == LeafPath(list, name, field + rest)
  }

  /** A path splits into a name and a field exactly when it is a join of those two segments. */
  lemma SplitIffJoined(list: string, path: string, name: string, field: string)
    ensures SplitUnder(list, path) == Some((name, field)) <==> exists rest :: JoinedBy(list, path, name, field, rest)
  {
    if SplitUnder(list, path) == Some((name, field)) {
      var rest := SplitGivesJoin(list, path, name, field);
    }
    if exists rest :: JoinedBy(list, path, name, field, rest) {
      var rest :| JoinedBy(list, path, name, field, rest);
      SplitOfSegments(name, field, rest);
    }
  }

  lemma SplitGivesJoin(list: string, path: string, name: string, field: string) returns (rest: string)
    requires SplitUnder(list, path) == Some((name, field))
    ensures JoinedBy(list, path, name, field, rest)
  {
    PathOfTail(list, path);
    rest := SplitIsJoin(path[|list| + 1..], name, field);
  }

  lemma PathOfTail(list: string, path: string)
    requires list + "." <= path
    ensures path == list + "." + path[|list| + 1..]
  {}

  lemma SplitIsJoin(tail: string, name: string, field: string) returns (rest: string)
    requires SplitLeaf(tail) == Some((name, field))
    ensures Segment(name) && Segment(field) && (rest == "" || rest[0] == '.') && tail == Join(name, field + rest)
  {
    var below := Cut(tail, '.').1;
    rest := below[|field|..];
    assert below == field + rest;
  }

  /** Two entries that fall back to their index never share a path segment, so neither overwrites the
      other; a fallback meets a named entry only if that entry is literally called "#i". */
  lemma FallbackNamesApart(name: string, i: nat, other: string, j: nat)
    requires i != j && CommandEntryName(name, i) == "#" + Decimal(i)
    ensures CommandEntryName(other, j) == CommandEntryName(name, i) ==> Trim(other) == "#" + Decimal(i)
  {
    if CommandEntryName(other, j) == CommandEntryName(name, i) && CommandEntryName(other, j) == "#" + Decimal(j) {
      assert ("#" + Decimal(i))[1..] == Decimal(i) && ("#" + Decimal(j))[1..] == Decimal(j);
      DecimalInjective(i, j);
    }
  }

  /** Leaves of different entries, or different fields of one entry, never share a path. */
  lemma PathsApart(list: string, name: string, field: string, other: string, field': string)
    requires Segment(name) && Segment(other) && LeafPath(list, name, field) == LeafPath(list, other, field')
    ensures name == other && field == field'
  {
    CutOfJoin(name, '.', field);
    CutOfJoin(other, '.', field');
  }

  // ---------- Classification ----------

  predicate IsCredential(path: string) {
    Within(path, "server.auth.token") || Within(path, "server.auth.users") || Within(path, "server.auth.jwt.secret")
  }

  function FieldClass(leaf: Option<(string, string)>): Option<ConfigClass> {
    match leaf
    case None => None
    case Some((_, field)) =>
      if field in PERMISSION_FIELDS then Some(ClassReject)
      else if field in HOT_FIELDS then Some(ClassHot)
      else None
  }

  function FirstClass(listedHot: bool, listedRestart: bool, credential: bool,
                      byField: Option<ConfigClass>): Option<ConfigClass> {
    if listedHot then Some(ClassHot)
    else if listedRestart then Some(ClassRestart)
    else if credential then Some(ClassReject)
    else byField
  }

  /** The class of a leaf path, None when nobody has classified it: the exact path first, then the
      credential prefixes, then the field of a command entry. */
  function Classify(path: string): Option<ConfigClass> {
    FirstClass(path in HOT_PATHS, IsRestart(path), IsCredential(path), FieldClass(SplitCommandLeaf(path)))
  }

  /** Adding or removing an entry is a hot change whatever its fields; an unclassified key waits for a restart. */
  function ClassifyChange(path: string, oldEntries: set<string>, newEntries: set<string>): ConfigClass {
    ChangeClass(Classify(path), SplitCommandLeaf(path), oldEntries, newEntries)
  }

  function ChangeClass(classified: Option<ConfigClass>, leaf: Option<(string, string)>, oldEntries: set<string>,
                       newEntries: set<string>): ConfigClass {
    if leaf.Some? && !(leaf.value.0 in oldEntries && leaf.value.0 in newEntries) then ClassHot
    else
      match classified
      case None => ClassRestart
      case Some(c) => c
  }

  lemma CommandShape(path: string)
    requires COMMANDS + "." <= path
    ensures |path| > 18 && path[0] == 'e' && path[12] == 'm' && path[18] == '.'
  {
    assert path[0] == (COMMANDS + ".")[0] && path[12] == (COMMANDS + ".")[12] && path[18] == (COMMANDS + ".")[18];
  }

  lemma CredentialShape(path: string)
    requires IsCredential(path)
    ensures |path| > 16 && path[0] == 's' && path[1] == 'e' && path[7] == 'a' && path[12] in "tuj"
    ensures path[12] == 'j' ==> |path| >= 22 && path[16] == 's'
  {}

  lemma CommandLeavesAreNotListed(path: string)
    requires COMMANDS + "." <= path
    ensures path !in HOT_PATHS && !IsRestart(path) && !IsCredential(path)
  {
    CommandShape(path);
    assert path !in RESTART_BASE;
    assert path !in RESTART_OBSERVABILITY;
    assert path !in RESTART_EXECUTORS;
    assert path !in RESTART_EXECUTOR_PARTS;
    if IsCredential(path) {
      CredentialShape(path);
      assert false;
    }
  }

  lemma CredentialsAreNotBase(path: string)
    requires IsCredential(path)
    ensures path !in RESTART_BASE
  {
    CredentialShape(path);
  }

  lemma CredentialsAreNotRestart(path: string)
    requires IsCredential(path)
    ensures !IsRestart(path)
  {
    CredentialShape(path);
    CredentialsAreNotBase(path);
    assert path !in RESTART_OBSERVABILITY;
    assert path !in RESTART_EXECUTORS;
    assert path !in RESTART_EXECUTOR_PARTS;
  }

  lemma CredentialsAreNotListed(path: string)
    requires IsCredential(path)
    ensures path !in HOT_PATHS && !IsRestart(path) && SplitCommandLeaf(path) == None
  {
    CredentialShape(path);
    CredentialsAreNotRestart(path);
    if COMMANDS + "." <= path {
      CommandShape(path);
      assert false;
    }
  }

  lemma PermissionClass(path: string, name: string, field: string, oldEntries: set<string>, newEntries: set<string>)
    requires SplitCommandLeaf(path) == Some((name, field)) && field in PERMISSION_FIELDS
    ensures IsCommandPath(path)
    ensures ClassifyChange(path, oldEntries, newEntries) ==
            if name in oldEntries && name in newEntries then ClassReject else ClassHot
  {
    CommandLeavesAreNotListed(path);
  }

  lemma CredentialClass(path: string, oldEntries: set<string>, newEntries: set<string>)
    requires IsCredential(path)
    ensures ClassifyChange(path, oldEntries, newEntries) == ClassReject
  {
    CredentialsAreNotListed(path);
  }

  /** The path is a permission field of a command entry that exists on both sides. */
  predicate LocksEntry(path: string, oldEntries: set<string>, newEntries: set<string>) {
    var leaf := SplitCommandLeaf(path);
    leaf.Some? && leaf.value.0 in oldEntries && leaf.value.0 in newEntries && leaf.value.1 in PERMISSION_FIELDS
  }

  lemma RejectedByField(hot: bool, restart: bool, leaf: Option<(string, string)>, oldEntries: set<string>,
                        newEntries: set<string>)
    requires ChangeClass(FirstClass(hot, restart, false, FieldClass(leaf)), leaf, oldEntries, newEntries) == ClassReject
    ensures leaf.Some? && leaf.value.0 in oldEntries && leaf.value.0 in newEntries && leaf.value.1 in PERMISSION_FIELDS
  {}

  /** A change voids the whole reload exactly when it touches a credential, or a permission field of a
      command entry that exists on both sides. */
  lemma RejectedIff(path: string, oldEntries: set<string>, newEntries: set<string>)
    ensures ClassifyChange(path, oldEntries, newEntries) == ClassReject <==>
            IsCredential(path) || LocksEntry(path, oldEntries, newEntries)
  {
    if IsCredential(path) {
      CredentialClass(path, oldEntries, newEntries);
    } else if LocksEntry(path, oldEntries, newEntries) {
      var leaf := SplitCommandLeaf(path).value;
      PermissionClass(path, leaf.0, leaf.1, oldEntries, newEntries);
    } else if ClassifyChange(path, oldEntries, newEntries) == ClassReject {
      RejectedByField(path in HOT_PATHS, IsRestart(path), SplitCommandLeaf(path), oldEntries, newEntries);
    }
  }

  /** And takes effect at once exactly when the path is a listed one, or a leaf of a command entry that is
      being added or removed, or an ordinary field of one that stays; everything else waits for a restart. */
  lemma HotIff(path: string, oldEntries: set<string>, newEntries: set<string>)
    ensures var leaf := SplitCommandLeaf(path);
      ClassifyChange(path, oldEntries, newEntries) == ClassHot <==>
        || (leaf.Some? && !(leaf.value.0 in oldEntries && leaf.value.0 in newEntries))
        || path in HOT_PATHS
        || (leaf.Some? && leaf.value.1 in HOT_FIELDS && leaf.value.1 !in PERMISSION_FIELDS)
  {
    if SplitCommandLeaf(path).Some? { CommandLeavesAreNotListed(path); }
  }

  lemma FieldKindsApart()
    ensures PERMISSION_FIELDS !! HOT_FIELDS
  {}

  // ---------- The difference of two configurations ----------

  datatype ChangedKey<V> = ChangedKey(path: string, before: Option<V>, after: Option<V>)

  datatype ConfigChange<V> = ConfigChange(
    hot: seq<ChangedKey<V>>, restart: seq<ChangedKey<V>>, reject: seq<ChangedKey<V>>, commands: seq<ChangedKey<V>>)
  {
    predicate HasChanges() {
      hot != [] || restart != [] || reject != []
    }
    predicate HasRejections() {
      reject != []
    }
  }

  function Lookup<V>(leaves: map<string, V>, path: string): Option<V> {
    if path in leaves then Some(leaves[path]) else None
  }

  lemma SameLookups<V>(a: map<string, V>, b: map<string, V>)
    requires forall p :: Lookup(a, p) == Lookup(b, p)
    ensures a == b
  {
    assert forall p :: p in a ==> Lookup(a, p) == Lookup(b, p);
    assert forall p :: p in b ==> Lookup(a, p) == Lookup(b, p);
    assert a.Keys == b.Keys;
  }

  function EntryNames<V>(leaves: map<string, V>): set<string> {
    set p | p in leaves && SplitCommandLeaf(p).Some? :: SplitCommandLeaf(p).value.0
  }

  /** An entry is there exactly when one of its leaves is. */
  lemma EntryIffLeaf<V>(leaves: map<string, V>, name: string)
    ensures name in EntryNames(leaves) <==>
            exists p, field, rest :: p in leaves && JoinedBy(COMMANDS, p, name, field, rest)
  {
    if name in EntryNames(leaves) {
      var p :| p in leaves && SplitCommandLeaf(p).Some? && SplitCommandLeaf(p).value.0 == name;
      var rest := SplitGivesJoin(COMMANDS, p, name, SplitCommandLeaf(p).value.1);
    }
    if p, field, rest :| p in leaves && JoinedBy(COMMANDS, p, name, field, rest) {
      SplitIffJoined(COMMANDS, p, name, field);
    }
  }

  predicate Differs<V(==)>(before: map<string, V>, after: map<string, V>, path: string) {
    Lookup(before, path) != Lookup(after, path)
  }

  function ClassOf<V>(before: map<string, V>, after: map<string, V>, path: string): ConfigClass {
    ClassifyChange(path, EntryNames(before), EntryNames(after))
  }

  function Paths<V>(keys: seq<ChangedKey<V>>): (r: seq<string>)
    ensures |r| == |keys| && forall i :: 0 <= i < |r| ==> r[i] == keys[i].path
  {
    seq(|keys|, i requires 0 <= i < |keys| => keys[i].path)
  }

  datatype Bucket = HotKeys | RestartKeys | RejectKeys | CommandKeys

  predicate Belongs<V>(bucket: Bucket, before: map<string, V>, after: map<string, V>, path: string) {
    match bucket
    case HotKeys => ClassOf(before, after, path) == ClassHot
    case RestartKeys => ClassOf(before, after, path) == ClassRestart
    case RejectKeys => ClassOf(before, after, path) == ClassReject
    case CommandKeys => ClassOf(before, after, path) == ClassHot && IsCommandPath(path)
  }

  /** In ascending order and with both values, exactly the differing paths of the bucket among those done. */
  ghost predicate Lists<V(!new)>(keys: seq<ChangedKey<V>>, bucket: Bucket, before: map<string, V>,
                                 after: map<string, V>, done: seq<string>) {
    && SortedBy(Before, Paths(keys))
    && (forall k :: k in keys ==> k.before == Lookup(before, k.path) && k.after == Lookup(after, k.path))
    && (forall p :: p in Paths(keys) <==> p in done && Differs(before, after, p) && Belongs(bucket, before, after, p))
  }

  ghost predicate IsDiffUpTo<V(!new)>(change: ConfigChange<V>, before: map<string, V>, after: map<string, V>,
                                      done: seq<string>) {
    && Lists(change.hot, HotKeys, before, after, done)
    && Lists(change.restart, RestartKeys, before, after, done)
    && Lists(change.reject, RejectKeys, before, after, done)
    && Lists(change.commands, CommandKeys, before, after, done)
  }

  /** Each list in ascending order and with both values; `all` are the leaf paths of either side. */
  ghost predicate IsDiff<V(!new)>(change: ConfigChange<V>, before: map<string, V>, after: map<string, V>) {
    exists all :: (forall p :: p in all <==> p in before || p in after) && IsDiffUpTo(change, before, after, all)
  }

  function Appended<V>(keys: seq<ChangedKey<V>>, bucket: Bucket, before: map<string, V>, after: map<string, V>,
                       p: string): seq<ChangedKey<V>> {
    if Belongs(bucket, before, after, p) then keys + [ChangedKey(p, Lookup(before, p), Lookup(after, p))] else keys
  }

  lemma AppendKeepsLists<V(!new)>(keys: seq<ChangedKey<V>>, bucket: Bucket, before: map<string, V>,
                                  after: map<string, V>, done: seq<string>, p: string)
    requires Lists(keys, bucket, before, after, done) && Differs(before, after, p)
    requires forall q :: q in done ==> Before(q, p)
    ensures Lists(Appended(keys, bucket, before, after, p), bucket, before, after, done + [p])
  {
    var next := Appended(keys, bucket, before, after, p);
    if Belongs(bucket, before, after, p) {
      assert Paths(next) == Paths(keys) + [p];
    }
    forall q
      ensures q in Paths(next) <==> q in done + [p] && Differs(before, after, q) && Belongs(bucket, before, after, q)
    {}
  }

  lemma SkipKeepsLists<V(!new)>(keys: seq<ChangedKey<V>>, bucket: Bucket, before: map<string, V>, after: map<string, V>,
                                done: seq<string>, p: string)
    requires Lists(keys, bucket, before, after, done) && !Differs(before, after, p)
    ensures Lists(keys, bucket, before, after, done + [p])
  {}

  /** The paths of either side, in ascending order. */
  method SortedLeafPaths<V>(before: map<string, V>, after: map<string, V>) returns (paths: seq<string>)
    ensures SortedBy(Before, paths) && forall p :: p in paths <==> p in before || p in after
  {
    paths := SortStrings(before.Keys + after.Keys);
  }

  method AddKey<V(!new)>(change: ConfigChange<V>, before: map<string, V>, after: map<string, V>, path: string,
                         ghost done: seq<string>)
    returns (next: ConfigChange<V>)
    requires IsDiffUpTo(change, before, after, done) && Differs(before, after, path)
    requires forall q :: q in done ==> Before(q, path)
    ensures IsDiffUpTo(next, before, after, done + [path])
  {
    AppendKeepsLists(change.hot, HotKeys, before, after, done, path);
    AppendKeepsLists(change.restart, RestartKeys, before, after, done, path);
    AppendKeepsLists(change.reject, RejectKeys, before, after, done, path);
    AppendKeepsLists(change.commands, CommandKeys, before, after, done, path);
    var key := ChangedKey(path, Lookup(before, path), Lookup(after, path));
    next := change;
    match ClassOf(before, after, path) {
      case ClassHot =>
        next := next.(hot := change.hot + [key]);
        if IsCommandPath(path) {
          next := next.(commands := change.commands + [key]);
        }
      case ClassRestart => next := next.(restart := change.restart + [key]);
      case ClassReject => next := next.(reject := change.reject + [key]);
    }
  }

  /** Walks the paths of both sides in order, so that the lists come out sorted. */
  method Diff<V(!new,==)>(before: map<string, V>, after: map<string, V>) returns (change: ConfigChange<V>)
    ensures IsDiff(change, before, after)
  {
    change := ConfigChange([], [], [], []);
    var paths := SortedLeafPaths(before, after);
    for i := 0 to |paths|
      invariant IsDiffUpTo(change, before, after, paths[..i])
    {
      var path := paths[i];
      assert paths[..i + 1] == paths[..i] + [path];
      if Differs(before, after, path) {
        change := AddKey(change, before, after, path, paths[..i]);
      } else {
        SkipKeepsLists(change.hot, HotKeys, before, after, paths[..i], path);
        SkipKeepsLists(change.restart, RestartKeys, before, after, paths[..i], path);
        SkipKeepsLists(change.reject, RejectKeys, before, after, paths[..i], path);
        SkipKeepsLists(change.commands, CommandKeys, before, after, paths[..i], path);
      }
    }
    assert paths[..|paths|] == paths;
  }

  // ---------- What a difference is ----------

  lemma InBucket<V(!new)>(change: ConfigChange<V>, before: map<string, V>, after: map<string, V>, p: string)
    requires IsDiff(change, before, after)
    ensures p in Paths(change.hot) <==> Differs(before, after, p) && Belongs(HotKeys, before, after, p)
    ensures p in Paths(change.restart) <==> Differs(before, after, p) && Belongs(RestartKeys, before, after, p)
    ensures p in Paths(change.reject) <==> Differs(before, after, p) && Belongs(RejectKeys, before, after, p)
    ensures p in Paths(change.commands) <==> Differs(before, after, p) && Belongs(CommandKeys, before, after, p)
  {}

  /** The three lists are sorted and hold every differing path exactly once between them; the command
      list is the command part of the hot one. */
  lemma DiffPartitions<V(!new)>(change: ConfigChange<V>, before: map<string, V>, after: map<string, V>, p: string)
    requires IsDiff(change, before, after)
    ensures SortedBy(Before, Paths(change.hot)) && SortedBy(Before, Paths(change.restart))
            && SortedBy(Before, Paths(change.reject))
    ensures Differs(before, after, p) <==> p in Paths(change.hot) + Paths(change.restart) + Paths(change.reject)
    ensures p in Paths(change.hot) ==> p !in Paths(change.restart) && p !in Paths(change.reject)
    ensures p in Paths(change.restart) ==> p !in Paths(change.reject)
    ensures p in Paths(change.commands) <==> p in Paths(change.hot) && IsCommandPath(p)
  {
    InBucket(change, before, after, p);
  }

  /** Every listed key carries the value of either side, or none where there is none. */
  lemma DiffCarriesValues<V(!new)>(change: ConfigChange<V>, before: map<string, V>, after: map<string, V>,
                                   k: ChangedKey<V>)
    requires IsDiff(change, before, after)
    requires k in change.hot || k in change.restart || k in change.reject || k in change.commands
    ensures k.before == (if k.path in before then Some(before[k.path]) else None)
    ensures k.after == (if k.path in after then Some(after[k.path]) else None)
    ensures k.before != k.after
  {
    var keys :=
      if k in change.hot then change.hot
      else if k in change.restart then change.restart
      else if k in change.reject then change.reject
      else change.commands;
    var i :| 0 <= i < |keys| && keys[i] == k;
    assert Paths(keys)[i] == k.path;
    InBucket(change, before, after, k.path);
  }

  /** No list has an entry exactly when the two configurations are the same. */
  lemma NoChangesIffSame<V(!new)>(change: ConfigChange<V>, before: map<string, V>, after: map<string, V>)
    requires IsDiff(change, before, after)
    ensures change.HasChanges() <==> before != after
  {
    if change.HasChanges() {
      var k :=
        if change.hot != [] then change.hot[0]
        else if change.restart != [] then change.restart[0]
        else change.reject[0];
      assert k.path in Paths(change.hot) || k.path in Paths(change.restart) || k.path in Paths(change.reject) by {
        if change.hot != [] { assert Paths(change.hot)[0] == k.path; }
        else if change.restart != [] { assert Paths(change.restart)[0] == k.path; }
        else { assert Paths(change.reject)[0] == k.path; }
      }
      InBucket(change, before, after, k.path);
    } else {
      forall p ensures Lookup(before, p) == Lookup(after, p) { DiffPartitions(change, before, after, p); }
      SameLookups(before, after);
    }
  }

  /** A changed identity, target or credential field of an entry that exists on both sides voids the
      reload; the same change of an entry that exists on one side only is an ordinary hot change. */
  lemma PermissionChanges<V(!new)>(change: ConfigChange<V>, before: map<string, V>, after: map<string, V>, name: string,
                                   field: string, p: string)
    requires IsDiff(change, before, after) && Differs(before, after, p)
    requires SplitCommandLeaf(p) == Some((name, field)) && field in PERMISSION_FIELDS
    ensures p in Paths(change.reject) <==> name in EntryNames(before) && name in EntryNames(after)
    ensures p in Paths(change.commands) <==> !(name in EntryNames(before) && name in EntryNames(after))
  {
    InBucket(change, before, after, p);
    PermissionClass(p, name, field, EntryNames(before), EntryNames(after));
  }
}
