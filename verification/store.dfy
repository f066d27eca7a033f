/** The snapshot store and its retention of finished jobs (core/store.go). */
module Stores {
  import opened Jobs
  import opened Ordering

  const DEFAULT_HISTORY_LIMIT := 1000

  /** How many finished snapshots are kept (negative: none) and for how long (not positive: forever). */
  datatype Retention = Retention(limit: int, ttl: int)

  ghost predicate Keyed(data: map<string, JobSnapshot>) {
    forall id :: id in data ==> data[id].id == id
  }

  /** A finished snapshot that the age limit does not remove. */
  predicate Fresh(snap: JobSnapshot, now: int, r: Retention) {
    snap.status.IsTerminal() && !(r.limit < 0 || (r.ttl > 0 && now - snap.updatedAt > r.ttl))
  }

  /** Later update first, then ID: the order in which finished snapshots are kept. */
  predicate Newer(a: JobSnapshot, b: JobSnapshot) {
    if a.updatedAt != b.updatedAt then a.updatedAt > b.updatedAt else Before(a.id, b.id)
  }

  function FreshSet(data: map<string, JobSnapshot>, now: int, r: Retention): set<JobSnapshot> {
    set id | id in data && Fresh(data[id], now, r) :: data[id]
  }

  ghost function Rank(snap: JobSnapshot, among: set<JobSnapshot>): nat {
    |set other | other in among && Newer(other, snap)|
  }

  /** What retention promises, without reference to any traversal: unfinished snapshots stay, and a
      finished one stays exactly when it is fresh and fewer than `limit` fresh ones are newer. */
  ghost function Kept(data: map<string, JobSnapshot>, now: int, r: Retention): map<string, JobSnapshot> {
    map id | id in data && (!data[id].status.IsTerminal()
                            || (Fresh(data[id], now, r) && Rank(data[id], FreshSet(data, now, r)) < r.limit))
      :: data[id]
  }

  /** One write followed by the retention pass a finished snapshot triggers. */
  ghost function Write(data: map<string, JobSnapshot>, snap: JobSnapshot, now: int,
                       r: Retention): map<string, JobSnapshot> {
    var written := data[snap.id := snap];
    if snap.status.IsTerminal() then Kept(written, now, r) else written
  }

  /** A write never touches another unfinished snapshot, never invents or alters one, and always
      stores an unfinished snapshot it is given. */
  lemma WriteKeepsUnfinished(data: map<string, JobSnapshot>, snap: JobSnapshot, now: int, r: Retention)
    requires Keyed(data)
    ensures Keyed(Write(data, snap, now, r))
    ensures !snap.status.IsTerminal() ==> Write(data, snap, now, r) == data[snap.id := snap]
    ensures forall id :: id in data && id != snap.id && !data[id].status.IsTerminal() ==>
              id in Write(data, snap, now, r) && Write(data, snap, now, r)[id] == data[id]
    ensures forall id :: id in Write(data, snap, now, r) ==>
              id in data[snap.id := snap] && Write(data, snap, now, r)[id] == data[snap.id := snap][id]
  {}

  lemma NewerStrictTotal(data: map<string, JobSnapshot>, now: int, r: Retention)
    requires Keyed(data)
    ensures StrictTotal(Newer, FreshSet(data, now, r))
  {
    forall a: JobSnapshot, b: JobSnapshot, c: JobSnapshot
      ensures !Newer(a, a) && (a.id == b.id || Newer(a, b) || Newer(b, a))
              && (Newer(a, b) && Newer(b, c) ==> Newer(a, c))
    {
      BeforeIrreflexive(a.id);
      BeforeTotal(a.id, b.id);
      if Before(a.id, b.id) && Before(b.id, c.id) { BeforeTransitive(a.id, b.id, c.id); }
    }
    assert forall a, b :: a in FreshSet(data, now, r) && b in FreshSet(data, now, r) && a.id == b.id ==> a == b;
  }

  /** In a sorted listing, the rank of a snapshot is its position. */
  lemma RankIsPosition(items: set<JobSnapshot>, s: seq<JobSnapshot>, i: nat)
    requires StrictTotal(Newer, items) && SortedBy(Newer, s) && i < |s|
    requires forall x :: x in s <==> x in items
    ensures Rank(s[i], items) == i
  {
    var newer := set other | other in items && Newer(other, s[i]);
    forall x ensures x in newer <==> x in s[..i] {
      if x in newer {
        var k :| 0 <= k < |s| && s[k] == x;
        assert k < i;
      }
      if x in s[..i] {
        var k :| 0 <= k < i && s[k] == x;
        assert s[k] in items;
      }
    }
    assert forall p, q :: 0 <= p < q < i ==> Newer(s[p], s[q]) && s[p] in items;
    DistinctCount(items, s[..i], newer);
  }

  lemma {:induction false} DistinctCount(items: set<JobSnapshot>, s: seq<JobSnapshot>, elems: set<JobSnapshot>)
    requires StrictTotal(Newer, items) && SortedBy(Newer, s)
    requires forall x :: x in s ==> x in items
    requires forall x :: x in elems <==> x in s
    ensures |elems| == |s|
  {
    if s == [] {
      assert elems == {};
    } else {
      var n := |s| - 1;
      assert s == s[..n] + [s[n]];
      assert s[n] in items && s[n] !in s[..n];
      DistinctCount(items, s[..n], elems - {s[n]});
    }
  }

  /** Retention at the same instant is idempotent. */
  lemma KeptTwice(data: map<string, JobSnapshot>, now: int, r: Retention)
    ensures Kept(Kept(data, now, r), now, r) == Kept(data, now, r)
  {
    var kept := Kept(data, now, r);
    var all, fewer := FreshSet(data, now, r), FreshSet(kept, now, r);
    assert fewer <= all;
    forall id | id in kept ensures Rank(kept[id], fewer) <= Rank(kept[id], all) {
      var a := set other | other in all && Newer(other, kept[id]);
      var b := set other | other in fewer && Newer(other, kept[id]);
      SubsetSize(b, a);
    }
  }

  lemma {:induction false} SubsetSize<T>(small: set<T>, large: set<T>)
    requires small <= large
    ensures |small| <= |large|
    decreases small
  {
    if small != {} {
      var x :| x in small;
      SubsetSize(small - {x}, large - {x});
    }
  }

  /** What the age pass leaves. */
  ghost function Unexpired(data: map<string, JobSnapshot>, now: int, r: Retention): map<string, JobSnapshot> {
    map id | id in data && (!data[id].status.IsTerminal() || Fresh(data[id], now, r)) :: data[id]
  }

  lemma SurplusMember(data: map<string, JobSnapshot>, now: int, r: Retention, sorted: seq<JobSnapshot>, x: JobSnapshot)
    requires Keyed(data) && 0 <= r.limit <= |sorted| && SortedBy(Newer, sorted)
    requires forall y :: y in sorted <==> y in FreshSet(data, now, r)
    requires x in FreshSet(data, now, r)
    ensures x in sorted[r.limit..] <==> Rank(x, FreshSet(data, now, r)) >= r.limit
  {
    NewerStrictTotal(data, now, r);
    var i :| 0 <= i < |sorted| && sorted[i] == x;
    RankIsPosition(FreshSet(data, now, r), sorted, i);
    if i >= r.limit { assert sorted[r.limit..][i - r.limit] == x; }
    if x in sorted[r.limit..] {
      var k :| 0 <= k < |sorted[r.limit..]| && sorted[r.limit..][k] == x;
      RankIsPosition(FreshSet(data, now, r), sorted, r.limit + k);
    }
  }

  lemma SurplusIsRanked(data: map<string, JobSnapshot>, now: int, r: Retention, sorted: seq<JobSnapshot>)
    requires Keyed(data) && 0 <= r.limit <= |sorted| && SortedBy(Newer, sorted)
    requires forall x :: x in sorted <==> x in FreshSet(data, now, r)
    ensures Kept(data, now, r) ==
      map id | id in Unexpired(data, now, r) && data[id] !in sorted[r.limit..] :: data[id]
  {
    forall id | id in data && Fresh(data[id], now, r)
      ensures data[id] in sorted[r.limit..] <==> Rank(data[id], FreshSet(data, now, r)) >= r.limit
    {
      SurplusMember(data, now, r, sorted, data[id]);
    }
    forall x | x in sorted[r.limit..] ensures x in FreshSet(data, now, r) { assert x in sorted; }
  }

  lemma NothingSurplus(data: map<string, JobSnapshot>, now: int, r: Retention)
    requires Keyed(data) && (r.limit < 0 || |FreshSet(data, now, r)| <= r.limit)
    ensures Kept(data, now, r) == Unexpired(data, now, r)
  {
    var finished := FreshSet(data, now, r);
    NewerStrictTotal(data, now, r);
    forall id | id in data && Fresh(data[id], now, r) ensures Rank(data[id], finished) < r.limit {
      var newer := set other | other in finished && Newer(other, data[id]);
      assert data[id] in finished;
      SubsetSize(newer, finished - {data[id]});
    }
  }

  // ---------- What retention means for the data ----------

  ghost function Finished(data: map<string, JobSnapshot>): set<JobSnapshot> {
    set id | id in data && data[id].status.IsTerminal() :: data[id]
  }

  /** Each updated later, or at the same time under a smaller ID. */
  ghost predicate AllLater(kept: set<JobSnapshot>, snap: JobSnapshot) {
    forall k :: k in kept ==>
      k.updatedAt > snap.updatedAt || (k.updatedAt == snap.updatedAt && Before(k.id, snap.id))
  }

  /** As many finished snapshots are left as may be, and all of them go first. */
  ghost predicate Crowded(after: map<string, JobSnapshot>, snap: JobSnapshot, limit: nat) {
    exists kept: set<JobSnapshot> :: kept <= Finished(after) && |kept| == limit && AllLater(kept, snap)
  }

  /** Nothing is altered and every unfinished snapshot stays. Finished ones stay within the age and at most
      `limit` of them; one that is dropped was too old, or was crowded out by as many newer ones. */
  ghost predicate Retained(before: map<string, JobSnapshot>, after: map<string, JobSnapshot>, now: int, r: Retention) {
    && (forall id :: id in after ==> id in before && after[id] == before[id])
    && (forall id :: id in before && !before[id].status.IsTerminal() ==> id in after)
    && (forall id :: id in after && after[id].status.IsTerminal() ==>
          r.limit >= 0 && (r.ttl > 0 ==> now - after[id].updatedAt <= r.ttl))
    && (r.limit >= 0 ==> |Finished(after)| <= r.limit)
    && (forall id ::
          id in before && id !in after && r.limit >= 0 && (r.ttl > 0 ==> now - before[id].updatedAt <= r.ttl) ==>
          Crowded(after, before[id], r.limit))
  }

  lemma {:induction false} SortedExists(items: set<JobSnapshot>) returns (s: seq<JobSnapshot>)
    requires StrictTotal(Newer, items)
    ensures SortedBy(Newer, s) && |s| == |items| && forall x :: x in s <==> x in items
    decreases |items|
  {
    s := [];
    if items != {} {
      FirstExists(Newer, items);
      var first :| IsFirst(Newer, items, first);
      var rest := SortedExists(items - {first});
      s := [first] + rest;
    }
  }

  function TopOf(s: seq<JobSnapshot>, limit: nat): (r: seq<JobSnapshot>)
    ensures |r| <= limit && r <= s && (limit <= |s| ==> |r| == limit)
  {
    if limit < |s| then s[..limit] else s
  }

  lemma TopRank(items: set<JobSnapshot>, s: seq<JobSnapshot>, limit: nat, x: JobSnapshot)
    requires StrictTotal(Newer, items) && SortedBy(Newer, s) && x in items
    requires forall y :: y in s <==> y in items
    ensures x in TopOf(s, limit) <==> Rank(x, items) < limit
  {
    var top := TopOf(s, limit);
    var i :| 0 <= i < |s| && s[i] == x;
    RankIsPosition(items, s, i);
    if x in top {
      var k :| 0 <= k < |top| && top[k] == x;
      RankIsPosition(items, s, k);
    }
    assert i < |top| ==> top[i] == x;
  }

  lemma KeptFinished(data: map<string, JobSnapshot>, now: int, r: Retention, s: seq<JobSnapshot>)
    requires Keyed(data) && 0 <= r.limit && SortedBy(Newer, s)
    requires forall x :: x in s <==> x in FreshSet(data, now, r)
    ensures forall x :: x in Finished(Kept(data, now, r)) <==> x in TopOf(s, r.limit)
  {
    NewerStrictTotal(data, now, r);
    forall x | x in FreshSet(data, now, r)
      ensures x in TopOf(s, r.limit) <==> Rank(x, FreshSet(data, now, r)) < r.limit
    {
      TopRank(FreshSet(data, now, r), s, r.limit, x);
    }
    forall x ensures x in Finished(Kept(data, now, r)) <==> x in TopOf(s, r.limit) {
      if x in TopOf(s, r.limit) {
        assert x in s && x in FreshSet(data, now, r);
        assert data[x.id] == x && x.id in Kept(data, now, r);
      }
    }
  }

  lemma TopIsCrowd(data: map<string, JobSnapshot>, now: int, r: Retention, s: seq<JobSnapshot>, x: JobSnapshot)
    requires Keyed(data) && 0 <= r.limit && SortedBy(Newer, s)
    requires forall y :: y in s <==> y in FreshSet(data, now, r)
    requires x in FreshSet(data, now, r) && x !in Finished(Kept(data, now, r))
    ensures Crowded(Kept(data, now, r), x, r.limit)
  {
    KeptFinished(data, now, r, s);
    NewerStrictTotal(data, now, r);
    var top := TopOf(s, r.limit);
    var kept := set y | y in top;
    var i :| 0 <= i < |s| && s[i] == x;
    assert i < |top| ==> top[i] == x;
    forall y | y in top ensures y in s {}
    DistinctCount(FreshSet(data, now, r), top, kept);
    forall k | k in kept
      ensures k.updatedAt > x.updatedAt || (k.updatedAt == x.updatedAt && Before(k.id, x.id))
    {
      var j :| 0 <= j < |top| && top[j] == k;
      assert Newer(s[j], s[i]);
    }
    assert kept <= Finished(Kept(data, now, r)) && AllLater(kept, x);
  }

  lemma KeptIsRetained(data: map<string, JobSnapshot>, now: int, r: Retention)
    requires Keyed(data)
    ensures Retained(data, Kept(data, now, r), now, r)
  {
    var after := Kept(data, now, r);
    if r.limit >= 0 {
      NewerStrictTotal(data, now, r);
      var s := SortedExists(FreshSet(data, now, r));
      KeptFinished(data, now, r, s);
      var top := TopOf(s, r.limit);
      forall y | y in top ensures y in s {}
      DistinctCount(FreshSet(data, now, r), top, Finished(after));
      forall id | id in data && id !in after && (r.ttl > 0 ==> now - data[id].updatedAt <= r.ttl)
        ensures Crowded(after, data[id], r.limit)
      {
        TopIsCrowd(data, now, r, s, data[id]);
      }
    }
  }

  /** A finished snapshot within the age that is not crowded out stays; in particular the one just written,
      when it is the latest and any may be kept. */
  lemma LatestIsKept(data: map<string, JobSnapshot>, snap: JobSnapshot, now: int, r: Retention)
    requires Keyed(data) && snap.status.IsTerminal() && r.limit > 0 && (r.ttl > 0 ==> now - snap.updatedAt <= r.ttl)
    requires forall id :: id in data ==> data[id].updatedAt < snap.updatedAt
    ensures snap.id in Write(data, snap, now, r) && Write(data, snap, now, r)[snap.id] == snap
  {
    var written := data[snap.id := snap];
    KeptIsRetained(written, now, r);
  }

  class JSONFileStore {
    var data: map<string, JobSnapshot>
    var dirty: bool
    var historyLimit: int
    var historyTTL: int

    ghost predicate Valid()
      reads this
    {
      Keyed(data) && historyLimit != 0
    }

    ghost function Policy(): Retention
      reads this
    {
      Retention(historyLimit, historyTTL)
    }

    /** Starts from the snapshots on disk. */
    constructor (limit: int, ttl: int, onDisk: map<string, JobSnapshot>)
      requires Keyed(onDisk)
      ensures Valid() && data == onDisk && !dirty
      ensures Policy() == Retention(if limit == 0 then DEFAULT_HISTORY_LIMIT else limit, ttl)
    {
      data, dirty := onDisk, false;
      historyLimit := if limit == 0 then DEFAULT_HISTORY_LIMIT else limit;
      historyTTL := ttl;
    }

    method SetHistoryRetention(limit: int, ttl: int)
      requires Valid()
      modifies this`historyLimit, this`historyTTL
      ensures Valid() && Policy() == Retention(if limit == 0 then DEFAULT_HISTORY_LIMIT else limit, ttl)
    {
      historyLimit := if limit == 0 then DEFAULT_HISTORY_LIMIT else limit;
      historyTTL := ttl;
    }

    method Save(job: Job, now: int)
      requires Valid()
      modifies this`data, this`dirty
      ensures Valid() && dirty && data == Write(old(data), job.ToSnapshot(), now, Policy())
      ensures var written := old(data)[job.id := job.ToSnapshot()];
        if job.status.IsTerminal() then Retained(written, data, now, Policy()) else data == written
    {
      Update(job.ToSnapshot(), now);
    }

    method Update(snapshot: JobSnapshot, now: int)
      requires Valid()
      modifies this`data, this`dirty
      ensures Valid() && dirty && data == Write(old(data), snapshot, now, Policy())
      ensures var written := old(data)[snapshot.id := snapshot];
        if snapshot.status.IsTerminal() then Retained(written, data, now, Policy()) else data == written
    {
      data := data[snapshot.id := snapshot];
      dirty := true;
      if snapshot.status.IsTerminal() {
        TrimTerminal(now);
      }
    }

    method Delete(jobID: string)
      requires Valid()
      modifies this`data, this`dirty
      ensures Valid() && dirty && data == old(data) - {jobID}
    {
      data := data - {jobID};
      dirty := true;
    }

    /** Removes expired and surplus finished snapshots; the map may be walked in any order. */
    method TrimTerminal(now: int)
      requires Valid()
      modifies this`data
      ensures Valid() && data == Kept(old(data), now, Policy()) && Retained(old(data), data, now, Policy())
    {
      KeptIsRetained(data, now, Policy());
      TwoPasses(now);
    }

    method TwoPasses(now: int)
      requires Valid()
      modifies this`data
      ensures Valid() && data == Kept(old(data), now, Policy())
    {
      ghost var before := data;
      var terminal := DropExpired(now);
      if historyLimit >= 0 && |terminal| > historyLimit {
        NewerStrictTotal(before, now, Policy());
        var sorted := SortBy(Newer, terminal);
        SurplusIsRanked(before, now, Policy(), sorted);
        assert forall x :: x in sorted[historyLimit..] ==> x in sorted;
        DropAll(sorted[historyLimit..]);
      } else {
        NothingSurplus(before, now, Policy());
      }
    }

    /** The first pass: drops what the age limit (or a negative count) removes, collects the rest. */
    method DropExpired(now: int) returns (terminal: set<JobSnapshot>)
      requires Valid()
      modifies this`data
      ensures Valid() && data == Unexpired(old(data), now, Policy())
      ensures terminal == FreshSet(old(data), now, Policy())
    {
      ghost var before, r := data, Policy();
      terminal := {};
      var ids := data.Keys;
      while ids != {}
        invariant ids <= data.Keys <= before.Keys
        invariant forall id :: id in data ==> data[id] == before[id]
        invariant forall id :: id in before && id !in ids ==>
                    (id in data <==> !before[id].status.IsTerminal() || Fresh(before[id], now, r))
        invariant terminal == set id | id in before && id !in ids && Fresh(before[id], now, r) :: before[id]
        decreases |ids|
      {
        var id :| id in ids;
        ids := ids - {id};
        if data[id].status.IsTerminal() {
          if historyLimit < 0 || (historyTTL > 0 && now - data[id].updatedAt > historyTTL) {
            data := data - {id};
          } else {
            terminal := terminal + {data[id]};
          }
        }
      }
    }

    method DropAll(surplus: seq<JobSnapshot>)
      requires Valid() && forall snap :: snap in surplus ==> snap.id in data && data[snap.id] == snap
      modifies this`data
      ensures Valid() && data == map id | id in old(data) && old(data)[id] !in surplus :: old(data)[id]
    {
      ghost var before := data;
      for k := 0 to |surplus|
        invariant data == map id | id in before && before[id] !in surplus[..k] :: before[id]
      {
        assert surplus[..k + 1] == surplus[..k] + [surplus[k]];
        assert surplus[k] in surplus;
        data := data - {surplus[k].id};
      }
      assert surplus[..|surplus|] == surplus;
    }

    method LoadAll() returns (jobs: set<JobSnapshot>)
      requires Valid()
      ensures forall snap :: snap in jobs <==> snap.id in data && data[snap.id] == snap
    {
      jobs := set id | id in data :: data[id];
    }
  }
}
