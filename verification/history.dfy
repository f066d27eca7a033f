/** The in-memory event history (api/history.go): bounded windows that refine the whole event stream. */
module Histories {

  const PER_JOB_LIMIT := 100
  const MAX_JOBS := 2000
  const GLOBAL_LIMIT := 500

  datatype Event = Event(jobId: string, data: int)

  /** The last n elements, or all of them when there are fewer. */
  function Last<T>(s: seq<T>, n: nat): (r: seq<T>)
    ensures |r| == if n < |s| then n else |s|
  {
    if n < |s| then s[|s| - n..] else s
  }

  lemma LastOfAppend<T>(s: seq<T>, x: T, n: nat)
    requires n > 0
    ensures Last(Last(s, n) + [x], n) == Last(s + [x], n)
  {}

  // ---------- What the windows mean ----------

  predicate Distinct(xs: seq<string>) {
    forall i, j :: 0 <= i < j < |xs| ==> xs[i] != xs[j]
  }

  /** Drops the first occurrence. */
  function Remove(xs: seq<string>, x: string): (r: seq<string>)
    ensures |r| == if x in xs then |xs| - 1 else |xs|
  {
    if xs == [] then []
    else if xs[0] == x then xs[1..]
    else [xs[0]] + Remove(xs[1..], x)
  }

  /** The jobs of the stream, the most recently written first. */
  ghost function Recency(stream: seq<Event>): seq<string> {
    if stream == [] then []
    else
      var last := stream[|stream| - 1].jobId;
      [last] + Remove(Recency(stream[..|stream| - 1]), last)
  }

  function Top(xs: seq<string>): seq<string> {
    if |xs| <= MAX_JOBS then xs else xs[..MAX_JOBS]
  }

  /** The jobs whose events are kept: the most recently written ones, up to the limit. */
  ghost function Tracked(stream: seq<Event>): seq<string> {
    Top(Recency(stream))
  }

  /** The tracked list once a job is written: that job first, and the last one gone if the list was full. */
  function Touched(lru: seq<string>, id: string): seq<string> {
    [id] + if id in lru then Remove(lru, id) else if |lru| >= MAX_JOBS then lru[..|lru| - 1] else lru
  }

  ghost function OfJob(stream: seq<Event>, id: string): seq<Event> {
    if stream == [] then []
    else
      var rest, last := OfJob(stream[..|stream| - 1], id), stream[|stream| - 1];
      if last.jobId == id then rest + [last] else rest
  }

  /** Where the present stay of a job in the tracked set began. */
  ghost function Since(stream: seq<Event>, id: string): (n: nat)
    ensures n <= |stream|
  {
    if stream == [] then 0
    else
      var front := stream[..|stream| - 1];
      if id in Tracked(stream) && id in Tracked(front) then Since(front, id)
      else if id in Tracked(stream) then |stream| - 1
      else |stream|
  }

  /** The window of a job: its events of the present stay, the last hundred of them. */
  ghost function Window(stream: seq<Event>, id: string): seq<Event> {
    Last(OfJob(stream[Since(stream, id)..], id), PER_JOB_LIMIT)
  }

  // ---------- Recency ----------

  lemma {:induction false} RemoveIs(xs: seq<string>, x: string, k: nat)
    requires k < |xs| && xs[k] == x && x !in xs[..k]
    ensures Remove(xs, x) == xs[..k] + xs[k + 1..]
    decreases k
  {
    if k > 0 {
      assert xs[0] in xs[..k];
      assert xs[1..][..k - 1] == xs[..k][1..];
      RemoveIs(xs[1..], x, k - 1);
    }
  }

  lemma {:induction false} RemoveAbsent(xs: seq<string>, x: string)
    requires x !in xs
    ensures Remove(xs, x) == xs
    decreases |xs|
  {
    if xs != [] { RemoveAbsent(xs[1..], x); }
  }

  lemma WithoutAt(xs: seq<string>, k: nat)
    requires Distinct(xs) && k < |xs|
    ensures var rest := xs[..k] + xs[k + 1..]; Distinct(rest) && forall y :: y in rest <==> y in xs && y != xs[k]
  {
    var rest := xs[..k] + xs[k + 1..];
    forall i | 0 <= i < |rest| ensures rest[i] == xs[if i < k then i else i + 1] {}
    forall y | y in xs && y != xs[k] ensures y in rest {
      var j :| 0 <= j < |xs| && xs[j] == y;
      assert rest[if j < k then j else j - 1] == y;
    }
  }

  lemma RemoveMembers(xs: seq<string>, x: string)
    requires Distinct(xs)
    ensures Distinct(Remove(xs, x)) && forall y :: y in Remove(xs, x) <==> y in xs && y != x
  {
    if x in xs {
      var k :| 0 <= k < |xs| && xs[k] == x;
      RemoveIs(xs, x, k);
      WithoutAt(xs, k);
    } else {
      RemoveAbsent(xs, x);
    }
  }

  ghost predicate LastAt(stream: seq<Event>, id: string, i: nat) {
    i < |stream| && stream[i].jobId == id && forall j :: i < j < |stream| ==> stream[j].jobId != id
  }

  ghost predicate Writes(stream: seq<Event>, id: string) {
    exists i :: 0 <= i < |stream| && stream[i].jobId == id
  }

  lemma WritesNext(stream: seq<Event>, id: string)
    requires stream != []
    ensures Writes(stream, id) <==> Writes(stream[..|stream| - 1], id) || id == stream[|stream| - 1].jobId
  {
    var front := stream[..|stream| - 1];
    if Writes(stream, id) {
      var i :| 0 <= i < |stream| && stream[i].jobId == id;
      if i < |front| { assert front[i].jobId == id; }
    }
    if Writes(front, id) {
      var i :| 0 <= i < |front| && front[i].jobId == id;
      assert stream[i].jobId == id;
    }
  }

  /** Recency lists every job of the stream once. */
  lemma {:induction false} RecencyIs(stream: seq<Event>)
    ensures Distinct(Recency(stream))
    ensures forall id :: id in Recency(stream) <==> Writes(stream, id)
    decreases |stream|
  {
    if stream != [] {
      var front, last := stream[..|stream| - 1], stream[|stream| - 1].jobId;
      RecencyIs(front);
      RemoveMembers(Recency(front), last);
      forall id ensures id in Recency(stream) <==> Writes(stream, id) { WritesNext(stream, id); }
    }
  }

  lemma LastAtFront(stream: seq<Event>, id: string, i: nat)
    requires LastAt(stream, id, i) && stream[|stream| - 1].jobId != id
    ensures LastAt(stream[..|stream| - 1], id, i)
  {}

  /** In the order of the last event, latest first. */
  lemma {:induction false} RecencyOrdered(stream: seq<Event>, a: nat, b: nat, i: nat, j: nat)
    requires a < b < |Recency(stream)| && LastAt(stream, Recency(stream)[a], i) && LastAt(stream, Recency(stream)[b], j)
    ensures i > j
    decreases |stream|
  {
    var front, last := stream[..|stream| - 1], stream[|stream| - 1].jobId;
    var rest := Recency(front);
    RecencyIs(front);
    RemoveMembers(rest, last);
    RecencyIs(stream);
    assert Recency(stream)[b] != last;
    var x, y := Recency(stream)[a], Recency(stream)[b];
    assert Recency(stream)[0] == last;
    LastAtFront(stream, y, j);
    if a > 0 {
      LastAtFront(stream, x, i);
      var a', b' := RemoveKeepsOrder(rest, last, a - 1, b - 1);
      RecencyOrdered(front, a', b', i, j);
    }
  }

  /** The jobs with an event after the last one of this job. */
  ghost function LaterJobs(stream: seq<Event>, id: string): set<string> {
    set j | 0 <= j < |stream| && (forall k :: j <= k < |stream| ==> stream[k].jobId != id) :: stream[j].jobId
  }

  lemma {:induction false} LastEvent(stream: seq<Event>, id: string, from: nat) returns (i: nat)
    requires from < |stream| && stream[from].jobId == id
    ensures from <= i && LastAt(stream, id, i)
    decreases |stream| - from
  {
    if j :| from < j < |stream| && stream[j].jobId == id {
      i := LastEvent(stream, id, j);
    } else {
      i := from;
    }
  }

  lemma AheadWritesLater(stream: seq<Event>, k: nat, a: nat)
    requires a < k < |Recency(stream)|
    ensures Recency(stream)[a] in LaterJobs(stream, Recency(stream)[k])
  {
    var x, id := Recency(stream)[a], Recency(stream)[k];
    RecencyIs(stream);
    assert Writes(stream, id) && Writes(stream, x);
    var w :| 0 <= w < |stream| && stream[w].jobId == id;
    var v :| 0 <= v < |stream| && stream[v].jobId == x;
    var l := LastEvent(stream, id, w);
    var i := LastEvent(stream, x, v);
    RecencyOrdered(stream, a, k, i, l);
    assert forall m :: i <= m < |stream| ==> stream[m].jobId != id;
  }

  lemma LaterIsAhead(stream: seq<Event>, k: nat, x: string) returns (b: nat)
    requires k < |Recency(stream)| && x in LaterJobs(stream, Recency(stream)[k])
    ensures b < k && Recency(stream)[b] == x
  {
    var recency, id := Recency(stream), Recency(stream)[k];
    RecencyIs(stream);
    assert Writes(stream, id);
    var w :| 0 <= w < |stream| && stream[w].jobId == id;
    var j :| 0 <= j < |stream| && (forall m :: j <= m < |stream| ==> stream[m].jobId != id) && stream[j].jobId == x;
    var l := LastEvent(stream, id, w);
    var i := LastEvent(stream, x, j);
    assert Writes(stream, x);
    b :| 0 <= b < |recency| && recency[b] == x;
    if b > k { RecencyOrdered(stream, k, b, l, i); }
  }

  lemma AheadIsLater(stream: seq<Event>, k: nat, x: string)
    requires k < |Recency(stream)|
    ensures x in Recency(stream)[..k] <==> x in LaterJobs(stream, Recency(stream)[k])
  {
    if x in Recency(stream)[..k] {
      var a :| 0 <= a < k && Recency(stream)[a] == x;
      AheadWritesLater(stream, k, a);
    }
    if x in LaterJobs(stream, Recency(stream)[k]) {
      var b := LaterIsAhead(stream, k, x);
      assert Recency(stream)[..k][b] == x;
    }
  }

  lemma {:induction false} DistinctSize(xs: seq<string>, s: set<string>)
    requires Distinct(xs) && forall x :: x in xs <==> x in s
    ensures |s| == |xs|
    decreases |xs|
  {
    if xs == [] {
      assert s == {};
    } else {
      var n := |xs| - 1;
      assert xs == xs[..n] + [xs[n]] && xs[n] !in xs[..n];
      DistinctSize(xs[..n], s - {xs[n]});
    }
  }

  /** A job is tracked exactly when it has an event and fewer than 2000 other jobs have had one since its
      last. */
  lemma TrackedIff(stream: seq<Event>, id: string)
    ensures id in Tracked(stream) <==> Writes(stream, id) && |LaterJobs(stream, id)| < 2000
  {
    RecencyIs(stream);
    if Writes(stream, id) {
      var recency := Recency(stream);
      var k :| 0 <= k < |recency| && recency[k] == id;
      forall x ensures x in recency[..k] <==> x in LaterJobs(stream, id) { AheadIsLater(stream, k, x); }
      DistinctSize(recency[..k], LaterJobs(stream, id));
      if k < 2000 { assert Top(recency)[k] == id; }
    }
  }

  lemma RemoveKeepsOrder(xs: seq<string>, x: string, a: nat, b: nat) returns (c: nat, d: nat)
    requires Distinct(xs) && a < b < |Remove(xs, x)|
    ensures c < d < |xs| && xs[c] == Remove(xs, x)[a] && xs[d] == Remove(xs, x)[b]
  {
    if x in xs {
      var k :| 0 <= k < |xs| && xs[k] == x;
      RemoveIs(xs, x, k);
      c, d := if a < k then a else a + 1, if b < k then b else b + 1;
    } else {
      RemoveAbsent(xs, x);
      c, d := a, b;
    }
  }

  // ---------- One more event ----------

  lemma TopNext(all: seq<string>, id: string)
    requires Distinct(all)
    ensures Top([id] + Remove(all, id)) == Touched(Top(all), id)
  {
    if id in all {
      var k :| 0 <= k < |all| && all[k] == id;
      RemoveIs(all, id, k);
      TopNextFound(all, id, k);
    } else {
      RemoveAbsent(all, id);
    }
  }

  lemma TopNextFound(all: seq<string>, id: string, k: nat)
    requires Distinct(all) && k < |all| && all[k] == id
    ensures Top([id] + (all[..k] + all[k + 1..])) == Touched(Top(all), id)
  {
    var top := Top(all);
    if k < |top| {
      assert top[k] == id && id !in top[..k];
      RemoveIs(top, id, k);
      assert Top([id] + (all[..k] + all[k + 1..])) == [id] + (top[..k] + top[k + 1..]);
    } else {
      assert id !in top;
      assert Top([id] + (all[..k] + all[k + 1..])) == [id] + top[..|top| - 1];
    }
  }

  /** The list of tracked jobs after one more event: to the front if it is there, else in front of the
      others, the last of which goes when the list is full. */
  lemma TrackedNext(stream: seq<Event>, e: Event)
    ensures Tracked(stream + [e]) == Touched(Tracked(stream), e.jobId)
  {
    assert (stream + [e])[..|stream|] == stream;
    RecencyIs(stream);
    TopNext(Recency(stream), e.jobId);
  }

  lemma TrackedDistinct(stream: seq<Event>)
    ensures Distinct(Tracked(stream)) && |Tracked(stream)| <= MAX_JOBS
  {
    RecencyIs(stream);
  }

  lemma OfJobAppend(stream: seq<Event>, e: Event, id: string, from: nat)
    requires from <= |stream|
    ensures OfJob((stream + [e])[from..], id) == OfJob(stream[from..], id) + if e.jobId == id then [e] else []
  {
    var s := (stream + [e])[from..];
    assert s[..|s| - 1] == stream[from..];
  }

  /** The windows after one more event. */
  lemma WindowNext(stream: seq<Event>, e: Event, id: string)
    requires id in Tracked(stream + [e])
    ensures var before := if id in Tracked(stream) then Window(stream, id) else [];
      Window(stream + [e], id) == if id == e.jobId then Last(before + [e], PER_JOB_LIMIT) else before
  {
    var after := stream + [e];
    assert after[..|after| - 1] == stream;
    TrackedNext(stream, e);
    TrackedDistinct(stream);
    if id in Tracked(stream) {
      OfJobAppend(stream, e, id, Since(stream, id));
      if id == e.jobId { LastOfAppend(OfJob(stream[Since(stream, id)..], id), e, PER_JOB_LIMIT); }
    } else {
      if id != e.jobId { RemoveMembers(Tracked(stream), e.jobId); }
      OfJobAppend(stream, e, id, |stream|);
      assert stream[|stream|..] == [];
    }
  }

  // ---------- What a reader can rely on ----------

  ghost predicate Suffix(a: seq<Event>, b: seq<Event>) {
    |a| <= |b| && b[|b| - |a|..] == a
  }

  lemma {:induction false} OfJobSuffix(stream: seq<Event>, id: string, from: nat)
    requires from <= |stream|
    ensures Suffix(OfJob(stream[from..], id), OfJob(stream, id))
    decreases |stream|
  {
    if from < |stream| {
      var front, last := stream[..|stream| - 1], stream[|stream| - 1];
      OfJobSuffix(front, id, from);
      assert stream == front + [last];
      OfJobAppend(front, last, id, from);
    } else {
      assert stream[from..] == [];
    }
  }

  lemma RecencyGrows(stream: seq<Event>, e: Event)
    ensures |Recency(stream)| <= |Recency(stream + [e])|
  {
    assert (stream + [e])[..|stream|] == stream;
  }

  lemma {:induction false} NothingMissed(stream: seq<Event>, id: string)
    requires |Recency(stream)| <= MAX_JOBS && id in Recency(stream)
    ensures OfJob(stream[Since(stream, id)..], id) == OfJob(stream, id)
    decreases |stream|
  {
    var front, last := stream[..|stream| - 1], stream[|stream| - 1];
    assert stream == front + [last];
    RecencyGrows(front, last);
    RecencyIs(front);
    RecencyIs(stream);
    OfJobAppend(front, last, id, Since(front, id));
    OfJobAppend(front, last, id, |front|);
    if id in Recency(front) {
      NothingMissed(front, id);
    } else {
      NoEvents(front, id);
      assert front[|front|..] == [];
    }
  }

  lemma {:induction false} NoEvents(stream: seq<Event>, id: string)
    requires forall i :: 0 <= i < |stream| ==> stream[i].jobId != id
    ensures OfJob(stream, id) == []
    decreases |stream|
  {
    if stream != [] { NoEvents(stream[..|stream| - 1], id); }
  }

  lemma {:induction false} TrackedHasEvents(stream: seq<Event>, id: string)
    requires id in Tracked(stream)
    ensures OfJob(stream[Since(stream, id)..], id) != []
    decreases |stream|
  {
    var front, last := stream[..|stream| - 1], stream[|stream| - 1];
    assert stream == front + [last];
    TrackedNext(front, last);
    TrackedDistinct(front);
    if id in Tracked(front) {
      TrackedHasEvents(front, id);
      OfJobAppend(front, last, id, Since(front, id));
    } else {
      RemoveMembers(Tracked(front), last.jobId);
      OfJobAppend(front, last, id, |front|);
    }
  }

  lemma SuffixOfSuffix(a: seq<Event>, b: seq<Event>, n: nat)
    requires Suffix(a, b)
    ensures Suffix(Last(a, n), b)
  {}

  /** The window of a tracked job is a non-empty suffix of all its events, at most a hundred of them; as
      long as no more jobs were written than are kept, it is exactly the last hundred. */
  lemma WindowIsSuffix(stream: seq<Event>, id: string)
    requires id in Tracked(stream)
    ensures 0 < |Window(stream, id)| <= PER_JOB_LIMIT && Suffix(Window(stream, id), OfJob(stream, id))
    ensures |Recency(stream)| <= MAX_JOBS ==> Window(stream, id) == Last(OfJob(stream, id), PER_JOB_LIMIT)
  {
    TrackedHasEvents(stream, id);
    OfJobSuffix(stream, id, Since(stream, id));
    SuffixOfSuffix(OfJob(stream[Since(stream, id)..], id), OfJob(stream, id), PER_JOB_LIMIT);
    if |Recency(stream)| <= MAX_JOBS { NothingMissed(stream, id); }
  }

  // ---------- The history itself ----------

  function Sum(lru: seq<string>, windows: map<string, seq<Event>>): nat
    requires forall id :: id in lru ==> id in windows
  {
    if lru == [] then 0 else |windows[lru[0]]| + Sum(lru[1..], windows)
  }

  lemma {:induction false} SumFrame(lru: seq<string>, a: map<string, seq<Event>>, b: map<string, seq<Event>>)
    requires forall id :: id in lru ==> id in a && id in b && |a[id]| == |b[id]|
    ensures Sum(lru, a) == Sum(lru, b)
    decreases |lru|
  {
    if lru != [] { SumFrame(lru[1..], a, b); }
  }

  lemma {:induction false} SumWithout(lru: seq<string>, windows: map<string, seq<Event>>, id: string)
    requires id in lru && Distinct(lru) && forall x :: x in lru ==> x in windows
    ensures forall x :: x in Remove(lru, id) ==> x in windows
    ensures Sum(lru, windows) == |windows[id]| + Sum(Remove(lru, id), windows)
    decreases |lru|
  {
    RemoveMembers(lru, id);
    if lru[0] != id {
      RemoveMembers(lru[1..], id);
      SumWithout(lru[1..], windows, id);
    }
  }

  lemma WithoutLast(lru: seq<string>, windows: map<string, seq<Event>>)
    requires Distinct(lru) && lru != [] && forall x :: x in lru <==> x in windows
    ensures var oldest, rest := lru[|lru| - 1], lru[..|lru| - 1];
      && (forall x :: x in rest <==> x in windows - {oldest})
      && Sum(rest, windows - {oldest}) == Sum(lru, windows) - |windows[oldest]|
  {
    var oldest, rest := lru[|lru| - 1], lru[..|lru| - 1];
    RemoveIs(lru, oldest, |lru| - 1);
    assert rest + lru[|lru|..] == rest;
    SumWithout(lru, windows, oldest);
    RemoveMembers(lru, oldest);
    SumFrame(rest, windows, windows - {oldest});
  }

  lemma SumUpdated(lru: seq<string>, windows: map<string, seq<Event>>, id: string, items: seq<Event>)
    requires id in lru && Distinct(lru) && forall x :: x in lru ==> x in windows
    ensures Sum(lru, windows[id := items]) == Sum(lru, windows) - |windows[id]| + |items|
  {
    var after := windows[id := items];
    RemoveMembers(lru, id);
    SumWithout(lru, windows, id);
    SumWithout(lru, after, id);
    SumFrame(Remove(lru, id), windows, after);
  }

  lemma WindowsNext(stream: seq<Event>, e: Event, before: map<string, seq<Event>>, after: map<string, seq<Event>>)
    requires forall id :: id in before <==> id in Tracked(stream)
    requires forall id :: id in before ==> before[id] == Window(stream, id)
    requires forall id :: id in after ==> id in Tracked(stream + [e])
    requires forall id :: id in after ==>
               var kept := if id in before then before[id] else [];
               after[id] == if id == e.jobId then Last(kept + [e], PER_JOB_LIMIT) else kept
    ensures forall id :: id in after ==> after[id] == Window(stream + [e], id)
  {
    TrackedNext(stream, e);
    forall id | id in after ensures after[id] == Window(stream + [e], id) { WindowNext(stream, e, id); }
  }

  class EventHistory {
    var perJob: map<string, seq<Event>>
    var lru: seq<string>
    var recent: seq<Event>
    var total: int
    ghost var stream: seq<Event>

    /** The windows, the order of the jobs and the count are those of the stream since the last clear. */
    ghost predicate Valid()
      reads this
    {
      && recent == Last(stream, GLOBAL_LIMIT)
      && lru == Tracked(stream) && (forall id :: id in lru <==> id in perJob)
      && (forall id :: id in perJob ==> perJob[id] == Window(stream, id))
      && total == Sum(lru, perJob)
    }

    constructor ()
      ensures Valid() && stream == []
    {
      perJob, lru, recent, total, stream := map[], [], [], 0, [];
    }

    method Record(e: Event)
      requires Valid()
      modifies this
      ensures Valid() && stream == if e.jobId == "" then old(stream) else old(stream) + [e]
    {
      if e.jobId == "" {
        return;
      }
      Remember(e);
      LastOfAppend(stream, e, GLOBAL_LIMIT);
      TrackedDistinct(stream);
      TrackedNext(stream, e);
      ghost var before := perJob;
      Keep(e);
      WindowsNext(stream, e, before, perJob);
      stream := stream + [e];
    }

    /** Files the event in the window of its job. */
    method Keep(e: Event)
      requires Distinct(lru) && |lru| <= MAX_JOBS && (forall x :: x in lru <==> x in perJob)
               && total == Sum(lru, perJob)
      modifies this`lru, this`perJob, this`total
      ensures lru == Touched(old(lru), e.jobId) && forall x :: x in lru <==> x in perJob
      ensures forall x :: x in perJob ==>
                var kept := if x in old(perJob) then old(perJob)[x] else [];
                perJob[x] == if x == e.jobId then Last(kept + [e], PER_JOB_LIMIT) else kept
      ensures total == Sum(lru, perJob)
    {
      Touch(e.jobId);
      assert lru[0] == e.jobId;
      Append(e);
    }

    method Remember(e: Event)
      modifies this`recent
      ensures recent == Last(old(recent) + [e], GLOBAL_LIMIT)
    {
      recent := recent + [e];
      if |recent| > GLOBAL_LIMIT {
        recent := recent[|recent| - GLOBAL_LIMIT..];
      }
    }

    /** Brings the job to the front; a new one takes the place of the last when the list is full. */
    method Touch(id: string)
      requires Distinct(lru) && |lru| <= MAX_JOBS && (forall x :: x in lru <==> x in perJob)
               && total == Sum(lru, perJob)
      modifies this`lru, this`perJob, this`total
      ensures lru == Touched(old(lru), id) && Distinct(lru) && (forall x :: x in lru <==> x in perJob)
      ensures forall x :: x in perJob ==> perJob[x] == if x in old(perJob) then old(perJob)[x] else []
      ensures total == Sum(lru, perJob)
    {
      if id in lru {
        SumWithout(lru, perJob, id);
        RemoveMembers(lru, id);
        lru := [id] + Remove(lru, id);
      } else {
        if |lru| >= MAX_JOBS {
          EvictOldest();
        }
        PushFront(id);
      }
    }

    method PushFront(id: string)
      requires Distinct(lru) && id !in lru && (forall x :: x in lru <==> x in perJob) && total == Sum(lru, perJob)
      modifies this`lru, this`perJob
      ensures lru == [id] + old(lru) && Distinct(lru) && perJob == old(perJob)[id := []]
              && (forall x :: x in lru <==> x in perJob)
      ensures total == Sum(lru, perJob)
    {
      ghost var before := perJob;
      perJob := perJob[id := []];
      SumFrame(lru, before, perJob);
      ghost var rest := lru;
      lru := [id] + lru;
      assert lru[1..] == rest;
    }

    method EvictOldest()
      requires Distinct(lru) && lru != [] && (forall x :: x in lru <==> x in perJob) && total == Sum(lru, perJob)
      modifies this`lru, this`perJob, this`total
      ensures lru == old(lru)[..|old(lru)| - 1] && (forall x :: x in lru <==> x in perJob)
      ensures forall x :: x in perJob ==> x in old(perJob) && perJob[x] == old(perJob)[x]
      ensures total == Sum(lru, perJob)
    {
      var oldest := lru[|lru| - 1];
      WithoutLast(lru, perJob);
      total := total - |perJob[oldest]|;
      lru := lru[..|lru| - 1];
      perJob := perJob - {oldest};
    }

    method Append(e: Event)
      requires e.jobId in lru && Distinct(lru) && (forall x :: x in lru <==> x in perJob) && total == Sum(lru, perJob)
      modifies this`perJob, this`total
      ensures perJob == old(perJob)[e.jobId := Last(old(perJob)[e.jobId] + [e], PER_JOB_LIMIT)]
      ensures total == Sum(lru, perJob)
    {
      ghost var before := perJob;
      var items := perJob[e.jobId] + [e];
      if |items| > PER_JOB_LIMIT {
        var overflow := |items| - PER_JOB_LIMIT;
        items := items[overflow..];
        total := total - overflow;
      }
      total := total + 1;
      perJob := perJob[e.jobId := items];
      SumUpdated(lru, before, e.jobId, items);
    }

    /** The last events of a job, in order; all that is kept when the limit is not positive. */
    method Events(id: string, limit: int) returns (r: seq<Event>)
      requires Valid()
      ensures r ==
              if id in Tracked(stream) then Last(Window(stream, id), if limit <= 0 then PER_JOB_LIMIT else limit)
              else []
      ensures Suffix(r, OfJob(stream, id))
    {
      if id !in perJob {
        return [];
      }
      WindowIsSuffix(stream, id);
      var items := perJob[id];
      r := Tail(items, if limit <= 0 then |items| else limit);
    }

    method Recent(limit: int) returns (r: seq<Event>)
      requires Valid()
      ensures r == Last(stream, if 0 < limit < GLOBAL_LIMIT then limit else GLOBAL_LIMIT)
    {
      r := Tail(recent, if limit <= 0 then |recent| else limit);
    }

    /** Number of tracked jobs and of the events in their windows. */
    method Stats() returns (jobs: nat, events: int)
      requires Valid()
      ensures jobs == |Tracked(stream)| && events == Sum(Tracked(stream), perJob)
    {
      TrackedDistinct(stream);
      KeysCounted(lru, perJob);
      jobs, events := |perJob|, total;
    }

    /** Says how many events went. */
    method Clear() returns (cleared: int)
      requires Valid()
      modifies this
      ensures Valid() && stream == [] && cleared == Sum(old(lru), old(perJob))
    {
      cleared := total;
      perJob, lru, recent, total, stream := map[], [], [], 0, [];
    }
  }

  /** A copy of the last n items. */
  method Tail(items: seq<Event>, n: nat) returns (r: seq<Event>)
    ensures r == Last(items, n)
  {
    var count := if n > |items| then |items| else n;
    r := items[|items| - count..];
  }

  lemma {:induction false} KeysCounted(lru: seq<string>, windows: map<string, seq<Event>>)
    requires Distinct(lru) && forall id :: id in lru <==> id in windows
    ensures |windows| == |lru|
    decreases |lru|
  {
    if lru == [] {
      assert windows.Keys == {};
      assert |windows.Keys| == |windows|;
    } else {
      var rest := windows - {lru[0]};
      assert windows.Keys == rest.Keys + {lru[0]};
      assert |windows| == |windows.Keys| && |rest| == |rest.Keys|;
      forall id ensures id in lru[1..] <==> id in rest {
        if id in lru && id != lru[0] { var k :| 0 <= k < |lru| && lru[k] == id; assert lru[1..][k - 1] == id; }
      }
      KeysCounted(lru[1..], rest);
    }
  }
}
