/** The 4-ary heap of pending jobs with its index by job ID (core/heap.go). */
module QuaternaryHeaps {
  import opened Jobs

  const BRANCH_FACTOR := 4

  function Parent(i: nat): nat
    requires i > 0
  {
    (i - 1) / BRANCH_FACTOR
  }

  // ---------- What a heap means ----------

  predicate IsChild(p: nat, i: nat) {
    BRANCH_FACTOR * p + 1 <= i <= BRANCH_FACTOR * p + BRANCH_FACTOR
  }

  ghost predicate Ordered(s: seq<Job>) {
    forall p: nat, i: nat {:trigger IsChild(p, i)} :: IsChild(p, i) && i < |s| ==> s[p].triggerAt <= s[i].triggerAt
  }

  /** Ordered around `k`: the order that survives when the item at `k` is replaced by an arbitrary
      one. Pairs that avoid `k` are ordered, and k's children are not above k's parent. */
  ghost predicate OrderedExcept(s: seq<Job>, k: nat) {
    && (forall p: nat, i: nat {:trigger IsChild(p, i)} :: IsChild(p, i) && i < |s| && i != k && p != k ==>
        s[p].triggerAt <= s[i].triggerAt)
    && (forall p: nat, i: nat {:trigger IsChild(p, k), IsChild(k, i)} :: IsChild(p, k) && IsChild(k, i) && i < |s| ==>
        s[p].triggerAt <= s[i].triggerAt)
  }

  ghost predicate NotBelowParent(s: seq<Job>, k: nat) {
    k < |s| && (forall p: nat {:trigger IsChild(p, k)} :: IsChild(p, k) ==> s[p].triggerAt <= s[k].triggerAt)
  }

  ghost predicate NotAboveChildren(s: seq<Job>, k: nat) {
    k < |s| && (forall i: nat {:trigger IsChild(k, i)} :: IsChild(k, i) && i < |s| ==> s[k].triggerAt <= s[i].triggerAt)
  }

  function SwapAt(s: seq<Job>, i: nat, j: nat): (t: seq<Job>)
    requires i < |s| && j < |s|
  {
    s[i := s[j]][j := s[i]]
  }

  lemma OrderedAtLast(s: seq<Job>, k: nat)
    requires OrderedExcept(s, k) && NotBelowParent(s, k) && NotAboveChildren(s, k)
    ensures Ordered(s)
  {}

  lemma ReplaceKeepsAround(s: seq<Job>, k: nat, job: Job)
    requires Ordered(s) && k < |s|
    ensures OrderedExcept(s[k := job], k)
  {
    var t := s[k := job];
    forall p: nat, i: nat | IsChild(p, k) && IsChild(k, i) && i < |t| ensures t[p].triggerAt <= t[i].triggerAt {
      assert s[p].triggerAt <= s[k].triggerAt <= s[i].triggerAt;
    }
  }

  /** One step of sifting up: the item at `k` is earlier than its parent. */
  lemma SwapUpKeepsAround(s: seq<Job>, k: nat)
    requires 0 < k < |s| && OrderedExcept(s, k) && NotAboveChildren(s, k)
    requires s[k].triggerAt < s[Parent(k)].triggerAt
    ensures OrderedExcept(SwapAt(s, k, Parent(k)), Parent(k)) && NotAboveChildren(SwapAt(s, k, Parent(k)), Parent(k))
  {
    var q := Parent(k);
    var t := SwapAt(s, k, q);
    assert IsChild(q, k);
    forall p: nat, i: nat | IsChild(p, i) && i < |t| && i != q && p != q ensures t[p].triggerAt <= t[i].triggerAt {}
    forall p: nat, i: nat | IsChild(p, q) && IsChild(q, i) && i < |t| ensures t[p].triggerAt <= t[i].triggerAt {
      assert s[p].triggerAt <= s[q].triggerAt;
    }
  }

  /** One step of sifting down: `c` is the earliest child of `k` and earlier than `k`. */
  lemma SwapDownKeepsAround(s: seq<Job>, k: nat, c: nat)
    requires IsChild(k, c) && c < |s| && OrderedExcept(s, k) && NotBelowParent(s, k)
    requires s[c].triggerAt < s[k].triggerAt
    requires forall i: nat :: IsChild(k, i) && i < |s| ==> s[c].triggerAt <= s[i].triggerAt
    ensures OrderedExcept(SwapAt(s, k, c), c) && NotBelowParent(SwapAt(s, k, c), c)
  {
    var t := SwapAt(s, k, c);
    forall p: nat, i: nat | IsChild(p, i) && i < |t| && i != c && p != c ensures t[p].triggerAt <= t[i].triggerAt {
      if i == k { assert IsChild(p, k) && IsChild(k, c); }
    }
    forall p: nat, i: nat | IsChild(p, c) && IsChild(c, i) && i < |t| ensures t[p].triggerAt <= t[i].triggerAt {
      assert p == k;
      assert s[c].triggerAt <= s[i].triggerAt;
    }
  }

  lemma PushKeepsAround(s: seq<Job>, job: Job)
    requires Ordered(s)
    ensures OrderedExcept(s + [job], |s|) && NotAboveChildren(s + [job], |s|)
  {}

  lemma DropLastKeepsAround(s: seq<Job>, k: nat)
    requires 0 < |s| && OrderedExcept(s, k)
    ensures OrderedExcept(s[..|s| - 1], k)
  {}

  /** The index is an exact bijection between the stored IDs and the positions. */
  ghost predicate IndexExact(s: seq<Job>, index: map<string, nat>) {
    && (forall i {:trigger s[i]} :: 0 <= i < |s| ==> s[i].id in index && index[s[i].id] == i)
    && (forall id {:trigger index[id]} :: id in index ==> index[id] < |s| && s[index[id]].id == id)
  }

  /** The abstract value: the stored job of every ID. */
  ghost function ById(s: seq<Job>, index: map<string, nat>): map<string, Job>
    requires IndexExact(s, index)
  {
    map id | id in index :: s[index[id]]
  }

  ghost predicate Minimal(m: map<string, Job>, job: Job, allow: Job -> bool, now: int) {
    && job.id in m && m[job.id] == job && Eligible(job, allow, now)
    && forall id :: id in m && Eligible(m[id], allow, now) ==> job.triggerAt <= m[id].triggerAt
  }

  predicate Eligible(job: Job, allow: Job -> bool, now: int) {
    job.triggerAt <= now && allow(job)
  }

  lemma {:induction false} RootIsEarliest(s: seq<Job>, i: nat)
    requires Ordered(s) && i < |s|
    ensures s[0].triggerAt <= s[i].triggerAt
  {
    if i > 0 {
      assert IsChild(Parent(i), i);
      RootIsEarliest(s, Parent(i));
    }
  }

  /** Pushing keeps the index exact if and only if the ID is not already stored. */
  lemma PushKeepsIndexExactIff(s: seq<Job>, index: map<string, nat>, job: Job)
    requires IndexExact(s, index)
    ensures IndexExact(s + [job], index[job.id := |s|]) <==> job.id !in index
  {
    var t, next := s + [job], index[job.id := |s|];
    if job.id in index {
      assert t[index[job.id]].id == job.id;
    } else {
      forall i | 0 <= i < |t| ensures t[i].id in next && next[t[i].id] == i {
        if i < |s| { assert t[i] == s[i]; }
      }
    }
  }

  // ---------- The pruned search ----------

  /** The indices the pruned recursion visits from `idx`, in visiting order. */
  function EachDue(s: seq<Job>, idx: nat, now: int): (visited: seq<nat>)
    ensures forall i :: i in visited ==> i < |s| && s[i].triggerAt <= now
    decreases if idx < |s| then |s| - idx else 0
  {
    if idx >= |s| || s[idx].triggerAt > now then []
    else
      [idx] + EachDue(s, 4 * idx + 1, now) + EachDue(s, 4 * idx + 2, now)
            + EachDue(s, 4 * idx + 3, now) + EachDue(s, 4 * idx + 4, now)
  }

  /** `i` lies in the subtree rooted at `root`. */
  ghost predicate Under(root: nat, i: nat) {
    i == root || (i > root && Under(root, Parent(i)))
  }

  ghost function Times(visited: seq<nat>, i: nat): nat { multiset(visited)[i] }

  lemma {:induction false} UnderSplits(root: nat, i: nat)
    ensures Bit(Under(root, i)) == Bit(i == root) + Bit(Under(4 * root + 1, i)) + Bit(Under(4 * root + 2, i))
                                   + Bit(Under(4 * root + 3, i)) + Bit(Under(4 * root + 4, i))
  {
    if i > root {
      if Parent(i) == root {
        assert i == 4 * root + 1 || i == 4 * root + 2 || i == 4 * root + 3 || i == 4 * root + 4;
      } else {
        UnderSplits(root, Parent(i));
      }
    }
  }

  ghost predicate DueAt(s: seq<Job>, now: int, i: nat) {
    i < |s| && s[i].triggerAt <= now
  }

  lemma {:induction false} DueReachesUp(s: seq<Job>, root: nat, i: nat, now: int)
    requires Ordered(s) && Under(root, i) && DueAt(s, now, i)
    ensures DueAt(s, now, root)
  {
    if i != root {
      assert IsChild(Parent(i), i);
      DueReachesUp(s, root, Parent(i), now);
    }
  }

  /** The pruned recursion visits every due index of its subtree exactly once, and nothing else. */
  lemma {:induction false} EachDueVisitsOnce(s: seq<Job>, root: nat, now: int, i: nat)
    requires Ordered(s)
    ensures Times(EachDue(s, root, now), i) == Bit(Under(root, i) && DueAt(s, now, i))
    decreases if root < |s| then |s| - root else 0, 1
  {
    if !DueAt(s, now, root) {
      EachDueStops(s, root, now, i);
    } else {
      assert root < |s| && s[root].triggerAt <= now;
      EachDueSplits(s, root, now, i);
      ChildrenVisitOnce(s, root, now, i);
      UnderSplits(root, i);
      AddUp(s, root, now, i);
    }
  }

  lemma {:induction false} ChildrenVisitOnce(s: seq<Job>, root: nat, now: int, i: nat)
    requires Ordered(s) && root < |s|
    ensures forall c :: 4 * root + 1 <= c <= 4 * root + 4 ==>
            Times(EachDue(s, c, now), i) == Bit(Under(c, i) && DueAt(s, now, i))
    decreases if root < |s| then |s| - root else 0, 0
  {
    forall c | 4 * root + 1 <= c <= 4 * root + 4
      ensures Times(EachDue(s, c, now), i) == Bit(Under(c, i) && DueAt(s, now, i))
    {
      EachDueVisitsOnce(s, c, now, i);
    }
  }

  lemma EachDueStops(s: seq<Job>, root: nat, now: int, i: nat)
    requires Ordered(s) && !DueAt(s, now, root)
    ensures Times(EachDue(s, root, now), i) == 0 && !(Under(root, i) && DueAt(s, now, i))
  {
    assert EachDue(s, root, now) == [];
    if Under(root, i) && DueAt(s, now, i) { DueReachesUp(s, root, i, now); }
  }

  lemma AddUp(s: seq<Job>, root: nat, now: int, i: nat)
    requires DueAt(s, now, root)
    requires Bit(Under(root, i)) == Bit(i == root) + Bit(Under(4 * root + 1, i)) + Bit(Under(4 * root + 2, i))
                                   + Bit(Under(4 * root + 3, i)) + Bit(Under(4 * root + 4, i))
    ensures Bit(Under(root, i) && DueAt(s, now, i)) == Bit(i == root)
      + Bit(Under(4 * root + 1, i) && DueAt(s, now, i)) + Bit(Under(4 * root + 2, i) && DueAt(s, now, i))
      + Bit(Under(4 * root + 3, i) && DueAt(s, now, i)) + Bit(Under(4 * root + 4, i) && DueAt(s, now, i))
  {}

  lemma TimesConcat(a: seq<nat>, b: seq<nat>, i: nat)
    ensures Times(a + b, i) == Times(a, i) + Times(b, i)
  {}

  lemma EachDueSplits(s: seq<Job>, root: nat, now: int, i: nat)
    requires root < |s| && s[root].triggerAt <= now
    ensures Times(EachDue(s, root, now), i) == Bit(i == root)
      + Times(EachDue(s, 4 * root + 1, now), i) + Times(EachDue(s, 4 * root + 2, now), i)
      + Times(EachDue(s, 4 * root + 3, now), i) + Times(EachDue(s, 4 * root + 4, now), i)
  {
    var a, b := EachDue(s, 4 * root + 1, now), EachDue(s, 4 * root + 2, now);
    var c, d := EachDue(s, 4 * root + 3, now), EachDue(s, 4 * root + 4, now);
    assert EachDue(s, root, now) == [root] + a + b + c + d;
    TimesConcat([root] + a + b + c, d, i);
    TimesConcat([root] + a + b, c, i);
    TimesConcat([root] + a, b, i);
    TimesConcat([root], a, i);
  }

  lemma {:induction false} EverythingUnderRoot(i: nat)
    ensures Under(0, i)
  {
    if i > 0 { EverythingUnderRoot(Parent(i)); }
  }

  /** From the root, the recursion visits exactly the due indices, each once. */
  lemma DueIndicesVisitedOnce(s: seq<Job>, now: int, i: nat)
    requires Ordered(s)
    ensures Times(EachDue(s, 0, now), i) == Bit(DueAt(s, now, i))
  {
    EachDueVisitsOnce(s, 0, now, i);
    EverythingUnderRoot(i);
  }

  lemma DueIndexVisited(s: seq<Job>, now: int, i: nat)
    requires Ordered(s) && DueAt(s, now, i)
    ensures exists w :: 0 <= w < |EachDue(s, 0, now)| && EachDue(s, 0, now)[w] == i
  {
    DueIndicesVisitedOnce(s, now, i);
    var visits := EachDue(s, 0, now);
    assert i in multiset(visits);
  }

  // ---------- Repeated pops ----------

  /** `popped` are the results of successive PopIfDue calls at time `now`, from `m` to `rest`. */
  ghost predicate Drains(m: map<string, Job>, popped: seq<Job>, rest: map<string, Job>, now: int)
    decreases |popped|
  {
    if popped == [] then m == rest
    else Minimal(m, popped[0], _ => true, now) && Drains(m - {popped[0].id}, popped[1..], rest, now)
  }

  ghost function Ids(jobs: seq<Job>): set<string> {
    set job | job in jobs :: job.id
  }

  lemma FirstIsEarliest(m: map<string, Job>, first: Job, now: int)
    requires Minimal(m, first, _ => true, now)
    ensures first.id in m && m[first.id] == first && first.triggerAt <= now
    ensures forall id :: id in m && m[id].triggerAt <= now ==> first.triggerAt <= m[id].triggerAt
  {
    assert forall id :: id in m && m[id].triggerAt <= now ==> Eligible(m[id], _ => true, now);
  }

  lemma {:induction false} DrainedWereStored(m: map<string, Job>, popped: seq<Job>, rest: map<string, Job>, now: int)
    requires Drains(m, popped, rest, now)
    ensures forall job :: job in popped ==> job.id in m && m[job.id] == job && job.triggerAt <= now
    decreases |popped|
  {
    if popped != [] {
      FirstIsEarliest(m, popped[0], now);
      DrainedWereStored(m - {popped[0].id}, popped[1..], rest, now);
      assert popped == [popped[0]] + popped[1..];
    }
  }

  lemma {:induction false} DrainLosesNothing(m: map<string, Job>, popped: seq<Job>, rest: map<string, Job>, now: int)
    requires Drains(m, popped, rest, now)
    ensures rest == m - Ids(popped)
    decreases |popped|
  {
    if popped != [] {
      DrainLosesNothing(m - {popped[0].id}, popped[1..], rest, now);
      assert popped == [popped[0]] + popped[1..];
      assert Ids(popped) == {popped[0].id} + Ids(popped[1..]);
    }
  }

  /** Successive pops come out in non-decreasing trigger time, each ID once, and lose nothing else. */
  lemma {:induction false} DrainIsSorted(m: map<string, Job>, popped: seq<Job>, rest: map<string, Job>, now: int)
    requires Drains(m, popped, rest, now)
    ensures forall i, j :: 0 <= i < j < |popped| ==>
            popped[i].triggerAt <= popped[j].triggerAt && popped[i].id != popped[j].id
    ensures forall job :: job in popped ==> job.id in m && m[job.id] == job && job.triggerAt <= now
    ensures rest == m - Ids(popped)
    decreases |popped|
  {
    DrainedWereStored(m, popped, rest, now);
    DrainLosesNothing(m, popped, rest, now);
    if popped != [] {
      var first, later := popped[0], popped[1..];
      FirstIsEarliest(m, first, now);
      DrainedWereStored(m - {first.id}, later, rest, now);
      DrainIsSorted(m - {first.id}, later, rest, now);
      forall j | 0 < j < |popped| ensures first.triggerAt <= popped[j].triggerAt && first.id != popped[j].id {
        assert popped[j] == later[j - 1] && later[j - 1] in later;
      }
      forall i, j | 0 < i < j < |popped|
        ensures popped[i].triggerAt <= popped[j].triggerAt && popped[i].id != popped[j].id
      {
        assert popped[i] == later[i - 1] && popped[j] == later[j - 1];
      }
    }
  }

  // ---------- The heap itself ----------

  class QuaternaryHeap {
    var items: seq<Job>
    var indexMap: map<string, nat>

    ghost predicate Exact()
      reads this
    {
      IndexExact(items, indexMap)
    }

    ghost predicate Valid()
      reads this
    {
      Exact() && Ordered(items)
    }

    ghost function Contents(): map<string, Job>
      requires Exact()
      reads this
    {
      ById(items, indexMap)
    }

    constructor ()
      ensures Valid() && Contents() == map[]
    {
      items, indexMap := [], map[];
    }

    method Len() returns (n: nat)
      requires Valid()
      ensures n == |Contents()|
    {
      n := |items|;
      assert Contents().Keys == indexMap.Keys;
      IndexSize(items, indexMap);
    }

    method Swap(i: nat, j: nat)
      requires Exact() && i < |items| && j < |items|
      modifies this
      ensures Exact() && Contents() == old(Contents())
      ensures items == SwapAt(old(items), i, j)
    {
      items := items[i := items[j]][j := items[i]];
      indexMap := indexMap[items[i].id := i];
      indexMap := indexMap[items[j].id := j];
    }

    /** Adds a job whose ID is not stored: a stored one would break the index (PushKeepsIndexExactIff). */
    method PushItem(job: Job)
      requires Valid() && job.id !in Contents()
      modifies this
      ensures Valid() && Contents() == old(Contents())[job.id := job]
    {
      PushKeepsIndexExactIff(items, indexMap, job);
      PushKeepsAround(items, job);
      indexMap := indexMap[job.id := |items|];
      items := items + [job];
      SiftUp(|items| - 1);
    }

    /** The earliest job if it is due. */
    method PopIfDue(now: int) returns (popped: Option<Job>)
      requires Valid()
      modifies this
      ensures Valid()
      ensures popped.None? ==> Contents() == old(Contents()) && forall id :: id in Contents() ==>
              Contents()[id].triggerAt > now
      ensures popped.Some? ==>
        var m, job := old(Contents()), popped.value;
        && job.id in m && m[job.id] == job && Contents() == m - {job.id} && job.triggerAt <= now
        && forall id :: id in m ==> job.triggerAt <= m[id].triggerAt
    {
      forall i | 0 <= i < |items| ensures items[0].triggerAt <= items[i].triggerAt { RootIsEarliest(items, i); }
      if |items| == 0 || items[0].triggerAt > now {
        return None;
      }
      var job := RemoveAt(0);
      popped := Some(job);
    }

    /** The position the pruned search settles on, -1 when nothing due is allowed. */
    method EarliestDue(now: int, allow: Job -> bool) returns (best: int)
      requires Valid()
      ensures -1 <= best < |items|
      ensures best == -1 ==> forall i :: 0 <= i < |items| ==> !Eligible(items[i], allow, now)
      ensures best != -1 ==> Eligible(items[best], allow, now)
      ensures best != -1 ==> forall i :: 0 <= i < |items| && Eligible(items[i], allow, now) ==>
              items[best].triggerAt <= items[i].triggerAt
    {
      var visits := EachDue(items, 0, now);
      best := BestOf(visits, now, allow);
      forall i: nat | i < |items| && Eligible(items[i], allow, now)
        ensures best != -1 && items[best].triggerAt <= items[i].triggerAt
      {
        DueIndexVisited(items, now, i);
      }
    }

    /** Keeps the earliest allowed position of those visited. */
    method BestOf(visits: seq<nat>, now: int, allow: Job -> bool) returns (best: int)
      requires forall i :: i in visits ==> i < |items| && items[i].triggerAt <= now
      ensures -1 <= best < |items|
      ensures best == -1 ==> forall i :: i in visits ==> !allow(items[i])
      ensures best != -1 ==> Eligible(items[best], allow, now)
      ensures best != -1 ==> forall i :: i in visits && allow(items[i]) ==> items[best].triggerAt <= items[i].triggerAt
    {
      best := -1;
      for v := 0 to |visits|
        invariant -1 <= best < |items|
        invariant forall i :: i in visits[..v] ==> i < |items|
        invariant best == -1 ==> forall i :: i in visits[..v] ==> !allow(items[i])
        invariant best != -1 ==> Eligible(items[best], allow, now)
        invariant best != -1 ==> forall i :: i in visits[..v] && allow(items[i]) ==>
                  items[best].triggerAt <= items[i].triggerAt
      {
        assert visits[..v + 1] == visits[..v] + [visits[v]];
        assert visits[v] in visits;
        var item := items[visits[v]];
        if allow(item) && (best == -1 || item.triggerAt < items[best].triggerAt) {
          best := visits[v];
        }
      }
      assert visits[..|visits|] == visits;
    }

    /** The earliest job among those both due and allowed: the pruned search agrees with a plain
        filter and minimum over the whole contents. */
    method PopIfDueWhere(now: int, allow: Job -> bool) returns (popped: Option<Job>)
      requires Valid()
      modifies this
      ensures Valid()
      ensures popped.None? ==> Contents() == old(Contents()) && forall id :: id in Contents() ==>
              Contents()[id].triggerAt > now || !allow(Contents()[id])
      ensures popped.Some? ==>
        var m, job := old(Contents()), popped.value;
        && job.id in m && m[job.id] == job && Contents() == m - {job.id} && job.triggerAt <= now && allow(job)
        && forall id :: id in m && m[id].triggerAt <= now && allow(m[id]) ==> job.triggerAt <= m[id].triggerAt
    {
      if |items| == 0 {
        return None;
      }
      forall i | 0 <= i < |items| ensures items[0].triggerAt <= items[i].triggerAt { RootIsEarliest(items, i); }
      if allow(items[0]) && items[0].triggerAt <= now {
        var job := RemoveAt(0);
        return Some(job);
      }
      if items[0].triggerAt > now {
        return None;
      }
      var best := EarliestDue(now, allow);
      if best == -1 {
        return None;
      }
      var job := RemoveAt(best);
      popped := Some(job);
    }

    /** Whether anything is due, found by the same pruned search. */
    method HasDue(now: int) returns (found: bool)
      requires Valid()
      ensures found <==> exists id :: id in Contents() && Contents()[id].triggerAt <= now
    {
      var visits := EachDue(items, 0, now);
      found := false;
      for v := 0 to |visits|
        invariant found <==> v > 0
      {
        found := true;
      }
      if found {
        var i := visits[0];
        assert Contents()[items[i].id] == items[i];
      } else {
        forall id | id in Contents() ensures Contents()[id].triggerAt > now {
          DueIndicesVisitedOnce(items, now, indexMap[id]);
        }
      }
    }

    method Peek() returns (top: Option<Job>)
      requires Valid()
      ensures top.None? <==> Contents() == map[]
      ensures top.Some? ==> top.value.id in Contents() && Contents()[top.value.id] == top.value
                            && forall id :: id in Contents() ==> top.value.triggerAt <= Contents()[id].triggerAt
    {
      forall i | 0 <= i < |items| ensures items[0].triggerAt <= items[i].triggerAt { RootIsEarliest(items, i); }
      if |items| == 0 {
        return None;
      }
      assert items[0].id in Contents();
      top := Some(items[0]);
    }

    method Get(id: string) returns (found: Option<Job>)
      requires Valid()
      ensures found == if id in Contents() then Some(Contents()[id]) else None
    {
      if id !in indexMap {
        return None;
      }
      found := Some(items[indexMap[id]]);
    }

    method Remove(id: string) returns (removed: Option<Job>)
      requires Valid()
      modifies this
      ensures Valid() && Contents() == old(Contents()) - {id}
      ensures removed == if id in old(Contents()) then Some(old(Contents())[id]) else None
    {
      if id !in indexMap {
        return None;
      }
      var job := RemoveAt(indexMap[id]);
      removed := Some(job);
    }

    /** Replaces the stored job of the same ID, whatever its new trigger time. */
    method Update(job: Job) returns (ok: bool)
      requires Valid()
      modifies this
      ensures Valid() && ok == (job.id in old(Contents()))
      ensures Contents() == if ok then old(Contents())[job.id := job] else old(Contents())
    {
      if job.id !in indexMap {
        return false;
      }
      var idx := indexMap[job.id];
      ReplaceKeepsAround(items, idx, job);
      items := items[idx := job];
      SiftRange(idx);
      ok := true;
    }

    method RemoveAt(idx: nat) returns (job: Job)
      requires Valid() && idx < |items|
      modifies this
      ensures Valid() && job == old(items[idx]) && Contents() == old(Contents()) - {job.id}
    {
      var last := |items| - 1;
      if idx != last {
        ReplaceKeepsAround(items, idx, items[last]);
        DropLastKeepsAround(items[idx := items[last]], idx);
        Swap(idx, last);
        assert items[..last] == old(items)[idx := old(items[last])][..last];
      }
      job := TakeLast();
      if idx != last {
        SiftRange(idx);
      }
    }

    method TakeLast() returns (job: Job)
      requires Exact() && items != []
      modifies this
      ensures Exact() && items == old(items)[..|old(items)| - 1] && job == old(items)[|old(items)| - 1]
      ensures Contents() == old(Contents()) - {job.id}
    {
      var last := |items| - 1;
      job := items[last];
      items := items[..last];
      indexMap := indexMap - {job.id};
    }

    method SiftRange(idx: nat)
      requires Exact() && idx < |items| && OrderedExcept(items, idx)
      modifies this
      ensures Valid() && Contents() == old(Contents())
    {
      if idx > 0 && items[idx].triggerAt < items[Parent(idx)].triggerAt {
        assert IsChild(Parent(idx), idx);
        SiftUp(idx);
        return;
      }
      SiftDown(idx);
    }

    method SiftUp(start: nat)
      requires Exact() && OrderedExcept(items, start) && NotAboveChildren(items, start)
      modifies this
      ensures Valid() && Contents() == old(Contents())
    {
      var idx: nat := start;
      while idx > 0
        invariant idx < |items| && Exact() && Contents() == old(Contents())
        invariant OrderedExcept(items, idx) && NotAboveChildren(items, idx)
      {
        var parent := Parent(idx);
        if items[idx].triggerAt >= items[parent].triggerAt {
          break;
        }
        SwapUpKeepsAround(items, idx);
        Swap(idx, parent);
        idx := parent;
      }
      OrderedAtLast(items, idx);
    }

    method SiftDown(start: nat)
      requires Exact() && OrderedExcept(items, start) && NotBelowParent(items, start)
      modifies this
      ensures Valid() && Contents() == old(Contents())
    {
      var idx, n := start, |items|;
      while true
        invariant n == |items| && idx < n && Exact() && Contents() == old(Contents())
        invariant OrderedExcept(items, idx) && NotBelowParent(items, idx)
        decreases n - idx
      {
        var minIdx, firstChild := idx, BRANCH_FACTOR * idx + 1;
        if firstChild >= n {
          OrderedAtLast(items, idx);
          return;
        }
        var last := if firstChild + BRANCH_FACTOR > n then n else firstChild + BRANCH_FACTOR;
        for child := firstChild to last
          invariant minIdx == idx || (firstChild <= minIdx < child && items[minIdx].triggerAt < items[idx].triggerAt)
          invariant forall c: nat :: firstChild <= c < child ==> items[minIdx].triggerAt <= items[c].triggerAt
        {
          if items[child].triggerAt < items[minIdx].triggerAt {
            minIdx := child;
          }
        }
        if minIdx == idx {
          OrderedAtLast(items, idx);
          return;
        }
        SwapDownKeepsAround(items, idx, minIdx);
        Swap(idx, minIdx);
        idx := minIdx;
      }
    }
  }

  lemma {:induction false} IndexSize(s: seq<Job>, index: map<string, nat>)
    requires IndexExact(s, index)
    ensures |index| == |s|
  {
    if s == [] {
      assert index.Keys == {};
    } else {
      var n := |s| - 1;
      var id := s[n].id;
      var rest := index - {id};
      assert IndexExact(s[..n], rest) by {
        forall i | 0 <= i < n ensures s[..n][i].id in rest && rest[s[..n][i].id] == i { assert s[i].id != id; }
        forall k | k in rest ensures rest[k] < n && s[..n][rest[k]].id == k { assert index[k] != n; }
      }
      IndexSize(s[..n], rest);
      assert index.Keys == rest.Keys + {id};
    }
  }
}
