/** The request budget shared by every process that talks to arXiv: the reservation script
    (schemas/ratelimit.lua) and its clients (rust/common/src/ratelimit.rs,
    python/arxiv_common/src/arxiv_common/ratelimit.py).  Times are milliseconds; the script's clock is the
    Redis server's. */
module RateLimit {
  import opened Prelude

  const SLOT_GUARD: nat := 50
  const DEFAULT_TTL: nat := 3_600_000

  /** One run of the script: server time, ARGV, and the process that asked. */
  datatype Call = Call(now: int, interval: nat, ttl: nat, who: nat)

  function Max(a: int, b: int): int {
    if a >= b then a else b
  }

  /** The slot the i-th reservation gets, when the key is empty before the first. */
  function SlotAt(calls: seq<Call>, i: nat): int
    requires i < |calls|
  {
    if i == 0 then calls[0].now
    else
      var before := calls[i - 1];
      var kept := calls[i].now < before.now + before.ttl;
      if kept && SlotAt(calls, i - 1) + calls[i].interval > calls[i].now then
        SlotAt(calls, i - 1) + calls[i].interval
      else calls[i].now
  }

  function WaitAt(calls: seq<Call>, i: nat): int
    requires i < |calls|
  {
    SlotAt(calls, i) - calls[i].now
  }

  lemma {:induction false} SlotOfPrefix(calls: seq<Call>, more: seq<Call>, i: nat)
    requires i < |calls|
    ensures SlotAt(calls + more, i) == SlotAt(calls, i)
  {
    if i > 0 {
      SlotOfPrefix(calls, more, i - 1);
    }
  }

  /** The budget key in Redis. */
  class Budget {
    var slot: Option<int>       // value of the key, if it was ever set
    var expiresAt: int
    ghost var calls: seq<Call>  // every reservation so far

    ghost predicate Valid()
      reads this
    {
      && (slot.None? <==> calls == [])
      && (calls != [] ==>
            var last := |calls| - 1;
            slot == Some(SlotAt(calls, last)) && expiresAt == calls[last].now + calls[last].ttl)
    }

    constructor ()
      ensures Valid() && calls == []
    {
      slot, expiresAt, calls := None, 0, [];
    }

    /** The script.  GET on an expired key finds nothing. */
    method Reserve(now: int, interval: nat, ttl: nat, ghost who: nat) returns (wait: int)
      requires Valid()
      modifies this
      ensures Valid() && calls == old(calls) + [Call(now, interval, ttl, who)]
      ensures wait == WaitAt(calls, |calls| - 1) >= 0
    {
      var last := if slot.Some? && now < expiresAt then slot else None;
      var mine := now;
      if last.Some? && last.value + interval > mine {
        mine := last.value + interval;
      }
      slot, expiresAt := Some(mine), now + ttl;
      ghost var before := calls;
      calls := calls + [Call(now, interval, ttl, who)];
      if before != [] {
        SlotOfPrefix(before, [Call(now, interval, ttl, who)], |before| - 1);
      }
      wait := mine - now;
    }
  }

  // ---- key expiry ----

  /** The Redis clock never goes back. */
  ghost predicate Monotone(calls: seq<Call>) {
    forall i, j :: 0 <= i <= j < |calls| ==> calls[i].now <= calls[j].now
  }

  /** The slot as if the key never expired. */
  function IdealSlot(calls: seq<Call>, i: nat): int
    requires i < |calls|
  {
    if i == 0 then calls[0].now else Max(calls[i].now, IdealSlot(calls, i - 1) + calls[i].interval)
  }

  /** Every reservation up to n has its wait and the next caller's interval inside its TTL. */
  ghost predicate FitsTtl(calls: seq<Call>, n: nat)
    requires n <= |calls|
  {
    forall i, j :: 0 <= i && j == i + 1 < n ==> WaitAt(calls, i) + calls[j].interval <= calls[i].ttl
  }

  /** As long as that holds, nobody can tell that the key expires. */
  lemma {:induction false} ExpiryIsInvisible(calls: seq<Call>, n: nat, i: nat)
    requires Monotone(calls) && i < n <= |calls| && FitsTtl(calls, n)
    ensures SlotAt(calls, i) == IdealSlot(calls, i) >= calls[i].now
  {
    assert calls[i].now >= calls[0].now;
    if i > 0 {
      ExpiryIsInvisible(calls, n, i - 1);
      assert calls[i].now >= calls[i - 1].now;
      assert WaitAt(calls, i - 1) + calls[i].interval <= calls[i - 1].ttl;
    }
  }

  /** The condition is exact: after a reservation, every later caller is spaced by its interval, whenever it
      comes, precisely when wait plus interval fits the TTL. */
  lemma TtlConditionIsExact(calls: seq<Call>, interval: nat, ttl: nat)
    requires calls != []
    ensures var last := calls[|calls| - 1];
            (forall now :: now >= last.now ==>
               SlotAt(calls + [Call(now, interval, ttl, 0)], |calls|) >= SlotAt(calls, |calls| - 1) + interval)
            <==> WaitAt(calls, |calls| - 1) + interval <= last.ttl
  {
    var last := calls[|calls| - 1];
    forall now {
      SlotOfPrefix(calls, [Call(now, interval, ttl, 0)], |calls| - 1);
    }
    var late := last.now + last.ttl;
    assert SlotAt(calls + [Call(late, interval, ttl, 0)], |calls|) == late;
  }

  /** n + 1 callers at one moment. */
  function Burst(n: nat, interval: nat, ttl: nat): seq<Call> {
    seq(n + 1, i => Call(0, interval, ttl, if i >= 0 then i else 0))
  }

  lemma {:induction false} BurstSlots(n: nat, interval: nat, ttl: nat, i: nat)
    requires i <= n && ttl > 0
    ensures SlotAt(Burst(n, interval, ttl), i) == i * interval
  {
    if i > 0 {
      BurstSlots(n, interval, ttl, i - 1);
      assert i * interval == (i - 1) * interval + interval;
    }
  }

  /** And it can fail, for every interval and TTL: after a burst of more callers than intervals fit the TTL, a
      caller that comes as the key expires gets a slot too close to the last one. */
  lemma ExpiryCanBreakSpacing(interval: nat, ttl: nat, n: nat)
    requires ttl > 0 && (n + 1) * interval > ttl
    ensures var calls := Burst(n, interval, ttl);
            Monotone(calls) &&
            SlotAt(calls + [Call(ttl, interval, ttl, n + 1)], n + 1) < SlotAt(calls, n) + interval
  {
    var calls := Burst(n, interval, ttl);
    var late := Call(ttl, interval, ttl, n + 1);
    BurstSlots(n, interval, ttl, n);
    assert (n + 1) * interval == n * interval + interval;
    assert (calls + [late])[n] == calls[n];
  }

  lemma {:induction false} IdealSpacing(calls: seq<Call>, i: nat, j: nat)
    requires i < j < |calls|
    ensures IdealSlot(calls, j) - IdealSlot(calls, i) >= calls[j].interval
    decreases j
  {
    if i + 1 < j {
      IdealSpacing(calls, i, j - 1);
    }
  }

  /** Global spacing: any two reservations of any processes are at least the later one's interval apart. */
  lemma SlotsAreSpaced(calls: seq<Call>, i: nat, j: nat)
    requires Monotone(calls) && FitsTtl(calls, |calls|) && i < j < |calls|
    ensures SlotAt(calls, j) - SlotAt(calls, i) >= calls[j].interval
  {
    ExpiryIsInvisible(calls, |calls|, i);
    ExpiryIsInvisible(calls, |calls|, j);
    IdealSpacing(calls, i, j);
  }

  lemma {:induction false} IdealIsEarliest(calls: seq<Call>, i: nat, at: int)
    requires i < |calls| && at >= calls[i].now
    requires forall j: nat :: j < i ==> at >= IdealSlot(calls, j) + calls[i].interval
    ensures IdealSlot(calls, i) <= at
  {
  }

  /** A time, not before the call, that keeps the caller's interval from every earlier slot. */
  ghost predicate KeepsInterval(calls: seq<Call>, i: nat, at: int)
    requires i < |calls|
  {
    at >= calls[i].now && forall j: nat :: j < i ==> at - calls[i].interval >= SlotAt(calls, j)
  }

  /** Nobody waits longer than the spacing asks for: a slot is the earliest such time. */
  lemma SlotIsEarliest(calls: seq<Call>, i: nat, at: int)
    requires Monotone(calls) && FitsTtl(calls, |calls|) && i < |calls|
    ensures KeepsInterval(calls, i, at) <==> at >= SlotAt(calls, i)
  {
    ExpiryIsInvisible(calls, |calls|, i);
    if at >= SlotAt(calls, i) {
      SlotKeepsInterval(calls, i, at);
    }
    if KeepsInterval(calls, i, at) {
      forall j: nat | j < i
        ensures at >= IdealSlot(calls, j) + calls[i].interval
      {
        ExpiryIsInvisible(calls, |calls|, j);
        assert at - calls[i].interval >= SlotAt(calls, j);
      }
      IdealIsEarliest(calls, i, at);
    }
  }

  lemma SlotKeepsInterval(calls: seq<Call>, i: nat, at: int)
    requires Monotone(calls) && FitsTtl(calls, |calls|) && i < |calls| && at >= SlotAt(calls, i)
    ensures KeepsInterval(calls, i, at)
  {
    ExpiryIsInvisible(calls, |calls|, i);
    forall j: nat | j < i
      ensures at - calls[i].interval >= SlotAt(calls, j)
    {
      SlotsAreSpaced(calls, j, i);
    }
  }

  // ---- FIFO and bounded waiting, for one interval shared by all callers ----

  ghost predicate Uniform(calls: seq<Call>, interval: nat, ttl: nat) {
    forall i :: 0 <= i < |calls| ==> calls[i].interval == interval && calls[i].ttl == ttl
  }

  /** Earlier reservations whose slot is still in the future when reservation i is made. */
  function Pending(calls: seq<Call>, i: nat): set<nat>
    requires i < |calls|
  {
    set j: nat | j < i && IdealSlot(calls, j) > calls[i].now
  }

  lemma IdealStep(calls: seq<Call>, i: nat)
    requires i < |calls|
    ensures IdealSlot(calls, i) ==
            if i == 0 then calls[0].now else Max(calls[i].now, IdealSlot(calls, i - 1) + calls[i].interval)
  {
  }

  /** If j is the first pending reservation, slots from it on come one interval apart. */
  lemma {:induction false} PendingBound(calls: seq<Call>, interval: nat, ttl: nat, i: nat, j: nat, t: nat)
    requires Monotone(calls) && Uniform(calls, interval, ttl) && j <= t < i < |calls|
    requires forall u: nat :: j <= u < i ==> IdealSlot(calls, u) > calls[i].now
    requires j > 0 ==> IdealSlot(calls, j - 1) <= calls[i].now
    ensures IdealSlot(calls, t) <= calls[i].now + (t - j + 1) * interval
  {
    hide IdealSlot;
    assert IdealSlot(calls, t) > calls[i].now >= calls[t].now;
    IdealStep(calls, t);
    if t > j {
      PendingBound(calls, interval, ttl, i, j, t - 1);
      assert (t - j) * interval + interval == (t - j + 1) * interval;
    }
  }

  /** Where the pending reservations start. */
  function FirstPending(calls: seq<Call>, i: nat, j: nat): (p: nat)
    requires j <= i < |calls|
    ensures p <= j && (p > 0 ==> IdealSlot(calls, p - 1) <= calls[i].now)
    ensures forall u: nat :: p <= u < j ==> IdealSlot(calls, u) > calls[i].now
  {
    if j == 0 || IdealSlot(calls, j - 1) <= calls[i].now then j else FirstPending(calls, i, j - 1)
  }

  lemma {:induction false} RangeCard(lo: nat, hi: nat, s: set<nat>)
    requires lo <= hi && forall x :: x in s <==> lo <= x < hi
    ensures |s| == hi - lo
    decreases hi - lo
  {
    if lo < hi {
      RangeCard(lo, hi - 1, s - {hi - 1});
    } else {
      assert s == {};
    }
  }

  lemma PendingIsRange(calls: seq<Call>, interval: nat, ttl: nat, i: nat)
    requires Uniform(calls, interval, ttl) && i < |calls|
    ensures |Pending(calls, i)| == i - FirstPending(calls, i, i)
  {
    var p := FirstPending(calls, i, i);
    forall j: nat | j < p
      ensures IdealSlot(calls, j) <= calls[i].now
    {
      if j < p - 1 {
        IdealSpacing(calls, j, p - 1);
      }
    }
    RangeCard(p, i, Pending(calls, i));
  }

  /** A reservation made while n earlier slots lie ahead waits at most n + 1 intervals. */
  lemma BoundedWait(calls: seq<Call>, interval: nat, ttl: nat, i: nat)
    requires Monotone(calls) && Uniform(calls, interval, ttl) && i < |calls|
    ensures IdealSlot(calls, i) - calls[i].now <= (|Pending(calls, i)| + 1) * interval
  {
    PendingIsRange(calls, interval, ttl, i);
    var p := FirstPending(calls, i, i);
    var n := |Pending(calls, i)|;
    if i > 0 {
      LatestPending(calls, interval, ttl, i);
      OneMore(IdealSlot(calls, i - 1), calls[i].now, n, interval);
    } else {
      OneMore(calls[i].now - interval, calls[i].now, n, interval);
    }
  }

  lemma LatestPending(calls: seq<Call>, interval: nat, ttl: nat, i: nat)
    requires Monotone(calls) && Uniform(calls, interval, ttl) && 0 < i < |calls|
    ensures IdealSlot(calls, i - 1) <= calls[i].now + |Pending(calls, i)| * interval
  {
    hide Monotone, IdealSlot;
    PendingIsRange(calls, interval, ttl, i);
    var p := FirstPending(calls, i, i);
    if p < i {
      PendingBound(calls, interval, ttl, i, p, i - 1);
    }
  }

  lemma OneMore(slot: int, now: int, n: nat, interval: nat)
    requires slot <= now + n * interval
    ensures Max(now, slot + interval) - now <= (n + 1) * interval
  {
    assert (n + 1) * interval == n * interval + interval;
  }

  /** Slots are granted in arrival order, and a caller waits one interval more than the slots still ahead. */
  lemma FifoAndBoundedWait(calls: seq<Call>, interval: nat, ttl: nat, i: nat, ahead: set<nat>)
    requires Monotone(calls) && Uniform(calls, interval, ttl) && FitsTtl(calls, |calls|) && i < |calls|
    requires forall j: nat :: j in ahead <==> j < i && SlotAt(calls, j) > calls[i].now
    ensures forall j: nat :: j < i ==> SlotAt(calls, j) + interval <= SlotAt(calls, i)
    ensures WaitAt(calls, i) <= (|ahead| + 1) * interval
  {
    hide SlotAt, IdealSlot, Monotone, FitsTtl;
    forall j: nat | j < i
      ensures SlotAt(calls, j) + interval <= SlotAt(calls, i)
    {
      SlotsAreSpaced(calls, j, i);
    }
    forall j: nat | j <= i
      ensures SlotAt(calls, j) == IdealSlot(calls, j)
    {
      ExpiryIsInvisible(calls, |calls|, j);
    }
    BoundedWait(calls, interval, ttl, i);
    assert ahead == Pending(calls, i);
  }

  /** Every process sleeps until its slot before it reserves again. */
  ghost predicate SleepsOut(calls: seq<Call>, n: nat)
    requires n <= |calls|
  {
    forall i, j :: 0 <= i < j < n && calls[i].who == calls[j].who ==> SlotAt(calls, i) <= calls[j].now
  }

  ghost predicate CalledBy(calls: seq<Call>, callers: set<nat>) {
    forall i :: 0 <= i < |calls| ==> calls[i].who in callers
  }

  lemma {:induction false} DistinctFit(xs: seq<nat>, s: set<nat>)
    requires forall i, j :: 0 <= i < j < |xs| ==> xs[i] != xs[j]
    requires forall i :: 0 <= i < |xs| ==> xs[i] in s
    ensures |xs| <= |s|
  {
    if xs != [] {
      DistinctFit(xs[1..], s - {xs[0]});
    }
  }

  /** Pending slots belong to different processes, none of them the one that is asking. */
  lemma PendingFewerThanCallers(calls: seq<Call>, interval: nat, ttl: nat, callers: set<nat>, i: nat)
    requires Monotone(calls) && Uniform(calls, interval, ttl) && CalledBy(calls, callers) && i < |calls|
    requires forall j: nat :: j < i ==> SlotAt(calls, j) == IdealSlot(calls, j)
    requires SleepsOut(calls, i + 1)
    ensures |Pending(calls, i)| + 1 <= |callers|
  {
    hide IdealSlot, SlotAt, Pending, Monotone, SleepsOut;
    PendingIsRange(calls, interval, ttl, i);
    var p := FirstPending(calls, i, i);
    var owners := seq(i - p + 1, u requires 0 <= u <= i - p => calls[p + u].who);
    forall a, b | 0 <= a < b < |owners|
      ensures owners[a] != owners[b]
    {
      assert IdealSlot(calls, p + a) > calls[i].now;
      PendingOwnersDiffer(calls, i, p + a, p + b);
    }
    DistinctFit(owners, callers);
  }

  lemma PendingOwnersDiffer(calls: seq<Call>, i: nat, a: nat, b: nat)
    requires Monotone(calls) && a < b <= i < |calls| && SleepsOut(calls, i + 1)
    requires SlotAt(calls, a) == IdealSlot(calls, a) > calls[i].now
    ensures calls[a].who != calls[b].who
  {
    assert calls[i].now >= calls[b].now;
  }

  /** k processes that each sleep out their slot before asking again never wait more than k intervals, and
      a TTL of k + 1 intervals is enough for the key never to expire under them. */
  lemma {:induction false} WaitsStayShort(calls: seq<Call>, interval: nat, ttl: nat, callers: set<nat>, n: nat)
    requires Monotone(calls) && Uniform(calls, interval, ttl) && CalledBy(calls, callers)
    requires SleepsOut(calls, |calls|) && (|callers| + 1) * interval <= ttl && n <= |calls|
    ensures FitsTtl(calls, n)
    ensures forall i: nat :: i < n ==> 0 <= WaitAt(calls, i) <= |callers| * interval
  {
    hide IdealSlot, SlotAt, Pending;
    if n > 0 {
      var i := n - 1;
      WaitsStayShort(calls, interval, ttl, callers, i);
      ShortWaitsFit(calls, interval, ttl, |callers|, n);
      forall j: nat | j < n
        ensures SlotAt(calls, j) == IdealSlot(calls, j) >= calls[j].now
      {
        ExpiryIsInvisible(calls, n, j);
      }
      PendingFewerThanCallers(calls, interval, ttl, callers, i);
      BoundedWait(calls, interval, ttl, i);
      MulMonotone(|Pending(calls, i)| + 1, |callers|, interval);
    }
  }

  lemma ShortWaitsFit(calls: seq<Call>, interval: nat, ttl: nat, k: nat, n: nat)
    requires Uniform(calls, interval, ttl) && (k + 1) * interval <= ttl && 0 < n <= |calls|
    requires forall i: nat :: i < n - 1 ==> WaitAt(calls, i) <= k * interval
    ensures FitsTtl(calls, n)
  {
    hide WaitAt;
    assert (k + 1) * interval == k * interval + interval;
  }

  /** Each send leaves at its slot or at most the guard later. */
  ghost predicate NearSlots(calls: seq<Call>, sends: seq<int>) {
    |sends| == |calls| &&
    forall u: nat :: u < |calls| ==> SlotAt(calls, u) <= sends[u] <= SlotAt(calls, u) + SLOT_GUARD
  }

  /** Sends are spaced by what the later caller asked for, less the guard: any processes, any mix of intervals. */
  lemma SendsAreSpaced(calls: seq<Call>, sends: seq<int>, i: nat, j: nat)
    requires Monotone(calls) && FitsTtl(calls, |calls|) && NearSlots(calls, sends)
    requires i < j < |calls|
    ensures sends[j] - sends[i] >= calls[j].interval - SLOT_GUARD
  {
    hide SlotAt, FitsTtl, Monotone;
    SlotsAreSpaced(calls, i, j);
  }

  /** Every caller adds the guard to its own configured minimum, and keeps at least that distance from every
      earlier send of any process. */
  lemma MinimaAreKept(calls: seq<Call>, sends: seq<int>, minOf: nat -> nat, i: nat, j: nat)
    requires Monotone(calls) && FitsTtl(calls, |calls|) && NearSlots(calls, sends)
    requires forall u: nat :: u < |calls| ==> calls[u].interval >= minOf(calls[u].who) + SLOT_GUARD
    requires i < j < |calls|
    ensures sends[j] - sends[i] >= minOf(calls[j].who)
  {
    hide SlotAt, FitsTtl, Monotone;
    SendsAreSpaced(calls, sends, i, j);
  }

  /** With one configured minimum the TTL condition can be read off: k processes that sleep out their slots
      need a TTL of k + 1 intervals, and then none waits more than k of them. */
  lemma UniformSendsAreSpaced(calls: seq<Call>, min: nat, ttl: nat, callers: set<nat>, sends: seq<int>, i: nat, j: nat)
    requires Monotone(calls) && Uniform(calls, min + SLOT_GUARD, ttl) && CalledBy(calls, callers)
    requires SleepsOut(calls, |calls|) && (|callers| + 1) * (min + SLOT_GUARD) <= ttl
    requires NearSlots(calls, sends) && i < j < |calls|
    ensures sends[j] - sends[i] >= min
    ensures WaitAt(calls, j) <= |callers| * (min + SLOT_GUARD)
  {
    WaitsStayShort(calls, min + SLOT_GUARD, ttl, callers, |calls|);
    SendsAreSpaced(calls, sends, i, j);
  }

  // ---- clients ----

  /** In-process spacing.  `now` is the caller's clock on entry, `late` how much longer than asked it slept. */
  class MinInterval {
    const min: nat
    var last: Option<int>

    constructor (min: nat)
      ensures this.min == min && last == None
    {
      this.min, last := min, None;
    }

    method Wait(now: int, late: nat) returns (waited: nat)
      requires last.Some? ==> last.value <= now
      modifies this
      ensures last == Some(now + waited + late)
      ensures old(last).Some? ==> last.value - old(last).value >= min
      ensures waited > 0 ==> old(last).Some? && now + waited == old(last).value + min
    {
      waited := 0;
      if last.Some? {
        var elapsed := now - last.value;
        if elapsed < min {
          waited := min - elapsed;
        }
      }
      last := Some(now + waited + late);
    }

    method MarkSent(now: int)
      modifies this
      ensures last == Some(now)
    {
      last := Some(now);
    }
  }

  /** What comes of asking Redis: an answer, nothing, or a reservation whose answer never arrives. */
  datatype Redis = Answers | Unreachable | AnswerLost

  /** The shared limiter of one process.  A reservation that fails falls back to in-process spacing. */
  class SharedMinInterval {
    const min: nat
    const who: nat
    const budget: Budget
    const fallback: MinInterval

    constructor (min: nat, who: nat, budget: Budget)
      ensures this.min == min && this.who == who && this.budget == budget
      ensures fresh(fallback) && fallback.min == min && fallback.last == None
    {
      this.min, this.who, this.budget := min, who, budget;
      fallback := new MinInterval(min);
    }

    /** `server` is Redis' clock.  Either way this process's previous release is remembered, and a fallback
        release comes at least `min` after it; a reservation whose answer is lost only leaves a gap. */
    method Wait(redis: Redis, server: int, now: int, late: nat) returns (waited: int)
      requires budget.Valid() && fallback.min == min
      requires fallback.last.Some? ==> fallback.last.value <= now
      modifies budget, fallback
      ensures budget.Valid() && waited >= 0
      ensures fallback.last == Some(now + waited + late)
      ensures budget.calls == old(budget.calls) +
                (if redis.Unreachable? then [] else [Call(server, min + 50, 3_600_000, who)])
      ensures redis.Unreachable? ==> budget.slot == old(budget.slot)
      ensures redis.Answers? ==> server + waited == SlotAt(budget.calls, |budget.calls| - 1)
      ensures !redis.Answers? && old(fallback.last).Some? ==> fallback.last.value - old(fallback.last).value >= min
    {
      var wait := 0;
      if !redis.Unreachable? {
        wait := budget.Reserve(server, min + SLOT_GUARD, DEFAULT_TTL, who);
      }
      if redis.Answers? {
        waited := wait;
        fallback.MarkSent(now + waited + late);
      } else {
        waited := fallback.Wait(now, late);
      }
    }
  }
}
