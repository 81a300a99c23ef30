/** Who may generate a design, and when: the paper_designs row as a lease
    (python/arxiv_common/src/arxiv_common/db.py:442-505, python/query_api/src/arxiv_query_api/design.py:432-509).
    Times are the database's; a statement sees the time its transaction began. */
module DesignLease {
  import opened Prelude

  const PROMPT_VERSION: nat := 3
  const STALE_AFTER_S: nat := 900

  /** What a design was written from and with. */
  datatype Key = Key(version: nat, model: string, prompt: nat)

  datatype Status = Running | Done | Failed

  datatype Row = Row(key: Key, status: Status, startedAt: int, design: Option<string>)

  // ---- the three statements, on the row of one paper and provider ----

  /** The conflict clause's WHERE, and the plain insert. */
  predicate Granted(row: Option<Row>, key: Key, began: int, stale: nat) {
    match row
    case None => true
    case Some(r) =>
      || r.status.Failed?
      || (r.status.Running? && r.startedAt < began - stale)
      || (r.status.Done? && r.key != key)
  }

  function ClaimRow(row: Option<Row>, key: Key, began: int, stale: nat): Option<Row> {
    if Granted(row, key, began, stale) then Some(Row(key, Running, began, None)) else row
  }

  function ResetRow(row: Option<Row>): Option<Row> {
    if row.Some? && !row.value.status.Running? then Some(row.value.(status := Failed)) else row
  }

  /** finish_design does not look at who claimed the row. */
  function FinishRow(row: Option<Row>, design: Option<string>): Option<Row> {
    if row.Some? then Some(row.value.(status := if design.Some? then Done else Failed, design := design)) else None
  }

  datatype Slot = Slot(arxivId: string, provider: string)

  /** The table. */
  class Designs {
    var rows: map<Slot, Row>

    constructor ()
      ensures rows == map[]
    {
      rows := map[];
    }

    function Get(slot: Slot): Option<Row>
      reads this
    {
      if slot in rows then Some(rows[slot]) else None
    }

    method Claim(slot: Slot, key: Key, began: int, stale: nat) returns (claimed: bool)
      modifies this
      ensures claimed <==> Granted(old(Get(slot)), key, began, stale)
      ensures Get(slot) == ClaimRow(old(Get(slot)), key, began, stale)
      ensures forall other :: other != slot ==> Get(other) == old(Get(other))
    {
      if slot in rows {
        var r := rows[slot];
        claimed := || r.status.Failed?
                   || (r.status.Running? && r.startedAt < began - stale)
                   || (r.status.Done? && r.key != key);
      } else {
        claimed := true;
      }
      if claimed {
        rows := rows[slot := Row(key, Running, began, None)];
      }
    }

    method Reset(slot: Slot)
      modifies this
      ensures Get(slot) == ResetRow(old(Get(slot)))
      ensures forall other :: other != slot ==> Get(other) == old(Get(other))
    {
      if slot in rows && !rows[slot].status.Running? {
        rows := rows[slot := rows[slot].(status := Failed)];
      }
    }

    method Finish(slot: Slot, design: Option<string>)
      modifies this
      ensures Get(slot) == FinishRow(old(Get(slot)), design)
      ensures forall other :: other != slot ==> Get(other) == old(Get(other))
    {
      if slot in rows {
        rows := rows[slot := rows[slot].(status := if design.Some? then Done else Failed, design := design)];
      }
    }

    /** design.start: a failed design is only retried on request; a design that is up to date, or being
        written within its lease, is left alone. */
    method Start(slot: Slot, version: nat, model: string, began: int, retryFailed: bool) returns (queued: bool)
      modifies this
      ensures Get(slot) == if queued then Some(Row(Key(version, model, PROMPT_VERSION), Running, began, None))
                           else old(Get(slot))
      ensures !queued <==>
              var row := old(Get(slot));
              row.Some? &&
              match row.value.status
              case Failed => !retryFailed
              case Running => began <= row.value.startedAt + STALE_AFTER_S
              case Done => row.value.key == Key(version, model, PROMPT_VERSION)
      ensures forall other :: other != slot ==> Get(other) == old(Get(other))
    {
      if slot in rows && rows[slot].status.Failed? && !retryFailed {
        return false;
      }
      queued := Claim(slot, Key(version, model, PROMPT_VERSION), began, STALE_AFTER_S);
    }
  }

  // ---- the protocol on one row ----

  datatype RunState = Active | Finished(design: Option<string>) | Died

  /** A generation, queued when its claim was granted. */
  datatype Run = Run(startedAt: int, key: Key, state: RunState)

  datatype State = State(clock: int, row: Option<Row>, runs: seq<Run>)

  /** A claim's transaction may have begun before other transactions committed. */
  datatype Event =
    | Tick(to: int)
    | Claim(key: Key, began: int)
    | Finish(run: nat, design: Option<string>)
    | Die(run: nat)
    | Reset

  predicate IsActive(s: State, i: nat) {
    i < |s.runs| && s.runs[i].state.Active?
  }

  predicate Enabled(s: State, e: Event) {
    match e
    case Tick(to) => s.clock <= to
    case Claim(_, began) => began <= s.clock
    case Finish(i, _) => IsActive(s, i)
    case Die(i) => IsActive(s, i)
    case Reset => true
  }

  function Next(stale: nat, s: State, e: Event): State
    requires Enabled(s, e)
  {
    match e
    case Tick(to) => s.(clock := to)
    case Claim(key, began) =>
      if Granted(s.row, key, began, stale) then
        s.(row := ClaimRow(s.row, key, began, stale), runs := s.runs + [Run(began, key, Active)])
      else s
    case Finish(i, design) =>
      s.(row := FinishRow(s.row, design), runs := s.runs[i := s.runs[i].(state := Finished(design))])
    case Die(i) => s.(runs := s.runs[i := s.runs[i].(state := Died)])
    case Reset => s.(row := ResetRow(s.row))
  }

  /** Every run has finished or died by the time its lease ends, waiting in the queue included. */
  ghost predicate OnTime(stale: nat, s: State) {
    forall i: nat :: IsActive(s, i) ==> s.clock <= s.runs[i].startedAt + stale
  }

  /** The events lead from s to s', and every state after s is on time. */
  ghost predicate TimelySteps(stale: nat, s: State, events: seq<Event>, s': State)
    decreases |events|
  {
    if events == [] then s' == s
    else Enabled(s, events[0]) && OnTime(stale, Next(stale, s, events[0])) &&
         TimelySteps(stale, Next(stale, s, events[0]), events[1..], s')
  }

  function Fresh(clock: int): State {
    State(clock, None, [])
  }

  // ---- invariant ----

  /** The run is the last one claimed, and the row says so. */
  predicate Owns(s: State, i: nat)
    requires i < |s.runs|
  {
    && i == |s.runs| - 1
    && s.row.Some? && s.row.value.status.Running?
    && s.row.value.startedAt == s.runs[i].startedAt && s.row.value.key == s.runs[i].key
  }

  /** Run i wrote the design on the row, from the version, model and prompt named on the row. */
  predicate Wrote(s: State, i: nat) {
    && i < |s.runs| && s.row.Some? && s.row.value.design.Some?
    && s.runs[i].state == Finished(s.row.value.design) && s.runs[i].key == s.row.value.key
  }

  ghost predicate Inv(stale: nat, s: State) {
    && OnTime(stale, s)
    && (forall i: nat :: IsActive(s, i) ==> Owns(s, i))
    && (s.row.Some? && s.row.value.status.Done? ==> exists i: nat :: Wrote(s, i))
  }

  lemma StepKeepsInv(stale: nat, s: State, e: Event)
    requires Inv(stale, s) && Enabled(s, e) && OnTime(stale, Next(stale, s, e))
    ensures Inv(stale, Next(stale, s, e))
  {
    var s' := Next(stale, s, e);
    forall i: nat | IsActive(s', i)
      ensures Owns(s', i)
    {
      if i < |s.runs| {
        assert IsActive(s, i);
      }
    }
    if s'.row.Some? && s'.row.value.status.Done? {
      if e.Finish? {
        assert Wrote(s', e.run);
      } else {
        assert s'.row == s.row;
        var i: nat :| Wrote(s, i);
        assert Wrote(s', i);
      }
    }
  }

  lemma {:induction false} StepsKeepInv(stale: nat, s: State, events: seq<Event>, s': State)
    requires Inv(stale, s) && TimelySteps(stale, s, events, s')
    ensures Inv(stale, s')
    decreases |events|
  {
    if events != [] {
      StepKeepsInv(stale, s, events[0]);
      StepsKeepInv(stale, Next(stale, s, events[0]), events[1..], s');
    }
  }

  /** Mutual exclusion: under any order of claims, finishes, resets and deaths, at most one run is active,
      and then the row carries its claim. */
  lemma OneActiveRun(stale: nat, clock: int, events: seq<Event>, s: State)
    requires TimelySteps(stale, Fresh(clock), events, s)
    ensures forall i: nat, j: nat :: IsActive(s, i) && IsActive(s, j) ==> i == j
    ensures forall i: nat :: IsActive(s, i) ==> Owns(s, i)
  {
    StepsKeepInv(stale, Fresh(clock), events, s);
  }

  /** A design on show was written by a run claimed for the version, model and prompt it is shown under. */
  lemma DoneIsWrittenUnderItsKey(stale: nat, clock: int, events: seq<Event>, s: State)
    requires TimelySteps(stale, Fresh(clock), events, s)
    requires s.row.Some? && s.row.value.status.Done?
    ensures exists i: nat :: Wrote(s, i)
  {
    StepsKeepInv(stale, Fresh(clock), events, s);
  }

  /** A claim, if it is one, asks for this key. */
  predicate OnlyFor(key: Key, e: Event) {
    e.Claim? ==> e.key == key
  }

  lemma {:induction false} RunsOnlyGrow(stale: nat, s: State, events: seq<Event>, s': State)
    requires TimelySteps(stale, s, events, s')
    ensures |s.runs| <= |s'.runs|
    decreases |events|
  {
    if events != [] {
      RunsOnlyGrow(stale, Next(stale, s, events[0]), events[1..], s');
    }
  }

  lemma {:induction false} KeptWhileOnlyFor(stale: nat, s: State, events: seq<Event>, s': State)
    requires s.row.Some? && s.row.value.status.Done? && (forall i: nat :: !IsActive(s, i))
    requires TimelySteps(stale, s, events, s') && forall e :: e in events ==> !e.Reset?
    ensures if forall e :: e in events ==> OnlyFor(s.row.value.key, e)
            then s'.row == s.row && s'.runs == s.runs
            else |s'.runs| > |s.runs|
    decreases |events|
  {
    if events != [] {
      var e, n := events[0], Next(stale, s, events[0]);
      assert e in events;
      assert forall f :: f in events <==> f == e || f in events[1..];
      if OnlyFor(s.row.value.key, e) {
        assert forall i: nat :: IsActive(n, i) ==> IsActive(s, i);
        KeptWhileOnlyFor(stale, n, events[1..], s');
      } else {
        RunsOnlyGrow(stale, n, events[1..], s');
      }
    }
  }

  /** Without a reset, a finished design is kept, and nothing is generated in its place, exactly as long as every
      claim is for its version, model and prompt. */
  lemma FinishedIsKeptExactly(stale: nat, clock: int, before: seq<Event>, s: State, events: seq<Event>, s': State)
    requires TimelySteps(stale, Fresh(clock), before, s) && TimelySteps(stale, s, events, s')
    requires s.row.Some? && s.row.value.status.Done? && forall e :: e in events ==> !e.Reset?
    ensures (s'.row == s.row && s'.runs == s.runs) <==> forall e :: e in events ==> OnlyFor(s.row.value.key, e)
    ensures |s'.runs| == |s.runs| <==> forall e :: e in events ==> OnlyFor(s.row.value.key, e)
  {
    StepsKeepInv(stale, Fresh(clock), before, s);
    assert forall i: nat :: !IsActive(s, i);
    KeptWhileOnlyFor(stale, s, events, s');
  }

  /** A claim for another key in between is enough for a design to be generated twice under the same key, without
      a reset and with every run on time: the row keeps one design only. */
  lemma GeneratedAgainAfterAnother(stale: nat, first: Key, second: Key)
    returns (before: seq<Event>, s: State, events: seq<Event>, s': State)
    requires first != second
    ensures TimelySteps(stale, Fresh(0), before, s) && TimelySteps(stale, s, events, s')
    ensures s.row.Some? && s.row.value.status.Done? && s.row.value.key == first
    ensures forall e :: e in events ==> !e.Reset?
    ensures |s'.runs| > |s.runs| && s'.runs[|s'.runs| - 1].key == first && IsActive(s', |s'.runs| - 1)
  {
    s := GenerateOnce(stale, Fresh(0), first, "one");
    before := Generation(Fresh(0), first, "one");
    var s2 := GenerateOnce(stale, s, second, "two");
    var last := Claim(first, s2.clock);
    s' := Next(stale, s2, last);
    events := Generation(s, second, "two") + [last];
    ClaimIsAlone(stale, s2, first);
    TimelyAppend(stale, s, Generation(s, second, "two"), s2, last);
  }

  /** A claim and the finish of the run that it starts. */
  function Generation(s: State, key: Key, design: string): seq<Event> {
    [Claim(key, s.clock), Finish(|s.runs|, Some(design))]
  }

  /** A claim granted while nothing runs starts the only active run, on time. */
  lemma ClaimIsAlone(stale: nat, s: State, key: Key)
    requires Granted(s.row, key, s.clock, stale) && forall i: nat :: !IsActive(s, i)
    ensures var s' := Next(stale, s, Claim(key, s.clock));
            OnTime(stale, s') && forall i: nat :: IsActive(s', i) <==> i == |s.runs|
  {
    var s' := Next(stale, s, Claim(key, s.clock));
    forall i: nat | i < |s.runs|
      ensures !IsActive(s', i)
    {
      assert !IsActive(s, i) && s'.runs[i] == s.runs[i];
    }
  }

  lemma GenerateOnce(stale: nat, s: State, key: Key, design: string) returns (s': State)
    requires Granted(s.row, key, s.clock, stale) && forall i: nat :: !IsActive(s, i)
    ensures TimelySteps(stale, s, Generation(s, key, design), s')
    ensures s'.row == Some(Row(key, Done, s.clock, Some(design)))
    ensures s'.clock == s.clock && |s'.runs| == |s.runs| + 1 && forall i: nat :: !IsActive(s', i)
  {
    var events := Generation(s, key, design);
    var s1 := Next(stale, s, events[0]);
    ClaimIsAlone(stale, s, key);
    s' := Next(stale, s1, events[1]);
    assert forall i: nat :: i < |s.runs| ==> !IsActive(s, i) && s'.runs[i] == s.runs[i];
    var rest := events[1..];
    assert TimelySteps(stale, s', rest[1..], s');
    assert TimelySteps(stale, s1, rest, s');
  }

  lemma {:induction false} TimelyAppend(stale: nat, s: State, events: seq<Event>, s1: State, e: Event)
    requires TimelySteps(stale, s, events, s1) && Enabled(s1, e) && OnTime(stale, Next(stale, s1, e))
    ensures TimelySteps(stale, s, events + [e], Next(stale, s1, e))
    decreases |events|
  {
    hide OnTime, Enabled, Next;
    var all := events + [e];
    if events == [] {
      assert all[1..] == [];
    } else {
      TimelyAppend(stale, Next(stale, s, events[0]), events[1..], s1, e);
      assert all[1..] == events[1..] + [e];
    }
  }

  /** A reset or a failure opens the row for any claim at any time, while a run that is on is not touched by a reset:
      the claims that came too early for it come too early still. */
  lemma ResetAndFailureReopen(row: Row, key: Key, began: int, stale: nat, design: Option<string>)
    ensures !row.status.Running? ==> Granted(ResetRow(Some(row)), key, began, stale)
    ensures row.status.Running? ==> ResetRow(Some(row)) == Some(row)
    ensures var after := FinishRow(Some(row), design);
            && after.Some? && after.value.key == row.key
            && (design.None? ==> Granted(after, key, began, stale))
            && (design.Some? ==>
                  after.value.design == design && (Granted(after, key, began, stale) <==> key != row.key))
    ensures ResetRow(None) == FinishRow(None, design) == None
  {
  }

  // ---- the lease limit is exact ----

  /** While a run is active, a claim made at a given time starts a second one exactly when the lease is over. */
  lemma ClaimStealsExactlyWhenOverdue(stale: nat, clock: int, events: seq<Event>, s: State, i: nat, key: Key, at: int)
    requires TimelySteps(stale, Fresh(clock), events, s) && IsActive(s, i) && s.clock <= at
    ensures var s' := Next(stale, s.(clock := at), Claim(key, at));
            (exists j: nat :: j != i && IsActive(s', i) && IsActive(s', j)) <==> at > s.runs[i].startedAt + stale
  {
    OneActiveRun(stale, clock, events, s);
    var s' := Next(stale, s.(clock := at), Claim(key, at));
    if at > s.runs[i].startedAt + stale {
      assert IsActive(s', i) && IsActive(s', |s.runs|);
    } else {
      assert forall j: nat :: IsActive(s', j) ==> IsActive(s, j);
    }
  }

  // ---- late results ----

  /** The events lead from s to s', whatever their timing. */
  ghost predicate Steps(stale: nat, s: State, events: seq<Event>, s': State)
    decreases |events|
  {
    if events == [] then s' == s
    else Enabled(s, events[0]) && Steps(stale, Next(stale, s, events[0]), events[1..], s')
  }

  /** The row carries the key of the last claim that was granted. */
  predicate LastClaimShows(s: State) {
    if s.runs == [] then s.row == None
    else s.row.Some? && s.row.value.key == s.runs[|s.runs| - 1].key
  }

  lemma {:induction false} StepsShowLastClaim(stale: nat, s: State, events: seq<Event>, s': State)
    requires LastClaimShows(s) && Steps(stale, s, events, s')
    ensures LastClaimShows(s')
    decreases |events|
  {
    if events != [] {
      StepsShowLastClaim(stale, Next(stale, s, events[0]), events[1..], s');
    }
  }

  /** In every run, timely or not, a result is shown under its own version, model and prompt exactly when the
      last granted claim was for the same ones, which the row itself tells before the result is written. */
  lemma ResultIsLabelledExactly(stale: nat, clock: int, events: seq<Event>, s: State, i: nat, design: string)
    requires Steps(stale, Fresh(clock), events, s) && IsActive(s, i)
    ensures var s' := Next(stale, s, Finish(i, Some(design)));
            Wrote(s', i) <==> s.runs[i].key == s.runs[|s.runs| - 1].key
    ensures s.row.Some? && s.row.value.key == s.runs[|s.runs| - 1].key
  {
    StepsShowLastClaim(stale, Fresh(clock), events, s);
  }

  /** It does happen, for every stale limit: a run that outlives its lease is joined by another, and its late
      result is shown under the other's key. */
  lemma LateFinishIsMislabelled(stale: nat, first: Key, second: Key)
    requires first != second
    ensures var s1 := Next(stale, Fresh(0), Claim(first, 0));
            var s2 := Next(stale, Next(stale, s1, Tick(stale + 1)), Claim(second, stale + 1));
            && IsActive(s2, 0) && IsActive(s2, 1)
            && var s3 := Next(stale, s2, Finish(0, Some("late")));
               && s3.row == Some(Row(second, Done, stale + 1, Some("late"))) && s3.runs[0].key == first
               && !(exists i: nat :: Wrote(s3, i))
  {
  }
}
