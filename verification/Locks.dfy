/** Concurrent `upsert_paper` transactions as lock acquirers: each first locks its paper row (the INSERT
    ... ON CONFLICT), then its author rows in normalised-name order, and holds everything until it
    commits (python/arxiv_common/src/arxiv_common/db.py:61-122). */
module Locks {
  import opened Ordering

  datatype Key = PaperRow(id: string) | AuthorRow(norm: string)

  /** The global lock order: paper rows before author rows. */
  predicate KeyLe(a: Key, b: Key) {
    match (a, b)
    case (PaperRow(x), PaperRow(y)) => StrLe(x, y)
    case (PaperRow(_), AuthorRow(_)) => true
    case (AuthorRow(_), PaperRow(_)) => false
    case (AuthorRow(x), AuthorRow(y)) => StrLe(x, y)
  }

  lemma KeyLeIsTotalOrder()
    ensures TotalOrder(KeyLe)
  {
    forall x, y
      ensures KeyLe(x, y) || KeyLe(y, x)
    {
      if x.PaperRow? && y.PaperRow? {
        StrLeTotal(x.id, y.id);
      } else if x.AuthorRow? && y.AuthorRow? {
        StrLeTotal(x.norm, y.norm);
      }
    }
    forall x, y | KeyLe(x, y) && KeyLe(y, x)
      ensures x == y
    {
      if x.PaperRow? {
        StrLeAntisymmetric(x.id, y.id);
      } else {
        StrLeAntisymmetric(x.norm, y.norm);
      }
    }
    forall x, y, z | KeyLe(x, y) && KeyLe(y, z)
      ensures KeyLe(x, z)
    {
      if x.PaperRow? && z.PaperRow? {
        StrLeTransitive(x.id, y.id, z.id);
      } else if x.AuthorRow? && z.AuthorRow? {
        StrLeTransitive(x.norm, y.norm, z.norm);
      }
    }
  }

  /** The locks one transaction takes, in the order it takes them.  An author listed twice is locked twice. */
  function Program(id: string, norms: seq<string>): seq<Key> {
    [PaperRow(id)] + seq(|norms|, i requires 0 <= i < |norms| => AuthorRow(Sort(norms, StrLe)[i]))
  }

  ghost predicate InOrder(program: seq<Key>) {
    Sorted(program, KeyLe)
  }

  lemma ProgramInOrder(id: string, norms: seq<string>)
    ensures InOrder(Program(id, norms))
  {
    StrLeIsTotalOrder();
    SortIsSorted(norms, StrLe);
    var p := Program(id, norms);
    forall i, j | 0 <= i < j < |p|
      ensures KeyLe(p[i], p[j])
    {
      if i > 0 {
        assert StrLe(Sort(norms, StrLe)[i - 1], Sort(norms, StrLe)[j - 1]);
      }
    }
  }

  // ---- the system of writers ----

  /** Writer w has taken the first taken[w] locks of its program; finished writers hold nothing. */
  datatype System = System(programs: seq<seq<Key>>, taken: seq<nat>, finished: seq<bool>)

  ghost predicate Ok(s: System) {
    && |s.programs| == |s.taken| == |s.finished|
    && (forall w :: 0 <= w < |s.programs| ==> s.taken[w] <= |s.programs[w]| && InOrder(s.programs[w]))
    && (forall w, v, key :: 0 <= w < v < |s.programs| && Holds(s, w, key) && Holds(s, v, key) ==> false)
  }

  predicate Active(s: System, w: nat) {
    w < |s.programs| && w < |s.taken| && w < |s.finished| && !s.finished[w]
  }

  predicate Holds(s: System, w: nat, key: Key) {
    Active(s, w) && s.taken[w] <= |s.programs[w]| && key in s.programs[w][..s.taken[w]]
  }

  /** The lock writer w needs next. */
  predicate Wants(s: System, w: nat, key: Key) {
    Active(s, w) && s.taken[w] < |s.programs[w]| && s.programs[w][s.taken[w]] == key
  }

  /** Writer w needs a lock that v holds. */
  ghost predicate WaitsFor(s: System, w: nat, v: nat) {
    w != v && exists key :: Wants(s, w, key) && Holds(s, v, key)
  }

  ghost predicate Blocked(s: System, w: nat) {
    exists v: nat :: WaitsFor(s, w, v)
  }

  datatype Event =
    | Acquire(w: nat)   // take the next lock, free or already one's own
    | Commit(w: nat)    // all locks taken: write and release
    | Abort(w: nat)     // guard refused the write, lock timeout, or crash: release early

  ghost predicate Enabled(s: System, e: Event) {
    match e
    case Acquire(w) => Active(s, w) && s.taken[w] < |s.programs[w]| && !Blocked(s, w)
    case Commit(w) => Active(s, w) && s.taken[w] == |s.programs[w]|
    case Abort(w) => Active(s, w)
  }

  function Next(s: System, e: Event): System
    requires Active(s, e.w)
  {
    match e
    case Acquire(w) => s.(taken := s.taken[w := s.taken[w] + 1])
    case Commit(w) => s.(finished := s.finished[w := true])
    case Abort(w) => s.(finished := s.finished[w := true])
  }

  lemma NextKeepsOk(s: System, e: Event)
    requires Ok(s) && Enabled(s, e)
    ensures Ok(Next(s, e))
  {
    var s' := Next(s, e);
    forall w, v, key | 0 <= w < v < |s'.programs| && Holds(s', w, key) && Holds(s', v, key)
      ensures false
    {
      HeldAfter(s, e, w, key);
      HeldAfter(s, e, v, key);
      if e.Acquire? && e.w == w && !Holds(s, w, key) {
        assert WaitsFor(s, w, v);
      } else if e.Acquire? && e.w == v && !Holds(s, v, key) {
        assert WaitsFor(s, v, w);
      }
    }
  }

  lemma HeldAfter(s: System, e: Event, w: nat, key: Key)
    requires Ok(s) && Enabled(s, e) && Holds(Next(s, e), w, key)
    ensures Holds(s, w, key) || (e == Acquire(w) && Wants(s, w, key))
  {
    if e == Acquire(w) {
      var p, n := s.programs[w], s.taken[w];
      assert p[..n + 1] == p[..n] + [p[n]];
    }
  }

  // ---- no deadlock ----

  function WantedKey(s: System, w: nat): Key
    requires Active(s, w) && s.taken[w] < |s.programs[w]|
  {
    s.programs[w][s.taken[w]]
  }

  lemma WaiterWants(s: System, w: nat, v: nat)
    requires Ok(s) && WaitsFor(s, w, v)
    ensures Active(s, w) && Active(s, v) && s.taken[w] < |s.programs[w]|
    ensures Holds(s, v, WantedKey(s, w)) && !Holds(s, w, WantedKey(s, w))
  {
    var key :| Wants(s, w, key) && Holds(s, v, key);
    assert Holds(s, v, key) && w != v;
    if w < v {
      assert !Holds(s, w, key);
    } else {
      assert !Holds(s, w, key);
    }
  }

  /** Along a wait the wanted key strictly grows: a holder that waits too wants a later key. */
  lemma WaitingGrows(s: System, w: nat, v: nat, u: nat)
    requires Ok(s) && WaitsFor(s, w, v) && WaitsFor(s, v, u)
    ensures Active(s, w) && s.taken[w] < |s.programs[w]| && Active(s, v) && s.taken[v] < |s.programs[v]|
    ensures KeyLe(WantedKey(s, w), WantedKey(s, v)) && WantedKey(s, w) != WantedKey(s, v)
  {
    WaiterWants(s, w, v);
    WaiterWants(s, v, u);
    var p := s.programs[v];
    var i :| 0 <= i < s.taken[v] && p[..s.taken[v]][i] == WantedKey(s, w);
    assert KeyLe(p[i], p[s.taken[v]]);
  }

  ghost predicate WaitChain(s: System, ws: seq<nat>) {
    forall i, j :: 0 <= i < |ws| && j == i + 1 < |ws| ==> WaitsFor(s, ws[i], ws[j])
  }

  lemma {:induction false} ChainGrows(s: System, ws: seq<nat>, i: nat)
    requires Ok(s) && WaitChain(s, ws) && 0 < i < |ws| - 1
    ensures WaitsFor(s, ws[0], ws[1]) && WaitsFor(s, ws[i], ws[i + 1])
    ensures Active(s, ws[0]) && s.taken[ws[0]] < |s.programs[ws[0]]|
    ensures Active(s, ws[i]) && s.taken[ws[i]] < |s.programs[ws[i]]|
    ensures KeyLe(WantedKey(s, ws[0]), WantedKey(s, ws[i])) && WantedKey(s, ws[0]) != WantedKey(s, ws[i])
  {
    assert WaitsFor(s, ws[i - 1], ws[i]) && WaitsFor(s, ws[i], ws[i + 1]);
    WaitingGrows(s, ws[i - 1], ws[i], ws[i + 1]);
    if i > 1 {
      ChainGrows(s, ws, i - 1);
      KeyLeIsTotalOrder();
    }
  }

  lemma NoCycle(s: System, ws: seq<nat>)
    requires Ok(s) && WaitChain(s, ws) && |ws| >= 2
    ensures ws[|ws| - 1] != ws[0]
  {
    if ws[|ws| - 1] == ws[0] {
      var longer := ws + [ws[1]];
      assert WaitsFor(s, ws[0], ws[1]);
      assert WaitChain(s, longer);
      ChainGrows(s, longer, |ws| - 1);
      assert false;
    }
  }

  ghost predicate CanStep(s: System, w: nat) {
    Enabled(s, Acquire(w)) || Enabled(s, Commit(w))
  }

  /** Writer v waits for a key after `key`. */
  predicate WantsBeyond(s: System, v: nat, key: Key) {
    Active(s, v) && s.taken[v] < |s.programs[v]| && KeyLe(key, WantedKey(s, v)) && WantedKey(s, v) != key
  }

  function Beyond(s: System, key: Key): set<nat> {
    set v: nat | v < |s.programs| && WantsBeyond(s, v, key)
  }

  /** Following the waits from any unfinished writer ends at one that can step. */
  lemma {:induction false} SomeoneIsFree(s: System, w: nat) returns (free: nat)
    requires Ok(s) && Active(s, w)
    ensures free < |s.programs| && CanStep(s, free)
    decreases if s.taken[w] < |s.programs[w]| then Beyond(s, WantedKey(s, w)) else {}
  {
    if Blocked(s, w) {
      var v: nat :| WaitsFor(s, w, v);
      WaiterWants(s, w, v);
      if Blocked(s, v) {
        var u: nat :| WaitsFor(s, v, u);
        WaitingGrows(s, w, v, u);
        KeyLeIsTotalOrder();
        assert v in Beyond(s, WantedKey(s, w)) && v !in Beyond(s, WantedKey(s, v));
        free := SomeoneIsFree(s, v);
      } else {
        free := v;
      }
    } else {
      free := w;
    }
  }

  // ---- everyone finishes ----

  function Work(program: seq<Key>, taken: nat, finished: bool): nat {
    if finished || taken > |program| then 0 else |program| - taken + 1
  }

  /** Steps still to come, for writers w and up. */
  function Remaining(s: System, w: nat): nat
    requires |s.programs| == |s.taken| == |s.finished| && w <= |s.programs|
    decreases |s.programs| - w
  {
    if w == |s.programs| then 0
    else Work(s.programs[w], s.taken[w], s.finished[w]) + Remaining(s, w + 1)
  }

  lemma {:induction false} RemainingAfter(s: System, e: Event, w: nat)
    requires Ok(s) && Enabled(s, e) && w <= |s.programs|
    ensures if w <= e.w then Remaining(Next(s, e), w) < Remaining(s, w)
            else Remaining(Next(s, e), w) == Remaining(s, w)
    decreases |s.programs| - w
  {
    if w < |s.programs| {
      RemainingAfter(s, e, w + 1);
    }
  }

  ghost predicate Steps(s: System, events: seq<Event>, s': System)
    decreases |events|
  {
    if events == [] then s' == s
    else Enabled(s, events[0]) && Steps(Next(s, events[0]), events[1..], s')
  }

  ghost predicate AllFinished(s: System) {
    forall w: nat :: !Active(s, w)
  }

  lemma {:induction false} RunsAreBounded(s: System, events: seq<Event>, s': System)
    requires Ok(s) && Steps(s, events, s')
    ensures Ok(s') && |events| + Remaining(s', 0) <= Remaining(s, 0)
    ensures AllFinished(s') || exists w: nat :: CanStep(s', w)
    decreases |events|
  {
    if events != [] {
      NextKeepsOk(s, events[0]);
      RemainingAfter(s, events[0], 0);
      RunsAreBounded(Next(s, events[0]), events[1..], s');
    } else if !AllFinished(s) {
      var w: nat :| Active(s, w);
      var free := SomeoneIsFree(s, w);
    }
  }

  /** A document to write: its paper's id and its normalised author names. */
  type Writer = (string, seq<string>)

  /** Any set of documents may be written concurrently. */
  function Start(writers: seq<Writer>): System {
    System(seq(|writers|, i requires 0 <= i < |writers| => Program(writers[i].0, writers[i].1)),
           seq(|writers|, i => 0), seq(|writers|, i => false))
  }

  lemma StartOk(writers: seq<Writer>)
    ensures Ok(Start(writers))
  {
    forall w | 0 <= w < |writers| {
      ProgramInOrder(writers[w].0, writers[w].1);
    }
  }

  ghost predicate Reaches(writers: seq<Writer>, events: seq<Event>, s: System) {
    Steps(Start(writers), events, s)
  }

  /** However the writers of any documents interleave, they never wait in a circle. */
  lemma NoWaitCycle(writers: seq<Writer>, events: seq<Event>, s: System, ws: seq<nat>)
    requires Reaches(writers, events, s) && WaitChain(s, ws) && |ws| >= 2
    ensures ws[|ws| - 1] != ws[0]
  {
    StartOk(writers);
    RunsAreBounded(Start(writers), events, s);
    NoCycle(s, ws);
  }

  /** From any unfinished writer the waits lead to one that can step. */
  lemma DeadlockFree(writers: seq<Writer>, events: seq<Event>, s: System, w: nat) returns (free: nat)
    requires Reaches(writers, events, s) && Active(s, w)
    ensures free < |s.programs| && CanStep(s, free)
  {
    StartOk(writers);
    RunsAreBounded(Start(writers), events, s);
    free := SomeoneIsFree(s, w);
  }

  /** For each document a paper row, its author rows and a commit. */
  function TotalWork(writers: seq<Writer>): nat {
    if writers == [] then 0 else 1 + |writers[0].1| + 1 + TotalWork(writers[1..])
  }

  lemma {:induction false} WorkAtStart(writers: seq<Writer>, w: nat)
    requires w <= |writers|
    ensures Remaining(Start(writers), w) == TotalWork(writers[w..])
    decreases |writers| - w
  {
    hide Program;
    if w < |writers| {
      WorkAtStart(writers, w + 1);
      assert writers[w..][1..] == writers[w + 1..];
      ProgramLength(writers[w].0, writers[w].1);
    }
  }

  lemma ProgramLength(id: string, norms: seq<string>)
    ensures |Program(id, norms)| == 1 + |norms|
  {
  }

  /** Every run takes at most as many steps as there are locks and commits, and can be extended by a lock or a
      commit, never needing a timeout, for as long as anyone is unfinished.  So all of them finish. */
  lemma AllWritersFinish(writers: seq<Writer>, events: seq<Event>, s: System)
    requires Reaches(writers, events, s)
    ensures |events| <= TotalWork(writers)
    ensures AllFinished(s) || exists w: nat :: CanStep(s, w)
  {
    StartOk(writers);
    RunsAreBounded(Start(writers), events, s);
    WorkAtStart(writers, 0);
    assert writers[0..] == writers;
  }

  /** Without the sort, two papers with the same two authors in opposite order can block each other: the run
      takes two locks each from a fresh start, after which neither writer can step. */
  lemma UnsortedWritersDeadlock(id1: string, id2: string, x: string, y: string)
    returns (start: System, events: seq<Event>, s: System)
    requires id1 != id2 && x != y
    ensures start.programs == [[PaperRow(id1), AuthorRow(x), AuthorRow(y)], [PaperRow(id2), AuthorRow(y), AuthorRow(x)]]
    ensures start.taken == [0, 0] && start.finished == [false, false]
    ensures Steps(start, events, s) && forall e :: e in events ==> e.Acquire?
    ensures Active(s, 0) && Active(s, 1) && !CanStep(s, 0) && !CanStep(s, 1)
  {
    var p, q := [PaperRow(id1), AuthorRow(x), AuthorRow(y)], [PaperRow(id2), AuthorRow(y), AuthorRow(x)];
    start := System([p, q], [0, 0], [false, false]);
    var s1 := System([p, q], [1, 0], [false, false]);
    var s2 := System([p, q], [1, 1], [false, false]);
    var s3 := System([p, q], [2, 1], [false, false]);
    s := System([p, q], [2, 2], [false, false]);
    assert p[..1] == [p[0]] && q[..1] == [q[0]] && p[..2] == [p[0], p[1]] && q[..2] == [q[0], q[1]];
    FreeOfOther(start, 0, 1);
    FreeOfOther(s1, 1, 0);
    FreeOfOther(s2, 0, 1);
    FreeOfOther(s3, 1, 0);
    var e1, e2 := Acquire(0), Acquire(1);
    events := [e1, e2, e1, e2];
    FourSteps(start, s1, s2, s3, s, events);
    assert Wants(s, 0, AuthorRow(y)) && Holds(s, 1, AuthorRow(y));
    assert Wants(s, 1, AuthorRow(x)) && Holds(s, 0, AuthorRow(x));
    assert WaitsFor(s, 0, 1) && WaitsFor(s, 1, 0);
  }

  lemma FourSteps(s0: System, s1: System, s2: System, s3: System, s4: System, events: seq<Event>)
    requires |events| == 4
    requires Enabled(s0, events[0]) && Next(s0, events[0]) == s1 && Enabled(s1, events[1]) && Next(s1, events[1]) == s2
    requires Enabled(s2, events[2]) && Next(s2, events[2]) == s3 && Enabled(s3, events[3]) && Next(s3, events[3]) == s4
    ensures Steps(s0, events, s4)
  {
    hide Enabled, Next;
    var e3 := events[3..];
    assert Steps(s3, e3, s4);
    var e2 := events[2..];
    assert e2[1..] == e3 && Steps(s2, e2, s4);
    var e1 := events[1..];
    assert e1[1..] == e2 && Steps(s1, e1, s4);
  }

  /** Of two writers, one whose next lock the other does not hold is not blocked. */
  lemma FreeOfOther(s: System, w: nat, v: nat)
    requires |s.programs| == |s.taken| == |s.finished| == 2 && {w, v} == {0, 1}
    requires Active(s, w) && s.taken[w] < |s.programs[w]| && !Holds(s, v, WantedKey(s, w))
    ensures !Blocked(s, w)
  {
    forall u: nat
      ensures !WaitsFor(s, w, u)
    {
      if u != w && u != v {
        assert u !in {w, v};
        assert u >= 2;
      }
    }
  }
}
