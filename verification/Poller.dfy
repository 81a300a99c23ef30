/** The walk over one category (rust/poller/src/main.rs:198-314). */
module Poller {
  import opened Prelude
  import opened Documents
  import opened Versions

  const ATTEMPTS: nat := 4

  /** A feed entry, and whether it passes the schema. */
  datatype Entry = Entry(paper: Paper, updatedAt: int, valid: bool)

  datatype Page = Page(entries: seq<Entry>, total: nat)

  /** An operation on Redis or Kafka: it works, it fails, or it takes effect and still reports an error. */
  datatype Op = Works | Fails | FailsLate

  /** The world: what arXiv answers to the a-th request for an offset, and how the i-th operation goes. */
  datatype World = World(net: (nat, nat) -> Option<Page>, op: nat -> Op)

  datatype Args = Args(maxPages: nat, dryRun: bool)

  datatype Stats = Stats(pages: nat, fetched: nat, produced: nat, skippedSeen: nat, invalid: nat, pageErrors: nat,
                         oldest: Option<int>)

  const NOTHING: Stats := Stats(0, 0, 0, 0, 0, 0, None)

  datatype State = State(seen: set<string>, log: seq<Paper>, ops: nat, stats: Stats, failed: bool)

  function Member(e: Entry): string {
    SeenMember(e.paper.id, e.paper.version)
  }

  /** An empty page short of the total is asked for again, except on the last attempt. */
  function FetchFrom(net: (nat, nat) -> Option<Page>, start: nat, attempt: nat): Option<Page>
    decreases ATTEMPTS - attempt
  {
    if attempt >= ATTEMPTS then None
    else
      match net(start, attempt)
      case Some(page) =>
        if page.entries == [] && start < page.total && attempt < ATTEMPTS - 1 then FetchFrom(net, start, attempt + 1)
        else Some(page)
      case None => FetchFrom(net, start, attempt + 1)
  }

  function Fetch(net: (nat, nat) -> Option<Page>, start: nat): Option<Page> {
    FetchFrom(net, start, 0)
  }

  function Older(oldest: Option<int>, at: int): Option<int> {
    if oldest.Some? && oldest.value < at then oldest else Some(at)
  }

  /** One entry: look it up, produce it, then mark it. */
  function DoEntry(world: World, args: Args, s: State, e: Entry): State {
    var stats := s.stats.(fetched := s.stats.fetched + 1, oldest := Older(s.stats.oldest, e.updatedAt));
    if !world.op(s.ops).Works? then s.(ops := s.ops + 1, stats := stats, failed := true)
    else if Member(e) in s.seen then s.(ops := s.ops + 1, stats := stats.(skippedSeen := stats.skippedSeen + 1))
    else if !e.valid then s.(ops := s.ops + 1, stats := stats.(invalid := stats.invalid + 1))
    else if args.dryRun then s.(ops := s.ops + 1, stats := stats.(produced := stats.produced + 1))
    else if world.op(s.ops + 1).Fails? then s.(ops := s.ops + 2, stats := stats, failed := true)
    else
      var log := s.log + [e.paper];
      if world.op(s.ops + 1).FailsLate? then s.(log := log, ops := s.ops + 2, stats := stats, failed := true)
      else if world.op(s.ops + 2).Fails? then s.(log := log, ops := s.ops + 3, stats := stats, failed := true)
      else
        var seen := s.seen + {Member(e)};
        if world.op(s.ops + 2).FailsLate?
        then s.(log := log, seen := seen, ops := s.ops + 3, stats := stats, failed := true)
        else s.(log := log, seen := seen, ops := s.ops + 3, stats := stats.(produced := stats.produced + 1))
  }

  function DoEntries(world: World, args: Args, s: State, entries: seq<Entry>): State
    decreases |entries|
  {
    if entries == [] || s.failed then s else DoEntries(world, args, DoEntry(world, args, s, entries[0]), entries[1..])
  }

  /** How a walk ends: an error, or the statistics and whether the page-cap warning was given. */
  datatype Outcome = Outcome(state: State, ok: bool, capped: bool)

  function Finish(args: Args, s: State, newInLast: nat): Outcome {
    Outcome(s, true, s.stats.pages >= args.maxPages && newInLast > 0)
  }

  function Walk(world: World, args: Args, s: State, start: nat, newInLast: nat): Outcome
    decreases args.maxPages - s.stats.pages
  {
    if s.stats.pages >= args.maxPages then Finish(args, s, newInLast)
    else
      match Fetch(world.net, start)
      case None =>
        if s.stats.pages == 0 then Outcome(s, false, false)
        else Finish(args, s.(stats := s.stats.(pageErrors := s.stats.pageErrors + 1)), newInLast)
      case Some(page) =>
        var s1 := s.(stats := s.stats.(pages := s.stats.pages + 1));
        if page.entries == [] then Finish(args, s1, newInLast)
        else
          var s2 := DoEntries(world, args, s1, page.entries);
          EntriesKeep(world, args, s1, page.entries);
          if s2.failed then Outcome(s2, false, false)
          else if s2.stats.produced == s1.stats.produced then Finish(args, s2, 0)
          else if start + |page.entries| >= page.total then Finish(args, s2, s2.stats.produced - s1.stats.produced)
          else Walk(world, args, s2, start + |page.entries|, s2.stats.produced - s1.stats.produced)
  }

  /** Whatever happens: nothing is unmarked or unsent, whatever was newly marked was sent before, and the
      counters account for every entry looked at. */
  ghost predicate Kept(s: State, s': State) {
    && s.seen <= s'.seen && s.log <= s'.log
    && (forall m :: m in s'.seen && m !in s.seen ==>
          exists i :: |s.log| <= i < |s'.log| && SeenMember(s'.log[i].id, s'.log[i].version) == m)
    && s'.stats.produced >= s.stats.produced && s'.stats.fetched >= s.stats.fetched
    && s'.stats.fetched - s.stats.fetched ==
         (s'.stats.produced - s.stats.produced) + (s'.stats.skippedSeen - s.stats.skippedSeen)
         + (s'.stats.invalid - s.stats.invalid) + (if s'.failed && !s.failed then 1 else 0)
  }

  lemma KeptTwice(a: State, b: State, c: State)
    requires Kept(a, b) && Kept(b, c) && !a.failed && (b.failed ==> b == c)
    ensures Kept(a, c)
  {
    forall m | m in c.seen && m !in a.seen
      ensures exists i :: |a.log| <= i < |c.log| && SeenMember(c.log[i].id, c.log[i].version) == m
    {
      if m in b.seen {
        var i :| |a.log| <= i < |b.log| && SeenMember(b.log[i].id, b.log[i].version) == m;
        assert c.log[i] == b.log[i];
      }
    }
  }

  lemma EntryKeeps(world: World, args: Args, s: State, e: Entry)
    requires !s.failed
    ensures Kept(s, DoEntry(world, args, s, e))
    ensures DoEntry(world, args, s, e).stats.pages == s.stats.pages
    ensures DoEntry(world, args, s, e).stats.pageErrors == s.stats.pageErrors
    ensures DoEntry(world, args, s, e).stats.fetched == s.stats.fetched + 1
  {
    var s' := DoEntry(world, args, s, e);
    if s'.log != s.log {
      assert s'.log[|s.log|] == e.paper;
    }
  }

  lemma {:induction false} EntriesKeep(world: World, args: Args, s: State, entries: seq<Entry>)
    ensures var s' := DoEntries(world, args, s, entries);
            && Kept(s, s') && s'.stats.pages == s.stats.pages && s'.stats.pageErrors == s.stats.pageErrors
            && (!s'.failed ==> s'.stats.fetched == s.stats.fetched + |entries|)
    decreases |entries|
  {
    hide DoEntry;
    if entries != [] && !s.failed {
      EntryKeeps(world, args, s, entries[0]);
      var s1 := DoEntry(world, args, s, entries[0]);
      EntriesKeep(world, args, s1, entries[1..]);
      KeptTwice(s, s1, DoEntries(world, args, s1, entries[1..]));
    }
  }

  // ---- any walk, whatever fails ----

  lemma {:induction false} WalkKeeps(world: World, args: Args, s: State, start: nat, newInLast: nat)
    requires !s.failed
    ensures Kept(s, Walk(world, args, s, start, newInLast).state)
    ensures Walk(world, args, s, start, newInLast).ok <==>
              !Walk(world, args, s, start, newInLast).state.failed && !FirstPageFails(world, args, s, start)
    decreases args.maxPages - s.stats.pages
  {
    hide DoEntries;
    if s.stats.pages < args.maxPages && Fetch(world.net, start).Some? {
      var page := Fetch(world.net, start).value;
      var s1 := s.(stats := s.stats.(pages := s.stats.pages + 1));
      EntriesKeep(world, args, s1, page.entries);
      var s2 := DoEntries(world, args, s1, page.entries);
      assert Kept(s, s2);
      var next := start + |page.entries|;
      if page.entries != [] && !s2.failed && s2.stats.produced > s1.stats.produced && next < page.total {
        var more := s2.stats.produced - s1.stats.produced;
        WalkKeeps(world, args, s2, start + |page.entries|, more);
        KeptTwice(s, s2, Walk(world, args, s2, start + |page.entries|, more).state);
      }
    }
  }

  predicate FirstPageFails(world: World, args: Args, s: State, start: nat) {
    s.stats.pages == 0 < args.maxPages && Fetch(world.net, start).None?
  }

  function Begin(seen: set<string>, log: seq<Paper>, ops: nat): State {
    State(seen, log, ops, NOTHING, false)
  }

  /** Produce, then mark: in every walk, finished or broken off anywhere, a newly marked paper was produced;
      and fetched = produced + seen + invalid when the walk is completed. */
  lemma MarkedWasProduced(world: World, args: Args, seen: set<string>, log: seq<Paper>, ops: nat)
    ensures var out := Walk(world, args, Begin(seen, log, ops), 0, 0);
            && seen <= out.state.seen && log <= out.state.log
            && (forall m :: m in out.state.seen && m !in seen ==>
                  exists i :: |log| <= i < |out.state.log| &&
                    SeenMember(out.state.log[i].id, out.state.log[i].version) == m)
            && (out.ok ==>
                  out.state.stats.fetched ==
                  out.state.stats.produced + out.state.stats.skippedSeen + out.state.stats.invalid)
  {
    hide Walk;
    WalkKeeps(world, args, Begin(seen, log, ops), 0, 0);
  }

  // ---- walks over a fixed feed ----

  function Slice(feed: seq<Entry>, start: nat, size: nat): seq<Entry> {
    if start >= |feed| then [] else feed[start..if start + size <= |feed| then start + size else |feed|]
  }

  /** arXiv serves one fixed feed, newest first; any request may fail or come back empty. */
  ghost predicate Serves(net: (nat, nat) -> Option<Page>, feed: seq<Entry>, size: nat) {
    forall start, a {:trigger net(start, a)} ::
      net(start, a).Some? ==>
        net(start, a).value.total == |feed| &&
        (net(start, a).value.entries == [] || net(start, a).value.entries == Slice(feed, start, size))
  }

  /** Every entry is valid and listed once. */
  ghost predicate GoodFeed(feed: seq<Entry>) {
    && (forall i :: 0 <= i < |feed| ==> feed[i].valid)
    && (forall i, j :: 0 <= i < j < |feed| ==> Member(feed[i]) != Member(feed[j]))
  }

  /** What is older than a seen entry is seen. */
  ghost predicate ClosedToOlder(seen: set<string>, feed: seq<Entry>) {
    forall i, j :: 0 <= i < j < |feed| && Member(feed[i]) in seen ==> Member(feed[j]) in seen
  }

  /** Nothing tells the operator: the walk is Ok, no page error was counted, no warning was given. */
  predicate Silent(out: Outcome) {
    out.ok && out.state.stats.pageErrors == 0 && !out.capped
  }

  /** Every entry of the feed is marked seen. */
  ghost predicate Complete(feed: seq<Entry>, s: State) {
    forall i :: 0 <= i < |feed| ==> Member(feed[i]) in s.seen
  }

  function MembersOf(entries: seq<Entry>): set<string> {
    set e | e in entries :: Member(e)
  }

  lemma {:induction false} FetchServes(net: (nat, nat) -> Option<Page>, feed: seq<Entry>, size: nat, start: nat,
                                       attempt: nat)
    requires Serves(net, feed, size) && FetchFrom(net, start, attempt).Some?
    ensures var page := FetchFrom(net, start, attempt).value;
            page.total == |feed| && (page.entries == [] || page.entries == Slice(feed, start, size))
    decreases ATTEMPTS - attempt
  {
    if attempt < ATTEMPTS && FetchFrom(net, start, attempt) != net(start, attempt) {
      FetchServes(net, feed, size, start, attempt + 1);
    }
  }

  /** Entries are marked; none produced means all were seen. */
  lemma {:induction false} EntriesCover(world: World, args: Args, s: State, entries: seq<Entry>)
    requires !args.dryRun && !s.failed && forall e :: e in entries ==> e.valid
    requires !DoEntries(world, args, s, entries).failed
    ensures var s' := DoEntries(world, args, s, entries);
            && s'.seen == s.seen + MembersOf(entries)
            && s'.stats.produced >= s.stats.produced
            && (s'.stats.produced == s.stats.produced ==> s'.seen == s.seen)
    decreases |entries|
  {
    if entries != [] {
      var s1 := DoEntry(world, args, s, entries[0]);
      assert !s1.failed;
      EntriesCover(world, args, s1, entries[1..]);
      assert MembersOf(entries) == {Member(entries[0])} + MembersOf(entries[1..]);
    }
  }

  /** The earliest update among the entries, which the cap warning tells the operator. */
  ghost predicate Earliest(oldest: Option<int>, entries: seq<Entry>) {
    && (oldest.None? <==> entries == [])
    && (forall i :: 0 <= i < |entries| ==> oldest.value <= entries[i].updatedAt)
    && (entries != [] ==> exists i :: 0 <= i < |entries| && entries[i].updatedAt == oldest.value)
  }

  lemma EarliestGrows(oldest: Option<int>, entries: seq<Entry>, e: Entry)
    requires Earliest(oldest, entries)
    ensures Earliest(Older(oldest, e.updatedAt), entries + [e])
  {
    var more := entries + [e];
    assert more[|entries|] == e;
    if oldest.Some? {
      var i :| 0 <= i < |entries| && entries[i].updatedAt == oldest.value;
      assert more[i] == entries[i];
    }
  }

  lemma {:induction false} EntriesKeepEarliest(world: World, args: Args, s: State, done: seq<Entry>,
                                               entries: seq<Entry>)
    requires Earliest(s.stats.oldest, done) && !s.failed && !DoEntries(world, args, s, entries).failed
    ensures Earliest(DoEntries(world, args, s, entries).stats.oldest, done + entries)
    decreases |entries|
  {
    hide Earliest;
    if entries == [] {
      assert done + entries == done;
    } else {
      var s1 := DoEntry(world, args, s, entries[0]);
      assert !s1.failed;
      EarliestGrows(s.stats.oldest, done, entries[0]);
      EntriesKeepEarliest(world, args, s1, done + [entries[0]], entries[1..]);
      assert (done + [entries[0]]) + entries[1..] == done + entries;
    }
  }

  predicate Answers(net: (nat, nat) -> Option<Page>, start: nat) {
    Fetch(net, start).Some? && Fetch(net, start).value.entries != []
  }

  /** The k-th page comes back empty although the feed goes on, the pages before it did not, and it is not the
      last one allowed (unless it is the very first). */
  ghost predicate TrapAt(net: (nat, nat) -> Option<Page>, feed: seq<Entry>, size: nat, maxPages: nat, k: nat) {
    && k * size < |feed| && k < maxPages && (k == 0 || k + 1 < maxPages)
    && Fetch(net, k * size).Some? && Fetch(net, k * size).value.entries == []
    && (forall j: nat :: j < k ==> Answers(net, j * size))
  }

  /** Where a walk stands: it has read the pages before the k-th, each had something new, and exactly the
      entries before `start` were marked. */
  ghost predicate At(net: (nat, nat) -> Option<Page>, feed: seq<Entry>, size: nat, seen: set<string>,
                     s: State, k: nat, start: nat, newInLast: nat) {
    && !s.failed && s.stats.fetched == start <= |feed| && s.stats.pages == k && start == k * size
    && (if k > 0 then start < |feed| && newInLast > 0 else newInLast == 0)
    && s.stats.pageErrors == 0 && s.seen == seen + MembersOf(feed[..start]) && Earliest(s.stats.oldest, feed[..start])
    && (forall j: nat :: j < k ==> Answers(net, j * size))
  }

  /** A page with nothing new, in a feed whose older entries are seen with it. */
  lemma NothingNew(feed: seq<Entry>, seen: set<string>, start: nat, marked: set<string>)
    requires GoodFeed(feed) && ClosedToOlder(seen, feed) && start < |feed|
    requires marked == seen + MembersOf(feed[..start]) && Member(feed[start]) in marked
    ensures forall i :: 0 <= i < |feed| ==> Member(feed[i]) in marked
  {
    forall e | e in feed[..start]
      ensures Member(e) != Member(feed[start])
    {
      var i :| 0 <= i < start && feed[i] == e;
    }
    assert Member(feed[start]) in seen;
    forall i | 0 <= i < |feed|
      ensures Member(feed[i]) in marked
    {
      if i < start {
        assert feed[i] in feed[..start];
      }
    }
  }

  /** One more page marked. */
  lemma NextPage(feed: seq<Entry>, seen: set<string>, start: nat, size: nat, k: nat, marked: set<string>)
    requires start == k * size < |feed|
    requires marked == seen + MembersOf(feed[..start]) + MembersOf(Slice(feed, start, size))
    ensures var next := start + |Slice(feed, start, size)|;
            && next <= |feed| && marked == seen + MembersOf(feed[..next])
            && (next < |feed| ==> next == (k + 1) * size)
  {
    var next := start + |Slice(feed, start, size)|;
    assert (k + 1) * size == k * size + size;
    assert feed[..next] == feed[..start] + Slice(feed, start, size);
  }

  /** The state after the entries of a page. */
  function AfterPage(world: World, args: Args, s: State, page: Page): State {
    DoEntries(world, args, s.(stats := s.stats.(pages := s.stats.pages + 1)), page.entries)
  }

  /** Page k was read and marked: the feed's entries from start up to next. */
  ghost predicate PageRead(net: (nat, nat) -> Option<Page>, feed: seq<Entry>, size: nat, seen: set<string>,
                           s: State, s': State, k: nat, start: nat, next: nat) {
    && start < next <= |feed|
    && s'.stats.fetched == next && s'.stats.pages == k + 1 && s'.stats.pageErrors == 0
    && s'.seen == seen + MembersOf(feed[..next]) && Member(feed[start]) in s'.seen
    && Earliest(s'.stats.oldest, feed[..next])
    && s'.stats.produced >= s.stats.produced && (s'.stats.produced == s.stats.produced ==> s'.seen == s.seen)
    && (next < |feed| ==> next == (k + 1) * size)
    && (forall j: nat :: j < k + 1 ==> Answers(net, j * size))
  }

  /** Reading a page that is not empty: its entries are the next of the feed, and all are marked. */
  lemma PageCovers(world: World, args: Args, feed: seq<Entry>, size: nat, seen: set<string>, s: State, k: nat,
                   start: nat, newInLast: nat)
    requires Serves(world.net, feed, size) && (forall i :: 0 <= i < |feed| ==> feed[i].valid) && !args.dryRun
    requires At(world.net, feed, size, seen, s, k, start, newInLast) && Answers(world.net, start)
    requires !AfterPage(world, args, s, Fetch(world.net, start).value).failed
    ensures var page := Fetch(world.net, start).value;
            var s2, next := AfterPage(world, args, s, page), start + |page.entries|;
            page.total == |feed| && PageRead(world.net, feed, size, seen, s, s2, k, start, next)
  {
    hide DoEntries, Serves, Kept, Member, Earliest, MembersOf, Slice, Fetch;
    PageIsNext(world.net, feed, size, start);
    var page := Fetch(world.net, start).value;
    var s1 := s.(stats := s.stats.(pages := s.stats.pages + 1));
    EntriesCover(world, args, s1, page.entries);
    EntriesKeep(world, args, s1, page.entries);
    KeptCounts(s1, AfterPage(world, args, s, page));
    NextPage(feed, seen, start, size, k, AfterPage(world, args, s, page).seen);
    EntriesKeepEarliest(world, args, s1, feed[..start], page.entries);
    FirstIsMember(feed, start, start + |page.entries|);
  }

  lemma KeptCounts(s: State, s': State)
    requires Kept(s, s')
    ensures s'.stats.produced >= s.stats.produced
  {
  }

  lemma FirstIsMember(feed: seq<Entry>, start: nat, next: nat)
    requires start < next <= |feed|
    ensures Member(feed[start]) in MembersOf(feed[..next])
  {
    hide Member;
    assert feed[..next][start] == feed[start];
  }

  /** A page that is not empty holds the next entries of the feed. */
  lemma PageIsNext(net: (nat, nat) -> Option<Page>, feed: seq<Entry>, size: nat, start: nat)
    requires Serves(net, feed, size) && Answers(net, start)
    ensures var page := Fetch(net, start).value;
            && page.total == |feed| && page.entries == Slice(feed, start, size)
            && start < start + |page.entries| <= |feed|
            && feed[..start] + page.entries == feed[..start + |page.entries|]
            && (forall e :: e in page.entries ==> e in feed)
  {
    FetchServes(net, feed, size, start, 0);
  }

  /** No false negative: a silent walk over a good feed leaves every entry seen, if no page is a trap. */
  lemma {:induction false} WalkIsComplete(world: World, args: Args, feed: seq<Entry>, size: nat, seen: set<string>,
                                          s: State, k: nat, start: nat, newInLast: nat)
    requires Serves(world.net, feed, size) && GoodFeed(feed) && ClosedToOlder(seen, feed)
    requires !args.dryRun && args.maxPages >= 1 && forall j: nat :: !TrapAt(world.net, feed, size, args.maxPages, j)
    requires At(world.net, feed, size, seen, s, k, start, newInLast)
    ensures Silent(Walk(world, args, s, start, newInLast)) ==>
            Complete(feed, Walk(world, args, s, start, newInLast).state)
    decreases args.maxPages - s.stats.pages
  {
    hide DoEntries, Serves, GoodFeed, ClosedToOlder, Fetch, Earliest;
    if k < args.maxPages && Fetch(world.net, start).Some? {
      var page := Fetch(world.net, start).value;
      if page.entries == [] {
        assert !TrapAt(world.net, feed, size, args.maxPages, k);
      } else {
        var s2 := AfterPage(world, args, s, page);
        if !s2.failed {
          FeedIsValid(feed);
          PageCovers(world, args, feed, size, seen, s, k, start, newInLast);
          var next := start + |page.entries|;
          if s2.stats.produced == s.stats.produced {
            NothingNew(feed, seen, start, s2.seen);
          } else if next < |feed| {
            WalkIsComplete(world, args, feed, size, seen, s2, k + 1, next, s2.stats.produced - s.stats.produced);
          } else {
            assert feed[..next] == feed;
          }
        }
      }
    }
  }

  lemma FeedIsValid(feed: seq<Entry>)
    requires GoodFeed(feed)
    ensures forall i :: 0 <= i < |feed| ==> feed[i].valid
  {
  }

  /** The entries read are a prefix of the feed, the seen set gains exactly their members, and the date kept
      for the cap warning is the earliest of theirs. */
  lemma {:induction false} WalkCoversPrefix(world: World, args: Args, feed: seq<Entry>, size: nat, seen: set<string>,
                                            s: State, k: nat, start: nat, newInLast: nat)
    requires Serves(world.net, feed, size) && (forall i :: 0 <= i < |feed| ==> feed[i].valid) && !args.dryRun
    requires At(world.net, feed, size, seen, s, k, start, newInLast)
    ensures var out := Walk(world, args, s, start, newInLast);
            out.ok ==> out.state.stats.fetched <= |feed| &&
                       out.state.seen == seen + MembersOf(feed[..out.state.stats.fetched]) &&
                       Earliest(out.state.stats.oldest, feed[..out.state.stats.fetched])
    decreases args.maxPages - s.stats.pages
  {
    hide DoEntries, Serves, Fetch, Earliest;
    if k < args.maxPages && Fetch(world.net, start).Some? && Fetch(world.net, start).value.entries != [] {
      var page := Fetch(world.net, start).value;
      var s2 := AfterPage(world, args, s, page);
      if !s2.failed {
        PageCovers(world, args, feed, size, seen, s, k, start, newInLast);
        var next := start + |page.entries|;
        if s2.stats.produced != s.stats.produced && next < |feed| {
          WalkCoversPrefix(world, args, feed, size, seen, s2, k + 1, next, s2.stats.produced - s.stats.produced);
        }
      }
    }
  }

  // ---- the condition is exact ----

  lemma {:induction false} NothingFails(world: World, args: Args, s: State, entries: seq<Entry>)
    requires !s.failed && forall i: nat :: world.op(i).Works?
    ensures !DoEntries(world, args, s, entries).failed
    decreases |entries|
  {
    if entries != [] {
      NothingFails(world, args, DoEntry(world, args, s, entries[0]), entries[1..]);
    }
  }

  lemma NotYetSeen(feed: seq<Entry>, start: nat)
    requires GoodFeed(feed) && start < |feed|
    ensures Member(feed[start]) !in MembersOf(feed[..start])
  {
    forall e | e in feed[..start]
      ensures Member(e) != Member(feed[start])
    {
      var i :| 0 <= i < start && feed[i] == e;
    }
  }

  /** From an empty seen set the walk runs into the trap, silently, with entries unseen. */
  lemma {:induction false} WalkIntoTrap(world: World, args: Args, feed: seq<Entry>, size: nat, s: State,
                                        j: nat, k: nat, newInLast: nat)
    requires Serves(world.net, feed, size) && GoodFeed(feed) && !args.dryRun && forall i: nat :: world.op(i).Works?
    requires TrapAt(world.net, feed, size, args.maxPages, k) && j <= k
    requires At(world.net, feed, size, {}, s, j, j * size, newInLast)
    ensures Silent(Walk(world, args, s, j * size, newInLast)) &&
            !Complete(feed, Walk(world, args, s, j * size, newInLast).state)
    decreases k - j
  {
    hide DoEntries, Serves, GoodFeed, Fetch, Earliest;
    var start := j * size;
    if j == k {
      NotYetSeen(feed, start);
    } else {
      assert Answers(world.net, j * size);
      var page := Fetch(world.net, start).value;
      var s2 := AfterPage(world, args, s, page);
      NothingFails(world, args, s.(stats := s.stats.(pages := s.stats.pages + 1)), page.entries);
      FeedIsValid(feed);
      PageCovers(world, args, feed, size, {}, s, j, start, newInLast);
      NotYetSeen(feed, start);
      SizeBounds(feed, size, world.net, start);
      Multiples(j, k, size);
      WalkIntoTrap(world, args, feed, size, s2, j + 1, k, s2.stats.produced - s.stats.produced);
    }
  }

  lemma SizeBounds(feed: seq<Entry>, size: nat, net: (nat, nat) -> Option<Page>, start: nat)
    requires Serves(net, feed, size) && Fetch(net, start).Some?
    ensures |Fetch(net, start).value.entries| <= size
  {
    FetchServes(net, feed, size, start, 0);
  }

  lemma Multiples(j: nat, k: nat, size: nat)
    requires j < k
    ensures j * size + size == (j + 1) * size <= k * size
  {
    assert k * size == (j + 1) * size + (k - j - 1) * size;
  }

  /** Silence can be trusted exactly when no page short of the feed's end comes back empty on the last attempt:
      then, and only then, every silent walk from every seen set closed towards older entries is complete. */
  lemma SilenceIsSafeExactly(world: World, args: Args, feed: seq<Entry>, size: nat, log: seq<Paper>, ops: nat)
    requires Serves(world.net, feed, size) && GoodFeed(feed) && !args.dryRun && args.maxPages >= 1
    requires forall i: nat :: world.op(i).Works?
    ensures (forall seen :: ClosedToOlder(seen, feed) && Silent(Walk(world, args, Begin(seen, log, ops), 0, 0)) ==>
                              Complete(feed, Walk(world, args, Begin(seen, log, ops), 0, 0).state))
            <==> !(exists k: nat :: TrapAt(world.net, feed, size, args.maxPages, k))
  {
    hide Walk, Serves, GoodFeed, TrapAt, Silent, Complete;
    if k: nat :| TrapAt(world.net, feed, size, args.maxPages, k) {
      StartsAt(world.net, feed, size, {}, log, ops);
      WalkIntoTrap(world, args, feed, size, Begin({}, log, ops), 0, k, 0);
      assert ClosedToOlder({}, feed);
    } else {
      forall seen | ClosedToOlder(seen, feed) && Silent(Walk(world, args, Begin(seen, log, ops), 0, 0))
        ensures Complete(feed, Walk(world, args, Begin(seen, log, ops), 0, 0).state)
      {
        StartsAt(world.net, feed, size, seen, log, ops);
        WalkIsComplete(world, args, feed, size, seen, Begin(seen, log, ops), 0, 0, 0);
      }
    }
  }

  lemma StartsAt(net: (nat, nat) -> Option<Page>, feed: seq<Entry>, size: nat, seen: set<string>, log: seq<Paper>,
                 ops: nat)
    ensures At(net, feed, size, seen, Begin(seen, log, ops), 0, 0, 0)
  {
    assert MembersOf(feed[..0]) == {};
  }

  /** A silent walk over a good feed misses nothing, whatever operations do: every entry is seen, and was
      either seen before or produced by this walk. */
  lemma SilentWalkMissesNothing(world: World, args: Args, feed: seq<Entry>, size: nat, seen: set<string>,
                                log: seq<Paper>, ops: nat)
    requires Serves(world.net, feed, size) && GoodFeed(feed) && ClosedToOlder(seen, feed)
    requires !args.dryRun && args.maxPages >= 1 && forall j: nat :: !TrapAt(world.net, feed, size, args.maxPages, j)
    requires Silent(Walk(world, args, Begin(seen, log, ops), 0, 0))
    ensures var s := Walk(world, args, Begin(seen, log, ops), 0, 0).state;
            forall e :: e in feed ==>
              Member(e) in s.seen &&
              (|| Member(e) in seen
               || exists i :: |log| <= i < |s.log| && SeenMember(s.log[i].id, s.log[i].version) == Member(e))
  {
    hide Walk, Serves, GoodFeed, TrapAt, ClosedToOlder, Member;
    StartsAt(world.net, feed, size, seen, log, ops);
    WalkIsComplete(world, args, feed, size, seen, Begin(seen, log, ops), 0, 0, 0);
    MarkedWasProduced(world, args, seen, log, ops);
  }

  /** arXiv answering every request with an empty page of a feed that is not empty. */
  function EmptyPages(feed: seq<Entry>): (nat, nat) -> Option<Page> {
    (start, attempt) => Some(Page([], |feed|))
  }

  /** And it can fail, for every feed: when all four answers for the first page are empty, a walk from an empty
      seen set ends silently with the whole feed unseen. */
  lemma EmptyAnswersEndTheWalk(feed: seq<Entry>, size: nat, args: Args, op: nat -> Op, log: seq<Paper>, ops: nat)
    requires GoodFeed(feed) && feed != [] && !args.dryRun && args.maxPages >= 1 && forall i: nat :: op(i).Works?
    ensures var world := World(EmptyPages(feed), op);
            var out := Walk(world, args, Begin({}, log, ops), 0, 0);
            && Serves(world.net, feed, size) && TrapAt(world.net, feed, size, args.maxPages, 0)
            && Silent(out) && !Complete(feed, out.state)
  {
    var world := World(EmptyPages(feed), op);
    assert FetchFrom(world.net, 0, 3) == Some(Page([], |feed|));
    assert FetchFrom(world.net, 0, 2) == FetchFrom(world.net, 0, 3);
    assert FetchFrom(world.net, 0, 1) == FetchFrom(world.net, 0, 2);
    assert TrapAt(world.net, feed, size, args.maxPages, 0);
    hide Walk;
    StartsAt(world.net, feed, size, {}, log, ops);
    WalkIntoTrap(world, args, feed, size, Begin({}, log, ops), 0, 0, 0);
  }

  // ---- the poller ----

  class CategoryPoller {
    var seen: set<string>   // the Redis set
    var log: seq<Paper>     // topic papers.new
    var ops: nat            // operations on Redis and Kafka so far

    /** fetch_page_with_retry. */
    method FetchPageWithRetry(net: (nat, nat) -> Option<Page>, start: nat) returns (page: Option<Page>)
      ensures page == Fetch(net, start)
    {
      for attempt := 0 to ATTEMPTS
        invariant FetchFrom(net, start, attempt) == Fetch(net, start)
      {
        var answer := net(start, attempt);
        if answer.Some? && !(answer.value.entries == [] && start < answer.value.total && attempt < ATTEMPTS - 1) {
          return answer;
        }
      }
      return None;
    }

    ghost function Now(stats: Stats, failed: bool): State
      reads this
    {
      State(seen, log, ops, stats, failed)
    }

    /** The body of the loop over a page's entries; false when an operation failed. */
    method HandleEntry(world: World, args: Args, stats: Stats, e: Entry) returns (ok: bool, stats': Stats)
      modifies this
      ensures Now(stats', !ok) == DoEntry(world, args, old(Now(stats, false)), e)
    {
      stats' := stats.(fetched := stats.fetched + 1, oldest := Older(stats.oldest, e.updatedAt));
      var member := Member(e);
      ops := ops + 1;
      if !world.op(ops - 1).Works? {
        return false, stats';
      }
      if member in seen {
        return true, stats'.(skippedSeen := stats'.skippedSeen + 1);
      }
      if !e.valid {
        return true, stats'.(invalid := stats'.invalid + 1);
      }
      if !args.dryRun {
        ops := ops + 1;
        if !world.op(ops - 1).Fails? {
          log := log + [e.paper];
        }
        if !world.op(ops - 1).Works? {
          return false, stats';
        }
        ops := ops + 1;
        if !world.op(ops - 1).Fails? {
          seen := seen + {member};
        }
        if !world.op(ops - 1).Works? {
          return false, stats';
        }
      }
      return true, stats'.(produced := stats'.produced + 1);
    }

    /** poll_category. */
    method PollCategory(world: World, args: Args) returns (result: Option<Stats>, capped: bool)
      modifies this
      ensures var out := Walk(world, args, old(Begin(seen, log, ops)), 0, 0);
              && seen == out.state.seen && log == out.state.log && ops == out.state.ops
              && result == (if out.ok then Some(out.state.stats) else None) && capped == out.capped
    {
      hide DoEntry, Fetch;
      var stats, start: nat, newInLast: nat := NOTHING, 0, 0;
      ghost var out := Walk(world, args, Begin(seen, log, ops), 0, 0);
      while stats.pages < args.maxPages
        invariant Walk(world, args, Now(stats, false), start, newInLast) == out
        decreases args.maxPages - stats.pages
      {
        ghost var before := Now(stats, false);
        var page := FetchPageWithRetry(world.net, start);
        if page.None? {
          if stats.pages == 0 {
            return None, false;
          }
          stats := stats.(pageErrors := stats.pageErrors + 1);
          break;
        }
        stats := stats.(pages := stats.pages + 1);
        var entries := page.value.entries;
        if entries == [] {
          break;
        }
        var producedBefore := stats.produced;
        ghost var first := Now(stats, false);
        EntriesKeep(world, args, first, entries);
        for i := 0 to |entries|
          invariant stats.pages == first.stats.pages
          invariant DoEntries(world, args, Now(stats, false), entries[i..]) == DoEntries(world, args, first, entries)
        {
          assert entries[i..][1..] == entries[i + 1..];
          EntryKeeps(world, args, Now(stats, false), entries[i]);
          var ok;
          ok, stats := HandleEntry(world, args, stats, entries[i]);
          if !ok {
            return None, false;
          }
        }
        var newInPage := stats.produced - producedBefore;
        newInLast := newInPage;
        if newInPage == 0 {
          break;
        }
        start := start + |entries|;
        if start >= page.value.total {
          break;
        }
      }
      capped := stats.pages >= args.maxPages && newInLast > 0;
      return Some(stats), capped;
    }
  }
}
