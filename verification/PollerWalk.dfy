/** What a category walk reads, sends, marks and counts, entry by entry and whatever fails, told from arXiv's
    answers alone (rust/poller/src/main.rs:198-314). */
module PollerWalk {
  import opened Prelude
  import opened Documents
  import opened Versions
  import opened Poller

  // ---- four attempts at a page ----

  /** An empty page although the feed goes on. */
  predicate Transient(page: Page, start: nat) {
    page.entries == [] && start < page.total
  }

  /** The attempt brings nothing that is worth keeping. */
  ghost predicate Useless(net: (nat, nat) -> Option<Page>, start: nat, attempt: nat) {
    net(start, attempt).None? || Transient(net(start, attempt).value, start)
  }

  /** The a-th answer is the first useful one, or the fourth and last. */
  ghost predicate AnsweredAt(net: (nat, nat) -> Option<Page>, start: nat, page: Page, a: nat) {
    && a < 4 && net(start, a) == Some(page) && (a == 3 || !Transient(page, start))
    && forall b: nat :: b < a ==> Useless(net, start, b)
  }

  ghost predicate Unanswered(net: (nat, nat) -> Option<Page>, start: nat) {
    net(start, 3).None? && forall b: nat :: b < 3 ==> Useless(net, start, b)
  }

  /** A page is the first useful answer of four, or the fourth; there is none when the fourth request fails after
      three useless ones. */
  lemma FetchTriesFour(net: (nat, nat) -> Option<Page>, start: nat, page: Page)
    ensures Fetch(net, start) == Some(page) <==> exists a: nat :: AnsweredAt(net, start, page, a)
    ensures Fetch(net, start) == None <==> Unanswered(net, start)
  {
    var f3, f2, f1 := FetchFrom(net, start, 3), FetchFrom(net, start, 2), FetchFrom(net, start, 1);
    assert f3 == net(start, 3);
    assert f2 == if Useless(net, start, 2) then f3 else net(start, 2);
    assert f1 == if Useless(net, start, 1) then f2 else net(start, 1);
    assert Fetch(net, start) == if Useless(net, start, 0) then f1 else net(start, 0);
    if Fetch(net, start) == Some(page) {
      var a := if !Useless(net, start, 0) then 0 else if !Useless(net, start, 1) then 1
               else if !Useless(net, start, 2) then 2 else 3;
      assert AnsweredAt(net, start, page, a);
    }
  }

  // ---- the entries read ----

  ghost function EntriesOf(pages: seq<Page>): seq<Entry> {
    if pages == [] then [] else EntriesOf(pages[..|pages| - 1]) + pages[|pages| - 1].entries
  }

  ghost predicate SameMember(a: Entry, b: Entry) {
    SeenMember(a.paper.id, a.paper.version) == SeenMember(b.paper.id, b.paper.version)
  }

  /** The i-th entry was seen before the walk, or was sent and marked earlier in it. */
  ghost predicate FoundSeen(seen: set<string>, dryRun: bool, es: seq<Entry>, i: nat)
    requires i < |es|
  {
    || SeenMember(es[i].paper.id, es[i].paper.version) in seen
    || (!dryRun && exists j :: 0 <= j < i && es[j].valid && SameMember(es[j], es[i]))
  }

  ghost predicate IsNew(seen: set<string>, dryRun: bool, es: seq<Entry>, i: nat)
    requires i < |es|
  {
    es[i].valid && !FoundSeen(seen, dryRun, es, i)
  }

  /** The papers of the new entries, in order. */
  ghost function NewPapers(seen: set<string>, es: seq<Entry>): seq<Paper> {
    if es == [] then []
    else
      var n := |es| - 1;
      NewPapers(seen, es[..n]) + (if IsNew(seen, false, es, n) then [es[n].paper] else [])
  }

  ghost function SeenAt(seen: set<string>, dryRun: bool, es: seq<Entry>): set<nat> {
    set i: nat | i < |es| && FoundSeen(seen, dryRun, es, i)
  }

  ghost function InvalidAt(seen: set<string>, dryRun: bool, es: seq<Entry>): set<nat> {
    set i: nat | i < |es| && !es[i].valid && !FoundSeen(seen, dryRun, es, i)
  }

  ghost function NewAt(seen: set<string>, dryRun: bool, es: seq<Entry>): set<nat> {
    set i: nat | i < |es| && IsNew(seen, dryRun, es, i)
  }

  ghost predicate Tallied(seen: set<string>, dryRun: bool, es: seq<Entry>, stats: Stats) {
    && stats.skippedSeen == |SeenAt(seen, dryRun, es)|
    && stats.invalid == |InvalidAt(seen, dryRun, es)|
    && stats.produced == |NewAt(seen, dryRun, es)|
  }

  /** The seen set holds what it held and the valid entries; a dry run marks nothing. */
  ghost predicate Marked(seen: set<string>, dryRun: bool, es: seq<Entry>, seen': set<string>) {
    forall m :: m in seen' <==>
      || m in seen
      || (!dryRun &&
          exists j :: 0 <= j < |es| && es[j].valid && SeenMember(es[j].paper.id, es[j].paper.version) == m)
  }

  ghost predicate Logged(seen: set<string>, dryRun: bool, es: seq<Entry>, log: seq<Paper>, log': seq<Paper>) {
    log' == if dryRun then log else log + NewPapers(seen, es)
  }

  /** All entries were read and nothing failed. */
  ghost predicate Did(seen: set<string>, log: seq<Paper>, dryRun: bool, es: seq<Entry>, s: State) {
    && !s.failed && s.stats.fetched == |es|
    && Logged(seen, dryRun, es, log, s.log) && Marked(seen, dryRun, es, s.seen) && Tallied(seen, dryRun, es, s.stats)
  }

  /** An operation failed on the last entry: it may have been sent, or sent and marked, if it is new; all before it
      were handled in full. */
  ghost predicate BrokeOff(seen: set<string>, log: seq<Paper>, dryRun: bool, es: seq<Entry>, s: State) {
    && s.failed && es != [] && s.stats.fetched == |es|
    && var before := es[..|es| - 1];
       && (Logged(seen, dryRun, before, log, s.log) || Logged(seen, dryRun, es, log, s.log))
       && (Marked(seen, dryRun, before, s.seen) ||
           (Marked(seen, dryRun, es, s.seen) && Logged(seen, dryRun, es, log, s.log)))
       && Tallied(seen, dryRun, before, s.stats)
  }

  // ---- one entry ----

  lemma SameSoFar(seen: set<string>, dryRun: bool, es: seq<Entry>, e: Entry)
    ensures forall i: nat :: i < |es| ==> FoundSeen(seen, dryRun, es + [e], i) == FoundSeen(seen, dryRun, es, i)
    ensures (es + [e])[..|es|] == es
  {
    assert forall i :: 0 <= i < |es| ==> (es + [e])[i] == es[i];
  }

  lemma OneMoreEntry(seen: set<string>, dryRun: bool, es: seq<Entry>, e: Entry)
    ensures var all, n := es + [e], |es|;
            && |SeenAt(seen, dryRun, all)| ==
               |SeenAt(seen, dryRun, es)| + (if FoundSeen(seen, dryRun, all, n) then 1 else 0)
            && |InvalidAt(seen, dryRun, all)| ==
               |InvalidAt(seen, dryRun, es)| + (if !e.valid && !FoundSeen(seen, dryRun, all, n) then 1 else 0)
            && |NewAt(seen, dryRun, all)| == |NewAt(seen, dryRun, es)| + (if IsNew(seen, dryRun, all, n) then 1 else 0)
  {
    hide FoundSeen;
    var all, n := es + [e], |es|;
    SameSoFar(seen, dryRun, es, e);
    assert all[n] == e && forall i :: 0 <= i < n ==> all[i] == es[i];
    GrowsByOne(SeenAt(seen, dryRun, es), SeenAt(seen, dryRun, all), n, FoundSeen(seen, dryRun, all, n));
    GrowsByOne(InvalidAt(seen, dryRun, es), InvalidAt(seen, dryRun, all), n,
               !e.valid && !FoundSeen(seen, dryRun, all, n));
    GrowsByOne(NewAt(seen, dryRun, es), NewAt(seen, dryRun, all), n, IsNew(seen, dryRun, all, n));
  }

  lemma PapersSoFar(seen: set<string>, es: seq<Entry>, e: Entry)
    ensures NewPapers(seen, es + [e]) ==
            NewPapers(seen, es) + if IsNew(seen, false, es + [e], |es|) then [e.paper] else []
  {
    SameSoFar(seen, false, es, e);
  }

  /** The set tells whether an entry is found seen, and what marking it adds. */
  lemma MarkedTells(seen: set<string>, dryRun: bool, es: seq<Entry>, seen': set<string>, e: Entry)
    requires Marked(seen, dryRun, es, seen')
    ensures FoundSeen(seen, dryRun, es + [e], |es|) <==> Member(e) in seen'
    ensures !e.valid || dryRun || Member(e) in seen' ==> Marked(seen, dryRun, es + [e], seen')
    ensures e.valid && !dryRun ==> Marked(seen, dryRun, es + [e], seen' + {Member(e)})
  {
    hide SeenMember;
    var all := es + [e];
    assert forall i :: 0 <= i < |es| ==> all[i] == es[i];
    assert all[|es|] == e;
  }

  lemma EntryDid(seen: set<string>, log: seq<Paper>, world: World, args: Args, es: seq<Entry>, s: State, e: Entry)
    requires Did(seen, log, args.dryRun, es, s)
    ensures var s' := DoEntry(world, args, s, e);
            && (if s'.failed then BrokeOff(seen, log, args.dryRun, es + [e], s')
                else Did(seen, log, args.dryRun, es + [e], s'))
            && (!s'.failed ==>
                  s'.stats.produced ==
                  s.stats.produced + if IsNew(seen, args.dryRun, es + [e], |es|) then 1 else 0)
  {
    hide Marked, FoundSeen, NewPapers, SeenAt, InvalidAt, NewAt;
    SameSoFar(seen, args.dryRun, es, e);
    MarkedTells(seen, args.dryRun, es, s.seen, e);
    OneMoreEntry(seen, args.dryRun, es, e);
    PapersSoFar(seen, es, e);
    assert s.log + [] == s.log;
  }

  // ---- the entries of a page ----

  lemma PrefixAgrees(seen: set<string>, dryRun: bool, es: seq<Entry>, more: seq<Entry>, i: nat)
    requires i < |es|
    ensures IsNew(seen, dryRun, es + more, i) == IsNew(seen, dryRun, es, i)
  {
    assert forall j :: 0 <= j < |es| ==> (es + more)[j] == es[j];
  }

  ghost predicate SomeNew(seen: set<string>, dryRun: bool, es: seq<Entry>, from: nat) {
    exists i: nat :: from <= i < |es| && IsNew(seen, dryRun, es, i)
  }

  lemma {:induction false} EntriesDid(seen: set<string>, log: seq<Paper>, world: World, args: Args, es: seq<Entry>,
                                      s: State, entries: seq<Entry>)
    requires Did(seen, log, args.dryRun, es, s)
    ensures var s' := DoEntries(world, args, s, entries);
            && (!s'.failed ==> Did(seen, log, args.dryRun, es + entries, s'))
            && (!s'.failed ==>
                  s'.stats.produced >= s.stats.produced &&
                  (s'.stats.produced > s.stats.produced <==> SomeNew(seen, args.dryRun, es + entries, |es|)))
            && (s'.failed ==> exists n :: 0 < n <= |entries| && BrokeOff(seen, log, args.dryRun, es + entries[..n], s'))
    decreases |entries|
  {
    hide Did, BrokeOff, DoEntry, IsNew;
    DidMeans(seen, log, args.dryRun, es, s);
    if entries == [] {
      assert es + entries == es;
    } else {
      var e, rest := entries[0], entries[1..];
      var s1 := DoEntry(world, args, s, e);
      EntryDid(seen, log, world, args, es, s, e);
      assert (es + [e]) + rest == es + entries;
      if s1.failed {
        assert es + entries[..1] == es + [e];
      } else {
        EntriesDid(seen, log, world, args, es + [e], s1, rest);
        PrefixAgrees(seen, args.dryRun, es + [e], rest, |es|);
        var s' := DoEntries(world, args, s1, rest);
        if s'.failed {
          var n :| 0 < n <= |rest| && BrokeOff(seen, log, args.dryRun, (es + [e]) + rest[..n], s');
          assert (es + [e]) + rest[..n] == es + entries[..n + 1];
        }
      }
    }
  }

  lemma DidMeans(seen: set<string>, log: seq<Paper>, dryRun: bool, es: seq<Entry>, s: State)
    requires Did(seen, log, dryRun, es, s)
    ensures !s.failed && s.stats.fetched == |es|
  {
  }

  // ---- the pages ----

  /** Each page is the answer to the request for the entry after those of the pages before it. */
  ghost predicate Served(net: (nat, nat) -> Option<Page>, pages: seq<Page>) {
    forall i :: 0 <= i < |pages| ==> ServedAt(net, |EntriesOf(pages[..i])|, pages[i])
  }

  ghost predicate ServedAt(net: (nat, nat) -> Option<Page>, start: nat, page: Page) {
    exists a: nat :: AnsweredAt(net, start, page, a)
  }

  /** The i-th page shows something new and is not the last of the feed. */
  ghost predicate GoesOn(seen: set<string>, dryRun: bool, pages: seq<Page>, i: nat)
    requires i < |pages|
  {
    var start, next := |EntriesOf(pages[..i])|, |EntriesOf(pages[..i + 1])|;
    SomeNew(seen, dryRun, EntriesOf(pages[..i + 1]), start) && next < pages[i].total
  }

  ghost predicate AllGoOn(seen: set<string>, dryRun: bool, pages: seq<Page>, n: nat)
    requires n <= |pages|
  {
    forall i :: 0 <= i < n ==> GoesOn(seen, dryRun, pages, i)
  }

  /** The walk stood before another page: all pages read go on. */
  ghost predicate Walked(seen: set<string>, log: seq<Paper>, net: (nat, nat) -> Option<Page>, dryRun: bool,
                         pages: seq<Page>, s: State, start: nat, newInLast: nat) {
    && Did(seen, log, dryRun, EntriesOf(pages), s) && Served(net, pages) && AllGoOn(seen, dryRun, pages, |pages|)
    && start == |EntriesOf(pages)| && |pages| == s.stats.pages && s.stats.pageErrors == 0
    && (newInLast > 0 <==> pages != [])
  }

  /** How a walk ends that is not broken off: at the page cap; at a page that fails, after the first; or at the
      first page that is empty, shows nothing new, or is the last of the feed. */
  ghost predicate EndsAsPromised(seen: set<string>, net: (nat, nat) -> Option<Page>, args: Args, pages: seq<Page>,
                                 out: Outcome) {
    var n := |pages|;
    && n == out.state.stats.pages <= args.maxPages && out.state.stats.pageErrors <= 1
    && (if n > 0 && !GoesOn(seen, args.dryRun, pages, n - 1)
        then AllGoOn(seen, args.dryRun, pages, n - 1) && out.state.stats.pageErrors == 0
        else && AllGoOn(seen, args.dryRun, pages, n)
             && (if out.state.stats.pageErrors == 0 then n == args.maxPages
                 else 0 < n < args.maxPages && Unanswered(net, |EntriesOf(pages)|)))
    && (out.capped <==> n == args.maxPages > 0 && LastNewsAt(seen, args.dryRun, pages))
  }

  /** The last page that is not empty showed something new. */
  ghost predicate LastNewsAt(seen: set<string>, dryRun: bool, pages: seq<Page>)
    requires pages != []
  {
    var n := |pages| - 1;
    if pages[n].entries == [] then n > 0 else SomeNew(seen, dryRun, EntriesOf(pages), |EntriesOf(pages[..n])|)
  }

  lemma OneMorePage(seen: set<string>, dryRun: bool, net: (nat, nat) -> Option<Page>, pages: seq<Page>, page: Page)
    requires Served(net, pages) && Fetch(net, |EntriesOf(pages)|) == Some(page)
    requires AllGoOn(seen, dryRun, pages, |pages|)
    ensures var read := pages + [page];
            && Served(net, read) && AllGoOn(seen, dryRun, read, |pages|)
            && EntriesOf(read) == EntriesOf(pages) + page.entries
            && read[..|pages|] == pages && read[..|read|] == read && read[|pages|] == page
  {
    hide EntriesOf, AnsweredAt, SomeNew;
    var read := pages + [page];
    FetchTriesFour(net, |EntriesOf(pages)|, page);
    LastPage(pages, page);
    assert pages[..|pages|] == pages;
    forall i | 0 <= i < |read|
      ensures ServedAt(net, |EntriesOf(read[..i])|, read[i])
    {
      assert read[..i] == pages[..i];
      assert i < |pages| ==> read[i] == pages[i];
    }
    forall i | 0 <= i < |pages|
      ensures GoesOn(seen, dryRun, read, i)
    {
      assert GoesOn(seen, dryRun, pages, i);
      assert read[..i] == pages[..i] && read[..i + 1] == pages[..i + 1];
    }
  }

  lemma LastPage(pages: seq<Page>, page: Page)
    ensures EntriesOf(pages + [page]) == EntriesOf(pages) + page.entries
  {
    assert (pages + [page])[..|pages|] == pages;
  }

  lemma DidAnyway(seen: set<string>, log: seq<Paper>, dryRun: bool, es: seq<Entry>, s: State, stats: Stats)
    requires Did(seen, log, dryRun, es, s)
    requires stats == s.stats.(pages := stats.pages, pageErrors := stats.pageErrors)
    ensures Did(seen, log, dryRun, es, s.(stats := stats))
  {
  }

  /** Every walk, wherever it stands: what it has read in the end is a list of pages that arXiv served in a row.  If
      it was completed, all their entries were dealt with and it ended as promised.  If not, it failed at one of the
      entries, all before it being dealt with, or at the first page before anything was done. */
  lemma {:induction false} WalkReads(world: World, args: Args, seen: set<string>, log: seq<Paper>, pages: seq<Page>,
                                     s: State, start: nat, newInLast: nat)
    returns (read: seq<Page>, n: nat)
    requires Walked(seen, log, world.net, args.dryRun, pages, s, start, newInLast) && s.stats.pages <= args.maxPages
    ensures Served(world.net, read) && n <= |EntriesOf(read)|
    ensures var out := Walk(world, args, s, start, newInLast);
            && (out.ok ==>
                  Did(seen, log, args.dryRun, EntriesOf(read), out.state) &&
                  EndsAsPromised(seen, world.net, args, read, out))
            && (!out.ok ==>
                  || (pages == [] && out.state == s && Unanswered(world.net, 0))
                  || BrokeOff(seen, log, args.dryRun, EntriesOf(read)[..n], out.state))
    decreases args.maxPages - s.stats.pages
  {
    hide DoEntries, Fetch, Did, BrokeOff, Served, SomeNew, Unanswered, EntriesOf;
    DidMeans(seen, log, args.dryRun, EntriesOf(pages), s);
    read, n := pages, 0;
    if s.stats.pages < args.maxPages && Fetch(world.net, start).None? {
      FetchTriesFour(world.net, start, Page([], 0));
      DidAnyway(seen, log, args.dryRun, EntriesOf(pages), s, s.stats.(pageErrors := s.stats.pageErrors + 1));
      NoEntries();
    } else if s.stats.pages >= args.maxPages {
      if pages != [] {
        GoingOnIsNews(seen, args.dryRun, pages);
      }
    } else {
      var page := Fetch(world.net, start).value;
      var es := EntriesOf(pages);
      var s1 := s.(stats := s.stats.(pages := s.stats.pages + 1));
      DidAnyway(seen, log, args.dryRun, es, s, s1.stats);
      OneMorePage(seen, args.dryRun, world.net, pages, page);
      read := pages + [page];
      if page.entries == [] {
        NothingNewHere(seen, args.dryRun, es);
        assert es + [] == es;
      } else {
        EntriesDid(seen, log, world, args, es, s1, page.entries);
        EntriesKeep(world, args, s1, page.entries);
        var s2 := DoEntries(world, args, s1, page.entries);
        if s2.failed {
          var k :| 0 < k <= |page.entries| && BrokeOff(seen, log, args.dryRun, es + page.entries[..k], s2);
          n := |es| + k;
          assert EntriesOf(read)[..n] == es + page.entries[..k];
        } else if s2.stats.produced > s1.stats.produced && start + |page.entries| < page.total {
          assert AllGoOn(seen, args.dryRun, read, |read|);
          read, n := WalkReads(world, args, seen, log, read, s2, start + |page.entries|,
                               s2.stats.produced - s1.stats.produced);
        }
      }
    }
  }

  lemma NoEntries()
    ensures EntriesOf([]) == []
  {
  }

  lemma GoingOnIsNews(seen: set<string>, dryRun: bool, pages: seq<Page>)
    requires pages != [] && GoesOn(seen, dryRun, pages, |pages| - 1)
    ensures LastNewsAt(seen, dryRun, pages)
  {
    assert pages[..|pages|] == pages;
  }

  lemma NothingNewHere(seen: set<string>, dryRun: bool, es: seq<Entry>)
    ensures !SomeNew(seen, dryRun, es, |es|)
  {
  }

  // ---- the whole walk ----

  lemma {:induction false} NewPapersAreNew(seen: set<string>, es: seq<Entry>, k: nat) returns (i: nat)
    requires k < |NewPapers(seen, es)|
    ensures i < |es| && es[i].paper == NewPapers(seen, es)[k] && es[i].valid
    ensures SeenMember(es[i].paper.id, es[i].paper.version) !in seen
  {
    hide SeenMember;
    var n := |es| - 1;
    if k < |NewPapers(seen, es[..n])| {
      i := NewPapersAreNew(seen, es[..n], k);
    } else {
      i := n;
    }
  }

  ghost predicate FromSome(es: seq<Entry>, seen: set<string>, p: Paper) {
    exists i :: 0 <= i < |es| && es[i].paper == p && es[i].valid && SeenMember(p.id, p.version) !in seen
  }

  lemma LoggedIsNew(seen: set<string>, dryRun: bool, es: seq<Entry>, n: nat, log: seq<Paper>, log': seq<Paper>)
    requires n <= |es| && Logged(seen, dryRun, es[..n], log, log')
    ensures log <= log' && forall i :: |log| <= i < |log'| ==> FromSome(es, seen, log'[i])
    ensures dryRun ==> log' == log
  {
    forall i | |log| <= i < |log'|
      ensures FromSome(es, seen, log'[i])
    {
      var k := NewPapersAreNew(seen, es[..n], i - |log|);
      assert es[k].paper == log'[i];
    }
  }

  lemma DryRunMarksNothing(seen: set<string>, es: seq<Entry>, seen': set<string>)
    requires Marked(seen, true, es, seen')
    ensures seen' == seen
  {
  }

  lemma WhatItLogged(seen: set<string>, log: seq<Paper>, dryRun: bool, es: seq<Entry>, n: nat, s: State)
    requires n <= |es| && (Did(seen, log, dryRun, es[..n], s) || BrokeOff(seen, log, dryRun, es[..n], s))
    ensures log <= s.log && forall i :: |log| <= i < |s.log| ==> FromSome(es, seen, s.log[i])
    ensures dryRun ==> s.log == log && s.seen == seen
  {
    hide Logged, Marked, Tallied, FromSome;
    if dryRun {
      var part := if Marked(seen, true, es[..n], s.seen) then es[..n] else es[..n][..n - 1];
      DryRunMarksNothing(seen, part, s.seen);
    }
    if Logged(seen, dryRun, es[..n], log, s.log) {
      LoggedIsNew(seen, dryRun, es, n, log, s.log);
    } else {
      assert es[..n][..n - 1] == es[..n - 1];
      LoggedIsNew(seen, dryRun, es, n - 1, log, s.log);
    }
  }

  /** In every walk, whatever fails: only papers of valid entries that were not seen before are sent; a dry run sends
      and marks nothing; and a walk that is completed has sent exactly the new papers, has marked exactly the valid
      entries, counts every entry as seen, invalid or produced, and ended where it should. */
  lemma PollIsFaithful(world: World, args: Args, seen: set<string>, log: seq<Paper>, ops: nat)
    returns (read: seq<Page>, n: nat)
    ensures var out := Walk(world, args, Begin(seen, log, ops), 0, 0);
            var es := EntriesOf(read);
            && Served(world.net, read) && n <= |es| && log <= out.state.log
            && (forall i :: |log| <= i < |out.state.log| ==> FromSome(es, seen, out.state.log[i]))
            && (args.dryRun ==> out.state.log == log && out.state.seen == seen)
            && (out.ok ==>
                  Did(seen, log, args.dryRun, es, out.state) && EndsAsPromised(seen, world.net, args, read, out))
            && (!out.ok ==>
                  || (out.state == Begin(seen, log, ops) && Unanswered(world.net, 0))
                  || BrokeOff(seen, log, args.dryRun, es[..n], out.state))
  {
    var s := Begin(seen, log, ops);
    hide Walk;
    NothingRead(seen, log, world.net, args.dryRun, s);
    read, n := WalkReads(world, args, seen, log, [], s, 0, 0);
    var out, es := Walk(world, args, s, 0, 0), EntriesOf(read);
    hide EntriesOf, Served, Did, BrokeOff, EndsAsPromised, Unanswered, FromSome;
    if out.ok {
      assert es[..|es|] == es;
      WhatItLogged(seen, log, args.dryRun, es, |es|, out.state);
    } else if BrokeOff(seen, log, args.dryRun, es[..n], out.state) {
      WhatItLogged(seen, log, args.dryRun, es, n, out.state);
    }
  }

  lemma NothingRead(seen: set<string>, log: seq<Paper>, net: (nat, nat) -> Option<Page>, dryRun: bool, s: State)
    requires s.seen == seen && s.log == log && s.stats == NOTHING && !s.failed
    ensures Walked(seen, log, net, dryRun, [], s, 0, 0)
  {
    assert SeenAt(seen, dryRun, []) == InvalidAt(seen, dryRun, []) == NewAt(seen, dryRun, []) == {};
  }
}
