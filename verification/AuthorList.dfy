/** The order in which `upsert_paper` inserts authors, and the author list that is read back by position
    (python/arxiv_common/src/arxiv_common/db.py:107-122 and 307-309). */
module AuthorList {
  import opened Ordering
  import Locks

  /** A position in the paper's author list with the normalised name there. */
  datatype Entry = Entry(norm: string, position: nat)

  /** Python's stable sort of the enumerated list by normalised name. */
  predicate EntryLe(a: Entry, b: Entry) {
    if a.norm == b.norm then a.position <= b.position else StrLe(a.norm, b.norm)
  }

  lemma EntryLeIsTotalOrder()
    ensures TotalOrder(EntryLe)
  {
    forall x, y
      ensures EntryLe(x, y) || EntryLe(y, x)
    {
      StrLeTotal(x.norm, y.norm);
    }
    forall x, y | EntryLe(x, y) && EntryLe(y, x)
      ensures x == y
    {
      if x.norm != y.norm {
        StrLeAntisymmetric(x.norm, y.norm);
      }
    }
    forall x, y, z | EntryLe(x, y) && EntryLe(y, z)
      ensures EntryLe(x, z)
    {
      if x.norm != y.norm && y.norm != z.norm {
        StrLeTransitive(x.norm, y.norm, z.norm);
        if x.norm == z.norm {
          StrLeAntisymmetric(x.norm, y.norm);
        }
      }
    }
  }

  function Enumerated(norms: seq<string>): (r: seq<Entry>)
    ensures |r| == |norms|
  {
    seq(|norms|, i requires 0 <= i < |norms| => Entry(norms[i], i))
  }

  function InsertionOrder(norms: seq<string>): (r: seq<Entry>)
    ensures |r| == |norms|
  {
    Sort(Enumerated(norms), EntryLe)
  }

  /** Every position comes exactly once, under its own name. */
  lemma InsertionOrderMembers(norms: seq<string>)
    ensures forall e :: e in InsertionOrder(norms) <==> e.position < |norms| && norms[e.position] == e.norm
  {
    SortHasSameMembers(Enumerated(norms), EntryLe);
    forall e
      ensures e in Enumerated(norms) <==> e.position < |norms| && norms[e.position] == e.norm
    {
      if e.position < |norms| && norms[e.position] == e.norm {
        assert Enumerated(norms)[e.position] == e;
      }
    }
  }

  /** Where a name first occurs in the list. */
  function FirstIndex(norms: seq<string>, norm: string): (i: nat)
    requires norm in norms
    ensures i < |norms| && norms[i] == norm && norm !in norms[..i]
  {
    if norms[0] == norm then 0
    else
      assert norms == [norms[0]] + norms[1..];
      var i := 1 + FirstIndex(norms[1..], norm);
      assert norms[..i] == [norms[0]] + norms[1..][..i - 1];
      i
  }

  lemma FirstIndexIsLeast(norms: seq<string>, p: nat)
    requires p < |norms|
    ensures FirstIndex(norms, norms[p]) <= p
  {
    var first := FirstIndex(norms, norms[p]);
    assert forall q :: 0 <= q < first ==> norms[q] == norms[..first][q];
  }

  /** Equal names come in list order, so the first to be inserted under a name is its first occurrence. */
  lemma FirstInsertedIsFirstListed(norms: seq<string>, k: nat)
    requires k < |norms|
    requires forall j :: 0 <= j < k ==> InsertionOrder(norms)[j].norm != InsertionOrder(norms)[k].norm
    ensures InsertionOrder(norms)[k].norm in norms
    ensures InsertionOrder(norms)[k].position == FirstIndex(norms, InsertionOrder(norms)[k].norm)
  {
    hide InsertionOrder, FirstIndex, StrLe;
    var order := InsertionOrder(norms);
    var here := order[k];
    InsertionOrderMembers(norms);
    assert here in order;
    FirstIndexIsLeast(norms, here.position);
    var e := Entry(here.norm, FirstIndex(norms, here.norm));
    assert e in order;
    var j :| 0 <= j < |order| && order[j] == e;
    assert j >= k;
    if j > k {
      InsertionOrderSorted(norms, k, j);
    }
  }

  lemma InsertionOrderSorted(norms: seq<string>, i: nat, j: nat)
    requires i < j < |norms|
    ensures EntryLe(InsertionOrder(norms)[i], InsertionOrder(norms)[j])
  {
    EntryLeIsTotalOrder();
    SortIsSorted(Enumerated(norms), EntryLe);
  }

  /** The authors rows are locked in exactly the order the deadlock argument assumes. */
  lemma InsertionOrderIsLockOrder(id: string, norms: seq<string>)
    ensures Locks.Program(id, norms) ==
            [Locks.PaperRow(id)] +
            seq(|norms|, i requires 0 <= i < |norms| => Locks.AuthorRow(InsertionOrder(norms)[i].norm))
  {
    hide InsertionOrder, EntryLe, StrLe, Names;
    var order := InsertionOrder(norms);
    StrLeIsTotalOrder();
    NamesInOrder(norms);
    NamesSorted(norms);
    SortIsSorted(norms, StrLe);
    SortedIsUnique(Names(order), Sort(norms, StrLe), StrLe);
    NamesAre(order);
  }

  lemma NamesAre(es: seq<Entry>)
    ensures |Names(es)| == |es| && forall i :: 0 <= i < |es| ==> Names(es)[i] == es[i].norm
  {
  }

  lemma NamesInOrder(norms: seq<string>)
    ensures multiset(Names(InsertionOrder(norms))) == multiset(norms)
  {
    NamesOfSort(Enumerated(norms));
    assert Names(Enumerated(norms)) == norms;
  }

  lemma NamesSorted(norms: seq<string>)
    ensures Sorted(Names(InsertionOrder(norms)), StrLe)
  {
    hide InsertionOrder, StrLe;
    var order := InsertionOrder(norms);
    NamesAre(order);
    forall i, j | 0 <= i < j < |order|
      ensures StrLe(order[i].norm, order[j].norm)
    {
      InsertionOrderSorted(norms, i, j);
      LeByName(order[i], order[j]);
    }
  }

  lemma LeByName(a: Entry, b: Entry)
    requires EntryLe(a, b)
    ensures StrLe(a.norm, b.norm)
  {
    StrLeTotal(a.norm, b.norm);
  }

  function Names(es: seq<Entry>): seq<string> {
    seq(|es|, i requires 0 <= i < |es| => es[i].norm)
  }

  lemma InsertUnfold(e: Entry, s: seq<Entry>)
    ensures Insert(e, s, EntryLe) ==
            if s == [] || EntryLe(e, s[0]) then [e] + s else [s[0]] + Insert(e, s[1..], EntryLe)
  {
    hide EntryLe;
  }

  lemma NamesOfCons(e: Entry, s: seq<Entry>)
    ensures multiset(Names([e] + s)) == multiset{e.norm} + multiset(Names(s))
  {
    assert Names([e] + s) == [e.norm] + Names(s);
  }

  lemma {:induction false} NamesOfInsert(e: Entry, s: seq<Entry>)
    ensures multiset(Names(Insert(e, s, EntryLe))) == multiset{e.norm} + multiset(Names(s))
  {
    hide EntryLe, Insert, Names;
    InsertUnfold(e, s);
    if s == [] || EntryLe(e, s[0]) {
      NamesOfCons(e, s);
    } else {
      NamesOfInsert(e, s[1..]);
      NamesOfCons(s[0], Insert(e, s[1..], EntryLe));
      NamesOfCons(s[0], s[1..]);
      assert s == [s[0]] + s[1..];
    }
  }

  lemma {:induction false} NamesOfSort(s: seq<Entry>)
    ensures multiset(Names(Sort(s, EntryLe))) == multiset(Names(s))
  {
    hide EntryLe, Insert, Names;
    if s != [] {
      NamesOfSort(s[1..]);
      NamesOfInsert(s[0], Sort(s[1..], EntryLe));
      NamesOfCons(s[0], s[1..]);
      assert s == [s[0]] + s[1..];
    }
  }

  // ---- reading the list back ----

  /** The list with later duplicates removed. */
  function Dedup(norms: seq<string>): (r: seq<string>)
    ensures forall n :: n in r <==> n in norms
  {
    if norms == [] then []
    else
      var init, last := norms[..|norms| - 1], norms[|norms| - 1];
      assert norms == init + [last];
      if last in init then Dedup(init) else Dedup(init) + [last]
  }

  lemma FirstIndexInPrefix(init: seq<string>, last: string, n: string)
    requires n in init
    ensures n in init + [last] && FirstIndex(init + [last], n) == FirstIndex(init, n)
  {
    var norms := init + [last];
    var i, j := FirstIndex(init, n), FirstIndex(norms, n);
    assert norms[i] == n;
    assert norms[..i] == init[..i];
    assert forall q :: 0 <= q < i ==> norms[q] == norms[..i][q];
    assert forall q :: 0 <= q < j ==> norms[q] == norms[..j][q];
  }

  lemma FirstIndexOfNew(init: seq<string>, last: string)
    requires last !in init
    ensures FirstIndex(init + [last], last) == |init|
    ensures forall n :: n in init ==> n in init + [last] && FirstIndex(init + [last], n) < |init|
  {
    var norms := init + [last];
    assert forall q :: 0 <= q < |init| ==> norms[q] == init[q] && norms[q] in init;
    assert norms[|init|] == last;
    forall n | n in init
      ensures FirstIndex(norms, n) < |init|
    {
      FirstIndexInPrefix(init, last, n);
    }
  }

  /** Distinct names in order of their first occurrence. */
  predicate Increasing(norms: seq<string>, a: seq<string>) {
    && (forall i :: 0 <= i < |a| ==> a[i] in norms)
    && (forall i, j :: 0 <= i < j < |a| ==> FirstIndex(norms, a[i]) < FirstIndex(norms, a[j]))
  }

  lemma IncreasingGrows(init: seq<string>, last: string, d: seq<string>)
    requires Increasing(init, d)
    ensures Increasing(init + [last], d)
    ensures last !in init ==> Increasing(init + [last], d + [last])
  {
    hide FirstIndex;
    forall i | 0 <= i < |d|
      ensures d[i] in init + [last] && FirstIndex(init + [last], d[i]) == FirstIndex(init, d[i])
    {
      FirstIndexInPrefix(init, last, d[i]);
    }
    if last !in init {
      FirstIndexOfNew(init, last);
      assert last in init + [last];
    }
  }

  /** Names in the deduplicated list come in order of first occurrence, each once. */
  lemma {:induction false} DedupInOrder(norms: seq<string>)
    ensures Increasing(norms, Dedup(norms))
  {
    hide Increasing;
    if norms == [] {
      EmptyIsIncreasing(norms);
    } else {
      var init, last := norms[..|norms| - 1], norms[|norms| - 1];
      assert norms == init + [last];
      DedupInOrder(init);
      IncreasingGrows(init, last, Dedup(init));
    }
  }

  lemma EmptyIsIncreasing(norms: seq<string>)
    ensures Increasing(norms, [])
  {
  }

  /** A list of the paper's distinct names ordered by first occurrence is the deduplicated list. */
  lemma OrderedNamesAreDedup(norms: seq<string>, out: seq<string>)
    requires (forall n :: n in out <==> n in norms) && Increasing(norms, out)
    ensures out == Dedup(norms)
  {
    DedupInOrder(norms);
    IncreasingIsUnique(norms, out, Dedup(norms));
  }

  lemma FirstsAreEqual(norms: seq<string>, a: seq<string>, b: seq<string>)
    requires Increasing(norms, a) && Increasing(norms, b) && a != [] && b != []
    requires a[0] in b && b[0] in a
    ensures a[0] == b[0]
  {
    hide FirstIndex;
    var i :| 0 <= i < |b| && b[i] == a[0];
    var j :| 0 <= j < |a| && a[j] == b[0];
  }

  lemma {:induction false} IncreasingIsUnique(norms: seq<string>, a: seq<string>, b: seq<string>)
    requires (forall n :: n in a <==> n in b) && Increasing(norms, a) && Increasing(norms, b)
    ensures a == b
  {
    hide Increasing;
    if a == [] {
      assert forall k :: 0 <= k < |b| ==> b[k] in b;
    } else {
      assert a[0] in a;
      assert b[0] in b;
      FirstsAreEqual(norms, a, b);
      forall n
        ensures n in a[1..] <==> n in b[1..]
      {
        TailMembers(norms, a, n);
        TailMembers(norms, b, n);
      }
      TailIsIncreasing(norms, a);
      TailIsIncreasing(norms, b);
      IncreasingIsUnique(norms, a[1..], b[1..]);
      assert a == [a[0]] + a[1..] && b == [b[0]] + b[1..];
    }
  }

  lemma TailIsIncreasing(norms: seq<string>, a: seq<string>)
    requires a != [] && Increasing(norms, a)
    ensures Increasing(norms, a[1..])
  {
    hide FirstIndex;
  }

  lemma TailMembers(norms: seq<string>, a: seq<string>, n: string)
    requires a != [] && Increasing(norms, a)
    ensures n in a[1..] <==> n in a && n != a[0]
  {
    hide FirstIndex;
    if n in a[1..] {
      var k :| 0 <= k < |a[1..]| && a[1..][k] == n;
      assert a[k + 1] == n;
      assert FirstIndex(norms, a[0]) < FirstIndex(norms, a[k + 1]);
    }
    if n in a && n != a[0] {
      var k :| 0 <= k < |a| && a[k] == n;
      assert a[1..][k - 1] == n;
    }
  }
}
