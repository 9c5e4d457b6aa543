/** The intrusive slot lists of the timer wheel, threaded through a fixed slab:
    what filing, unlinking and taking a whole slot do to them. */
module TimerLists {
  import opened Options
  import opened Sequences
  import opened MachineWords
  import opened TimerPlacement

  const FREE_LEVEL: nat := 254
  const RETIRED_LEVEL: nat := 255
  const BUCKETS: nat := 512

  datatype TimerId = TimerId(wheel: nat, generation: nat, index: nat)

  datatype Timer<T> = Timer(deadline: nat, token: T)

  datatype InsertError = Full | DeadlineTooFar | TimeOutOfRange

  datatype RescheduleError = StaleId | RescheduleTooFar | RescheduleOutOfRange

  datatype Result<T, E> = Ok(value: T) | Err(error: E)

  datatype Entry<T> = Entry(
    deadline: nat,
    generation: nat,
    token: Option<T>,
    next: nat,
    prev: nat,
    level: nat,
    slot: nat)

  // ---- Intrusive lists -------------------------------------------------------

  /** The `i`th index of a list, or the end marker on either side of it. */
  function At(xs: seq<nat>, i: int): nat {
    if 0 <= i < |xs| then xs[i] else NIL
  }

  function Bucket(level: nat, slot: nat): nat { level * 64 + slot }

  /** Following `next` from `head` visits exactly `xs`. */
  ghost predicate Linked<T>(es: seq<Entry<T>>, head: nat, xs: seq<nat>) {
    && Distinct(xs)
    && head == At(xs, 0)
    && (forall i :: 0 <= i < |xs| ==> xs[i] < |es|)
    && (forall i {:trigger es[xs[i]]} :: 0 <= i < |xs| ==> es[xs[i]].next == At(xs, i + 1))
  }

  predicate Filed<T>(e: Entry<T>) {
    e.token.Some? && e.level < LEVELS && e.slot < SLOTS
  }

  /** A slot list: linked both ways, every member live and filed in bucket `q`. */
  ghost predicate Row<T>(es: seq<Entry<T>>, head: nat, xs: seq<nat>, q: nat) {
    && Linked(es, head, xs)
    && (forall i {:trigger es[xs[i]]} :: 0 <= i < |xs| ==>
          && Filed(es[xs[i]])
          && Bucket(es[xs[i]].level, es[xs[i]].slot) == q
          && es[xs[i]].prev == At(xs, i - 1))
  }

  /** The slot lists hold every live entry exactly once, except the `loose` ones
      that an operation has in hand. */
  ghost predicate Wired<T>(es: seq<Entry<T>>, heads: seq<nat>, lists: seq<seq<nat>>, loose: set<nat>) {
    && |heads| == |lists| == BUCKETS
    && |es| <= NIL
    && (forall q :: 0 <= q < BUCKETS ==> Row(es, heads[q], lists[q], q))
    && (forall q, x :: 0 <= q < BUCKETS && x in lists[q] ==> x !in loose)
    && (forall x :: x in loose ==> x < |es| && es[x].token.Some?)
    && (forall x :: 0 <= x < |es| && es[x].token.Some? && x !in loose ==> Shelved(es, lists, x))
  }

  ghost predicate Shelved<T>(es: seq<Entry<T>>, lists: seq<seq<nat>>, x: nat)
    requires |lists| == BUCKETS && x < |es|
  {
    Filed(es[x]) && x in lists[Bucket(es[x].level, es[x].slot)]
  }

  lemma RowFrame<T>(es: seq<Entry<T>>, es': seq<Entry<T>>, head: nat, xs: seq<nat>, q: nat)
    requires Row(es, head, xs, q) && |es| == |es'|
    requires forall i :: 0 <= i < |xs| ==> es'[xs[i]] == es[xs[i]]
    ensures Row(es', head, xs, q)
  {
  }

  /** The slab after filing `index` at the head of bucket `(level, slot)`. */
  function FileEntries<T>(es: seq<Entry<T>>, head: nat, index: nat, deadline: nat, level: nat, slot: nat)
    : (r: seq<Entry<T>>)
    requires index < |es| && (head != NIL ==> head < |es| && head != index)
    ensures |r| == |es|
  {
    var filed := es[index := es[index].(deadline := deadline, next := head, prev := NIL,
                                        level := level, slot := slot)];
    if head == NIL then filed else filed[head := filed[head].(prev := index)]
  }

  lemma RowCons<T>(es: seq<Entry<T>>, head: nat, xs: seq<nat>, index: nat, deadline: nat, level: nat, slot: nat)
    requires |es| <= NIL && level < LEVELS && slot < SLOTS
    requires Row(es, head, xs, Bucket(level, slot))
    requires index < |es| && index !in xs && es[index].token.Some?
    ensures head != NIL ==> head < |es| && head != index && head in xs
    ensures Row(FileEntries(es, head, index, deadline, level, slot), index, [index] + xs, Bucket(level, slot))
  {
    var es' := FileEntries(es, head, index, deadline, level, slot);
    var ys := [index] + xs;
    forall i | 0 <= i < |ys|
      ensures ys[i] < |es'| && es'[ys[i]].next == At(ys, i + 1) && es'[ys[i]].prev == At(ys, i - 1)
      ensures Filed(es'[ys[i]]) && Bucket(es'[ys[i]].level, es'[ys[i]].slot) == Bucket(level, slot)
    {
      if i > 0 {
        assert es[ys[i]] == es[xs[i - 1]];
        if i > 1 { assert xs[0] != xs[i - 1]; }
      }
    }
  }

  lemma FileKeepsWired<T>(es: seq<Entry<T>>, heads: seq<nat>, lists: seq<seq<nat>>, loose: set<nat>,
                          index: nat, deadline: nat, level: nat, slot: nat)
    requires Wired(es, heads, lists, loose) && index in loose
    requires level < LEVELS && slot < SLOTS
    ensures var q := Bucket(level, slot);
            && (heads[q] != NIL ==> heads[q] < |es| && heads[q] != index && heads[q] !in loose)
            && Wired(FileEntries(es, heads[q], index, deadline, level, slot), heads[q := index],
                     lists[q := [index] + lists[q]], loose - {index})
  {
    var q := Bucket(level, slot);
    assert Row(es, heads[q], lists[q], q);
    RowCons(es, heads[q], lists[q], index, deadline, level, slot);
    var es' := FileEntries(es, heads[q], index, deadline, level, slot);
    var lists' := lists[q := [index] + lists[q]];
    forall p | 0 <= p < BUCKETS && p != q
      ensures Row(es', heads[p], lists[p], p)
    {
      assert Row(es, heads[p], lists[p], p);
      forall i | 0 <= i < |lists[p]| ensures es'[lists[p][i]] == es[lists[p][i]] {
        assert lists[p][i] in lists[p];
      }
      RowFrame(es, es', heads[p], lists[p], p);
    }
    forall x | 0 <= x < |es'| && es'[x].token.Some? && x !in loose - {index}
      ensures Shelved(es', lists', x)
    {
      if x != index { assert Shelved(es, lists, x); }
    }
  }

  /** The slab after closing a slot list over `index`. */
  function UnlinkEntries<T>(es: seq<Entry<T>>, index: nat): (r: seq<Entry<T>>)
    requires index < |es|
    requires es[index].prev != NIL ==> es[index].prev < |es|
    requires es[index].next != NIL ==> es[index].next < |es|
    ensures |r| == |es|
    ensures forall x :: 0 <= x < |es| ==> r[x] == es[x].(next := r[x].next, prev := r[x].prev)
  {
    var prev, next := es[index].prev, es[index].next;
    var forward := if prev == NIL then es else es[prev := es[prev].(next := next)];
    if next == NIL then forward else forward[next := forward[next].(prev := prev)]
  }

  function Cut(xs: seq<nat>, k: nat): seq<nat>
    requires k < |xs|
  {
    xs[..k] + xs[k + 1..]
  }

  /** A member's links name its neighbours, or the ends of the list. */
  lemma RowNeighbours<T>(es: seq<Entry<T>>, head: nat, xs: seq<nat>, q: nat, k: nat)
    requires |es| <= NIL && Row(es, head, xs, q) && k < |xs|
    ensures es[xs[k]].prev == At(xs, k - 1) && es[xs[k]].next == At(xs, k + 1)
    ensures k > 0 ==> xs[k - 1] < NIL && xs[k - 1] != xs[k]
    ensures k + 1 < |xs| ==> xs[k + 1] < NIL && xs[k + 1] != xs[k]
  {
  }

  /** Neighbours in the shortened list are neighbours in the original, except
      across the gap. */
  lemma WithoutNeighbours(xs: seq<nat>, k: nat, i: nat)
    requires k < |xs| && i < |xs| - 1
    ensures var j := if i < k then i else i + 1;
            && Cut(xs, k)[i] == xs[j]
            && At(Cut(xs, k), i + 1) == At(xs, if j + 1 == k then j + 2 else j + 1)
            && At(Cut(xs, k), i - 1) == At(xs, if j == k + 1 then j - 2 else j - 1)
  {
  }

  lemma RowRemove<T>(es: seq<Entry<T>>, head: nat, xs: seq<nat>, q: nat, k: nat)
    requires |es| <= NIL && Row(es, head, xs, q) && k < |xs|
    requires es[xs[k]].prev == At(xs, k - 1) && es[xs[k]].next == At(xs, k + 1)
    ensures Row(UnlinkEntries(es, xs[k]), if k == 0 then es[xs[k]].next else head, Cut(xs, k), q)
  {
    hide Cut;
    var es' := UnlinkEntries(es, xs[k]);
    var ys := Cut(xs, k);
    WithoutLength(xs, k);
    forall i | 0 <= i < |ys|
      ensures ys[i] < |es'| && es'[ys[i]].next == At(ys, i + 1) && es'[ys[i]].prev == At(ys, i - 1)
      ensures Filed(es'[ys[i]]) && Bucket(es'[ys[i]].level, es'[ys[i]].slot) == q
    {
      WithoutNeighbours(xs, k, i);
      assert es[ys[i]] == es[xs[if i < k then i else i + 1]];
    }
  }

  lemma WithoutLength(xs: seq<nat>, k: nat)
    requires k < |xs|
    ensures |Cut(xs, k)| == |xs| - 1
    ensures Distinct(xs) ==> Distinct(Cut(xs, k))
    ensures At(Cut(xs, k), 0) == At(xs, if k == 0 then 1 else 0)
  {
  }

  /** Unlinking from one bucket leaves every other bucket's list alone. */
  lemma UnlinkElsewhere<T>(es: seq<Entry<T>>, head: nat, xs: seq<nat>, q: nat, k: nat,
                           other: nat, ys: seq<nat>, p: nat)
    requires |es| <= NIL && Row(es, head, xs, q) && k < |xs| && Row(es, other, ys, p) && p != q
    requires es[xs[k]].prev == At(xs, k - 1) && es[xs[k]].next == At(xs, k + 1)
    ensures Row(UnlinkEntries(es, xs[k]), other, ys, p)
    ensures xs[k] !in ys
  {
  }

  lemma UnlinkRows<T>(es: seq<Entry<T>>, heads: seq<nat>, lists: seq<seq<nat>>, q: nat, k: nat,
                      heads': seq<nat>, lists': seq<seq<nat>>)
    requires |es| <= NIL && |heads| == |lists| == BUCKETS && q < BUCKETS && k < |lists[q]|
    requires forall p :: 0 <= p < BUCKETS ==> Row(es, heads[p], lists[p], p)
    requires lists[q][k] < |es|
    requires es[lists[q][k]].prev == At(lists[q], k - 1) && es[lists[q][k]].next == At(lists[q], k + 1)
    requires forall i :: 0 <= i < |lists[q]| ==> lists[q][i] < |es|
    requires heads' == if k == 0 then heads[q := es[lists[q][k]].next] else heads
    requires lists' == lists[q := Cut(lists[q], k)]
    ensures forall p :: 0 <= p < BUCKETS ==>
              Row(UnlinkEntries(es, lists[q][k]), heads'[p], lists'[p], p) && lists[q][k] !in lists'[p]
  {
    hide Row, UnlinkEntries;
    assert Row(es, heads[q], lists[q], q);
    RowRemove(es, heads[q], lists[q], q, k);
    RowDistinct(es, heads[q], lists[q], q);
    NotInWithout(lists[q], k);
    forall p | 0 <= p < BUCKETS && p != q
      ensures Row(UnlinkEntries(es, lists[q][k]), heads'[p], lists'[p], p)
      ensures lists[q][k] !in lists'[p]
    {
      assert Row(es, heads[p], lists[p], p);
      UnlinkElsewhere(es, heads[q], lists[q], q, k, heads[p], lists[p], p);
    }
  }

  lemma UnlinkKeepsWired<T>(es: seq<Entry<T>>, heads: seq<nat>, lists: seq<seq<nat>>, loose: set<nat>,
                            q: nat, k: nat, heads': seq<nat>, lists': seq<seq<nat>>)
    requires Wired(es, heads, lists, loose) && q < BUCKETS && k < |lists[q]|
    requires lists[q][k] < |es|
    requires es[lists[q][k]].prev == At(lists[q], k - 1) && es[lists[q][k]].next == At(lists[q], k + 1)
    requires forall i :: 0 <= i < |lists[q]| ==> lists[q][i] < |es|
    requires heads' == if k == 0 then heads[q := es[lists[q][k]].next] else heads
    requires lists' == lists[q := Cut(lists[q], k)]
    ensures Wired(UnlinkEntries(es, lists[q][k]), heads', lists', loose + {lists[q][k]})
  {
    hide Row, UnlinkEntries;
    var index := lists[q][k];
    UnlinkRows(es, heads, lists, q, k, heads', lists');
    assert index in lists[q];
    RowDistinct(es, heads[q], lists[q], q);
    NotInWithout(lists[q], k);
    var es' := UnlinkEntries(es, index);
    forall x | 0 <= x < |es'| && es'[x].token.Some? && x !in loose + {index}
      ensures Shelved(es', lists', x)
    {
      assert Shelved(es, lists, x);
      StaysIn(lists[q], k, x);
    }
  }

  lemma RowDistinct<T>(es: seq<Entry<T>>, head: nat, xs: seq<nat>, q: nat)
    requires Row(es, head, xs, q)
    ensures Distinct(xs) && forall i :: 0 <= i < |xs| ==> xs[i] < |es| && Filed(es[xs[i]])
  {
  }

  lemma NotInWithout(xs: seq<nat>, k: nat)
    requires k < |xs| && Distinct(xs)
    ensures xs[k] !in Cut(xs, k)
    ensures forall x :: x in Cut(xs, k) ==> x in xs
  {
  }

  lemma StaysIn(xs: seq<nat>, k: nat, x: nat)
    requires k < |xs| && x != xs[k]
    ensures x in xs ==> x in Cut(xs, k)
  {
  }

  function Members(xs: seq<nat>): set<nat> { set x | x in xs }

  lemma TakeKeepsWired<T>(es: seq<Entry<T>>, heads: seq<nat>, lists: seq<seq<nat>>, loose: set<nat>, q: nat)
    requires Wired(es, heads, lists, loose) && q < BUCKETS
    ensures Wired(es, heads[q := NIL], lists[q := []], loose + Members(lists[q]))
    ensures Linked(es, heads[q], lists[q])
  {
  }
}
