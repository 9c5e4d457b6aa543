/** The scheduler's idle list as it is stored: a doubly linked list threaded
    through the slots of the key map. */
module SchedulerLinks {
  import opened Options
  import opened Sequences
  import opened Book
  import opened BookInvariant
  import opened QueueSlab

  datatype KSlot<+K, +S> = KSlot(
    resident: Option<S>, queue: List, presence: Presence, idleSince: nat,
    prev: Option<K>, next: Option<K>)

  function ColdSlot<K, S>(): KSlot<K, S> {
    KSlot(None, EMPTY_LIST, Idle, 0, None, None)
  }

  function Before<K>(xs: seq<K>, i: int): Option<K>
    requires i <= |xs|
  {
    if i > 0 then Some(xs[i - 1]) else None
  }

  function After<K>(xs: seq<K>, i: int): Option<K>
    requires -1 <= i
  {
    if i + 1 < |xs| then Some(xs[i + 1]) else None
  }

  /** The two links of every listed key. */
  ghost predicate Threaded<K, S>(keys: map<K, KSlot<K, S>>, xs: seq<K>) {
    && (forall i {:trigger xs[i]} :: 0 <= i < |xs| ==>
          xs[i] in keys && keys[xs[i]].prev == Before(xs, i) && keys[xs[i]].next == After(xs, i))
    && (forall k :: k in keys && k !in xs ==> keys[k].prev == None && keys[k].next == None)
  }

  /** The slots, the two ends and the counter realise the list `xs`, and every
      key off the list has no links. */
  ghost predicate IdleLinked<K, S>(keys: map<K, KSlot<K, S>>, head: Option<K>, tail: Option<K>, count: int,
                                   xs: seq<K>) {
    && Distinct(xs)
    && Threaded(keys, xs)
    && head == After(xs, -1) && tail == Before(xs, |xs|) && count == |xs|
  }

  // ---- Link writes ---------------------------------------------------------------------

  function SetPrev<K, S>(keys: map<K, KSlot<K, S>>, key: K, link: Option<K>): map<K, KSlot<K, S>>
    requires key in keys
  {
    keys[key := keys[key].(prev := link)]
  }

  function SetNext<K, S>(keys: map<K, KSlot<K, S>>, key: K, link: Option<K>): map<K, KSlot<K, S>>
    requires key in keys
  {
    keys[key := keys[key].(next := link)]
  }

  /** Close the list over a slot that stood between `prev` and `next`. */
  function Patched<K, S>(keys: map<K, KSlot<K, S>>, prev: Option<K>, next: Option<K>): (r: map<K, KSlot<K, S>>)
    requires prev.Some? ==> prev.value in keys
    requires next.Some? ==> next.value in keys
    ensures r.Keys == keys.Keys
    ensures forall k :: k in keys ==>
      r[k] == keys[k].(prev := if next == Some(k) then prev else keys[k].prev,
                       next := if prev == Some(k) then next else keys[k].next)
  {
    var fore := if prev.Some? then SetNext(keys, prev.value, next) else keys;
    if next.Some? then SetPrev(fore, next.value, prev) else fore
  }

  /** Only links differ. */
  ghost predicate Relinked<K, S>(keys: map<K, KSlot<K, S>>, keys': map<K, KSlot<K, S>>) {
    && keys.Keys == keys'.Keys
    && (forall k :: k in keys ==> keys'[k] == keys[k].(prev := keys'[k].prev, next := keys'[k].next))
  }

  /** Append a key whose links are empty. */
  function Appended<K, S>(keys: map<K, KSlot<K, S>>, tail: Option<K>, key: K): (r: map<K, KSlot<K, S>>)
    requires key in keys && (tail.Some? ==> tail.value in keys && tail.value != key)
    ensures r.Keys == keys.Keys
    ensures forall k :: k in keys ==>
      r[k] == keys[k].(prev := if k == key then tail else keys[k].prev,
                       next := if tail == Some(k) then Some(key) else keys[k].next)
  {
    var joined := SetPrev(keys, key, tail);
    if tail.Some? then SetNext(joined, tail.value, Some(key)) else joined
  }

  lemma EndsListed<K, S>(keys: map<K, KSlot<K, S>>, head: Option<K>, tail: Option<K>, count: int, xs: seq<K>)
    requires IdleLinked(keys, head, tail, count, xs)
    ensures tail.Some? ==> tail.value in keys && tail.value in xs
    ensures head.Some? <==> xs != []
    ensures head.Some? ==>
      head.value in keys && head.value in xs && head.value == xs[0] && keys[head.value].prev == None
  {
  }

  lemma AppendThreads<K, S>(keys: map<K, KSlot<K, S>>, xs: seq<K>, key: K)
    requires Threaded(keys, xs) && Distinct(xs) && key in keys && key !in xs
    requires xs != [] ==> xs[|xs| - 1] in keys
    ensures Threaded(Appended(keys, Before(xs, |xs|), key), xs + [key])
  {
    hide Appended;
    var keys' := Appended(keys, Before(xs, |xs|), key);
    var ys := xs + [key];
    assert keys[key].prev == None && keys[key].next == None;
    forall i | 0 <= i < |ys|
      ensures ys[i] in keys' && keys'[ys[i]].prev == Before(ys, i) && keys'[ys[i]].next == After(ys, i)
    {
      if i < |xs| { assert ys[i] == xs[i] && xs[i] in keys && xs[i] != key; }
    }
    forall k | k in keys' && k !in ys ensures keys'[k].prev == None && keys'[k].next == None {
      assert ys[|xs|] == key && (forall i :: 0 <= i < |xs| ==> ys[i] == xs[i]);
    }
  }

  lemma AppendKeeps<K, S>(keys: map<K, KSlot<K, S>>, head: Option<K>, tail: Option<K>, count: int, xs: seq<K>, key: K)
    requires IdleLinked(keys, head, tail, count, xs) && key in keys && key !in xs
    ensures tail.Some? ==> tail.value in keys && tail.value != key
    ensures var keys' := Appended(keys, tail, key);
      && IdleLinked(keys', if tail.Some? then head else Some(key), Some(key), count + 1, xs + [key])
      && Relinked(keys, keys')
  {
    hide Appended, Threaded;
    EndsOf(keys, head, tail, count, xs);
    AppendThreads(keys, xs, key);
  }

  lemma EndsOf<K, S>(keys: map<K, KSlot<K, S>>, head: Option<K>, tail: Option<K>, count: int, xs: seq<K>)
    requires IdleLinked(keys, head, tail, count, xs)
    ensures tail.Some? ==> tail.value in keys && tail.value in xs
    ensures xs != [] ==> xs[|xs| - 1] in keys
  {
  }

  lemma {:induction false} WithoutAt<K>(xs: seq<K>, i: nat)
    requires i < |xs| && Distinct(xs)
    ensures Without(xs, xs[i]) == xs[..i] + xs[i + 1..]
  {
    if i == 0 {
      WithoutNone(xs[1..], xs[0]);
    } else {
      var ys := xs[1..];
      assert ys[i - 1] == xs[i] && xs[0] != xs[i];
      WithoutAt(ys, i - 1);
      assert xs[..i] + xs[i + 1..] == [xs[0]] + (ys[..i - 1] + ys[i..]);
    }
  }

  lemma {:induction false} WithoutNone<K>(xs: seq<K>, x: K)
    requires x !in xs
    ensures Without(xs, x) == xs
  {
    if xs != [] { WithoutNone(xs[1..], x); }
  }

  /** The neighbours a listed key's own links give are those of its place. */
  lemma Neighbours<K, S>(keys: map<K, KSlot<K, S>>, xs: seq<K>, i: nat)
    requires Threaded(keys, xs) && Distinct(xs) && i < |xs|
    ensures xs[i] in keys && keys[xs[i]].prev == Before(xs, i) && keys[xs[i]].next == After(xs, i)
    ensures Before(xs, i).Some? ==> Before(xs, i).value in keys && Before(xs, i).value != xs[i]
    ensures After(xs, i).Some? ==> After(xs, i).value in keys && After(xs, i).value != xs[i]
  {
  }

  /** Detaching a listed key and closing the list over it. */
  function Detached<K, S>(keys: map<K, KSlot<K, S>>, key: K): (r: map<K, KSlot<K, S>>)
    requires key in keys
    requires var (prev, next) := (keys[key].prev, keys[key].next);
      (prev.Some? ==> prev.value in keys && prev.value != key) &&
        (next.Some? ==> next.value in keys && next.value != key)
    ensures r.Keys == keys.Keys
    ensures var (prev, next) := (keys[key].prev, keys[key].next);
      forall k :: k in keys ==>
      r[k] == keys[k].(prev := if k == key then None else if next == Some(k) then prev else keys[k].prev,
                       next := if k == key then None else if prev == Some(k) then next else keys[k].next)
  {
    Patched(keys[key := keys[key].(prev := None, next := None)], keys[key].prev, keys[key].next)
  }

  lemma DetachKeeps<K, S>(keys: map<K, KSlot<K, S>>, head: Option<K>, tail: Option<K>, count: int, xs: seq<K>, key: K)
    requires IdleLinked(keys, head, tail, count, xs) && key in xs
    ensures key in keys
    ensures var (prev, next) := (keys[key].prev, keys[key].next);
      && (prev.Some? ==> prev.value in keys && prev.value != key)
      && (next.Some? ==> next.value in keys && next.value != key)
      && IdleLinked(Detached(keys, key), if prev.Some? then head else next, if next.Some? then tail else prev,
                    count - 1, Without(xs, key))
      && Relinked(keys, Detached(keys, key))
  {
    hide Threaded, Detached, Without;
    var i :| 0 <= i < |xs| && xs[i] == key;
    Neighbours(keys, xs, i);
    WithoutAt(xs, i);
    WithoutMembers(xs, key);
    DetachThreads(keys, xs, i);
    CutEnds(xs, i);
  }

  lemma CutEnds<K>(xs: seq<K>, i: nat)
    requires i < |xs|
    ensures var ys := xs[..i] + xs[i + 1..];
      && After(ys, -1) == (if i == 0 then After(xs, 0) else After(xs, -1))
      && Before(ys, |ys|) == (if i == |xs| - 1 then Before(xs, i) else Before(xs, |xs|))
      && |ys| == |xs| - 1
  {
  }

  /** A listed key's place after another is cut out: its neighbours close up. */
  lemma CutNeighbours<K>(xs: seq<K>, i: nat, j: nat)
    requires Distinct(xs) && i < |xs| && j < |xs| - 1
    ensures var ys := xs[..i] + xs[i + 1..];
      var o := if j < i then j else j + 1;
      && ys[j] == xs[o] && xs[o] != xs[i]
      && Before(ys, j) == (if After(xs, i) == Some(xs[o]) then Before(xs, i) else Before(xs, o))
      && After(ys, j) == (if Before(xs, i) == Some(xs[o]) then After(xs, i) else After(xs, o))
  {
  }

  lemma CutMembers<K>(xs: seq<K>, i: nat, k: K)
    requires i < |xs| && k !in xs[..i] + xs[i + 1..]
    ensures k == xs[i] || k !in xs
    ensures Before(xs, i) != Some(k) && After(xs, i) != Some(k)
  {
  }

  lemma DetachThreads<K, S>(keys: map<K, KSlot<K, S>>, xs: seq<K>, i: nat)
    requires Threaded(keys, xs) && Distinct(xs) && i < |xs|
    requires xs[i] in keys && keys[xs[i]].prev == Before(xs, i) && keys[xs[i]].next == After(xs, i)
    requires Before(xs, i).Some? ==> Before(xs, i).value in keys && Before(xs, i).value != xs[i]
    requires After(xs, i).Some? ==> After(xs, i).value in keys && After(xs, i).value != xs[i]
    ensures Threaded(Detached(keys, xs[i]), xs[..i] + xs[i + 1..])
  {
    hide Detached, Before, After, Distinct;
    var key := xs[i];
    var ys := xs[..i] + xs[i + 1..];
    var keys' := Detached(keys, key);
    forall j | 0 <= j < |ys|
      ensures ys[j] in keys' && keys'[ys[j]].prev == Before(ys, j) && keys'[ys[j]].next == After(ys, j)
    {
      CutNeighbours(xs, i, j);
      var o := if j < i then j else j + 1;
      assert xs[o] in keys;
    }
    forall k | k in keys' && k !in ys ensures keys'[k].prev == None && keys'[k].next == None {
      CutMembers(xs, i, k);
    }
  }

  /** Whatever keeps every link, and gives new keys none, keeps the list. */
  lemma LinksFrame<K, S>(keys: map<K, KSlot<K, S>>, keys': map<K, KSlot<K, S>>,
                         head: Option<K>, tail: Option<K>, count: int, xs: seq<K>)
    requires IdleLinked(keys, head, tail, count, xs)
    requires forall k :: k in xs ==> k in keys'
    requires forall k :: k in keys' ==>
      if k in keys then keys'[k].prev == keys[k].prev && keys'[k].next == keys[k].next
      else keys'[k].prev == None && keys'[k].next == None
    ensures IdleLinked(keys', head, tail, count, xs)
  {
  }
}
