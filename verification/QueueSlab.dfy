/** Per-key FIFOs as intrusive lists over one slab. A `List` is three numbers the
    caller holds; every queued item of every list lives in one arena that only
    grows to the peak number of simultaneously queued items. */
module QueueSlab {
  import opened Options
  import opened MachineWords

  datatype Node<T> = Node(item: Option<T>, next: nat)

  datatype List = List(head: nat, tail: nat, len: nat)

  const EMPTY_LIST: List := List(NIL, NIL, 0)

  function At(xs: seq<nat>, i: int): nat {
    if 0 <= i < |xs| then xs[i] else NIL
  }

  /** Following `next` from `head` visits exactly `xs`, once each. */
  ghost predicate Linked<T>(nodes: seq<Node<T>>, head: nat, xs: seq<nat>) {
    && (forall i, j :: 0 <= i < j < |xs| ==> xs[i] != xs[j])
    && head == At(xs, 0)
    && (forall i :: 0 <= i < |xs| ==> xs[i] < |nodes|)
    && (forall i {:trigger nodes[xs[i]]} :: 0 <= i < |xs| ==> nodes[xs[i]].next == At(xs, i + 1))
  }

  /** A list and the chain of nodes it names. */
  ghost predicate Names(list: List, xs: seq<nat>) {
    list.head == At(xs, 0) && list.tail == At(xs, |xs| - 1) && list.len == |xs|
  }

  /** The chain of one owner: linked, full, and marked as the owner's. */
  ghost predicate ChainOk<K, T>(nodes: seq<Node<T>>, owner: seq<Option<K>>, k: K, xs: seq<nat>)
    requires |owner| == |nodes|
  {
    && Linked(nodes, At(xs, 0), xs)
    && (forall i {:trigger nodes[xs[i]]} :: 0 <= i < |xs| ==> nodes[xs[i]].item.Some?)
    && (forall i {:trigger owner[xs[i]]} :: 0 <= i < |xs| ==> owner[xs[i]] == Some(k))
  }

  ghost predicate FreeOk<K, T>(nodes: seq<Node<T>>, owner: seq<Option<K>>, free: nat, xs: seq<nat>)
    requires |owner| == |nodes|
  {
    && Linked(nodes, free, xs)
    && (forall i {:trigger owner[xs[i]]} :: 0 <= i < |xs| ==> owner[xs[i]] == None)
  }

  /** Every node is in exactly the chain of its owner, or on the free list. */
  ghost predicate Accounted<K, T>(nodes: seq<Node<T>>, owner: seq<Option<K>>, chains: map<K, seq<nat>>,
                                  freeChain: seq<nat>)
    requires |owner| == |nodes|
  {
    forall n :: 0 <= n < |nodes| ==>
      if owner[n].None? then n in freeChain
      else owner[n].value in chains && n in chains[owner[n].value]
  }

  ghost predicate SlabOk<K, T>(nodes: seq<Node<T>>, free: nat, owner: seq<Option<K>>,
                               chains: map<K, seq<nat>>, freeChain: seq<nat>) {
    && |owner| == |nodes| <= NIL
    && FreeOk(nodes, owner, free, freeChain)
    && (forall k :: k in chains ==> ChainOk(nodes, owner, k, chains[k]))
    && Accounted(nodes, owner, chains, freeChain)
  }

  /** Every node of a chain holds an item. */
  ghost predicate ChainHolds<T>(nodes: seq<Node<T>>, xs: seq<nat>) {
    forall i :: 0 <= i < |xs| ==> xs[i] < |nodes| && nodes[xs[i]].item.Some?
  }

  ghost function ItemsOf<T>(nodes: seq<Node<T>>, xs: seq<nat>): (items: seq<T>)
    requires ChainHolds(nodes, xs)
    ensures |items| == |xs|
  {
    seq(|xs|, i requires 0 <= i < |xs| => nodes[xs[i]].item.value)
  }

  ghost function QueueIn<K, T>(queues: map<K, seq<T>>, k: K): seq<T> {
    if k in queues then queues[k] else []
  }

  ghost function ListIn<K>(lists: map<K, List>, k: K): List {
    if k in lists then lists[k] else EMPTY_LIST
  }

  /** Each owner's handle names its chain, and its chain holds its queue. */
  ghost predicate Mirrors<K, T>(nodes: seq<Node<T>>, chains: map<K, seq<nat>>, queues: map<K, seq<T>>,
                                lists: map<K, List>) {
    && queues.Keys == chains.Keys == lists.Keys
    && (forall k :: k in chains ==> Names(lists[k], chains[k]))
    && (forall k :: k in chains ==> ChainHolds(nodes, chains[k]) && ItemsOf(nodes, chains[k]) == queues[k])
  }

  // ---- Chains under single-node updates -----------------------------------------------

  lemma ChainFrame<K, T>(nodes: seq<Node<T>>, owner: seq<Option<K>>, nodes': seq<Node<T>>, owner': seq<Option<K>>,
                         k: K, xs: seq<nat>)
    requires |owner| == |nodes| <= |nodes'| == |owner'| && ChainOk(nodes, owner, k, xs)
    requires forall i :: 0 <= i < |xs| ==> nodes'[xs[i]] == nodes[xs[i]] && owner'[xs[i]] == owner[xs[i]]
    ensures ChainOk(nodes', owner', k, xs)
    ensures ItemsOf(nodes', xs) == ItemsOf(nodes, xs)
  {
  }

  lemma LinkedAppend<T>(nodes: seq<Node<T>>, nodes': seq<Node<T>>, xs: seq<nat>, index: nat)
    requires |nodes| <= |nodes'| <= NIL && Linked(nodes, At(xs, 0), xs)
    requires index < |nodes'| && index !in xs && nodes'[index].next == NIL
    requires forall i :: 0 <= i < |xs| - 1 ==> nodes'[xs[i]].next == nodes[xs[i]].next
    requires xs != [] ==> nodes'[xs[|xs| - 1]].next == index
    ensures Linked(nodes', At(xs + [index], 0), xs + [index])
  {
  }

  /** Linking a fresh last node behind a chain. */
  lemma ChainAppend<K, T>(nodes: seq<Node<T>>, owner: seq<Option<K>>, nodes': seq<Node<T>>, owner': seq<Option<K>>,
                          k: K, xs: seq<nat>, index: nat, item: T)
    requires |owner| == |nodes| <= |nodes'| == |owner'| <= NIL && ChainOk(nodes, owner, k, xs)
    requires index < |nodes'| && index !in xs
    requires nodes'[index] == Node(Some(item), NIL) && owner'[index] == Some(k)
    requires forall i :: 0 <= i < |xs| - 1 ==> nodes'[xs[i]] == nodes[xs[i]]
    requires xs != [] ==> nodes'[xs[|xs| - 1]] == nodes[xs[|xs| - 1]].(next := index)
    requires forall i :: 0 <= i < |xs| ==> owner'[xs[i]] == owner[xs[i]]
    ensures ChainOk(nodes', owner', k, xs + [index])
    ensures ItemsOf(nodes', xs + [index]) == ItemsOf(nodes, xs) + [item]
  {
    var ys := xs + [index];
    LinkedAppend(nodes, nodes', xs, index);
    forall i | 0 <= i < |ys| ensures ys[i] < |nodes'| && nodes'[ys[i]].item.Some? && owner'[ys[i]] == Some(k)
      ensures i < |xs| ==> nodes'[ys[i]].item == nodes[xs[i]].item
    {
      if i < |xs| { assert nodes[xs[i]].item.Some? && owner[xs[i]] == Some(k); }
    }
  }

  lemma LinkedTail<T>(nodes: seq<Node<T>>, nodes': seq<Node<T>>, head: nat, xs: seq<nat>)
    requires |nodes| == |nodes'| && Linked(nodes, head, xs) && xs != []
    requires forall i :: 1 <= i < |xs| ==> nodes'[xs[i]].next == nodes[xs[i]].next
    ensures Linked(nodes', nodes[head].next, xs[1..])
    ensures nodes[head].next == At(xs[1..], 0) && head !in xs[1..] && head == xs[0]
  {
  }

  lemma FreeTail<K, T>(nodes: seq<Node<T>>, owner: seq<Option<K>>, nodes': seq<Node<T>>, owner': seq<Option<K>>,
                       free: nat, xs: seq<nat>)
    requires |owner| == |nodes| == |nodes'| == |owner'| && FreeOk(nodes, owner, free, xs) && xs != []
    requires forall i :: 1 <= i < |xs| ==> nodes'[xs[i]].next == nodes[xs[i]].next && owner'[xs[i]] == owner[xs[i]]
    ensures FreeOk(nodes', owner', nodes[free].next, xs[1..])
    ensures free !in xs[1..] && forall n :: n in xs <==> n == free || n in xs[1..]
  {
  }

  lemma FreeCons<K, T>(nodes: seq<Node<T>>, owner: seq<Option<K>>, nodes': seq<Node<T>>, owner': seq<Option<K>>,
                       free: nat, xs: seq<nat>, index: nat)
    requires |owner| == |nodes| == |nodes'| == |owner'| && FreeOk(nodes, owner, free, xs)
    requires index < |nodes| && index !in xs && nodes'[index].next == free && owner'[index] == None
    requires forall i :: 0 <= i < |xs| ==> nodes'[xs[i]].next == nodes[xs[i]].next && owner'[xs[i]] == owner[xs[i]]
    ensures FreeOk(nodes', owner', index, [index] + xs)
  {
  }

  // ---- Operations on the whole slab ------------------------------------------------------

  lemma NotFree<K, T>(nodes: seq<Node<T>>, owner: seq<Option<K>>, free: nat, xs: seq<nat>, n: nat)
    requires |owner| == |nodes| && FreeOk(nodes, owner, free, xs) && n < |owner| && owner[n] != None
    ensures n !in xs
  {
  }

  lemma ChainIsHeld<K, T>(nodes: seq<Node<T>>, owner: seq<Option<K>>, k: K, xs: seq<nat>)
    requires |owner| == |nodes| && ChainOk(nodes, owner, k, xs)
    ensures ChainHolds(nodes, xs)
  {
  }

  /** The node writes of one push: fill `index`, and point the old tail at it. */
  ghost predicate Pushed<T>(nodes: seq<Node<T>>, nodes': seq<Node<T>>, xs: seq<nat>, index: nat, item: T) {
    && |nodes| <= |nodes'| && index < |nodes'|
    && nodes'[index] == Node(Some(item), NIL)
    && (xs != [] ==> var tail := xs[|xs| - 1];
         tail < |nodes| && tail != index && nodes'[tail] == nodes[tail].(next := index))
    && (forall n :: 0 <= n < |nodes| && n != index && (xs == [] || n != xs[|xs| - 1]) ==> nodes'[n] == nodes[n])
  }

  function OwnerAfterPush<K>(owner: seq<Option<K>>, index: nat, k: K): seq<Option<K>>
    requires index <= |owner|
  {
    if index == |owner| then owner + [Some(k)] else owner[index := Some(k)]
  }

  lemma PushChain<K, T>(nodes: seq<Node<T>>, owner: seq<Option<K>>, nodes': seq<Node<T>>,
                        k: K, xs: seq<nat>, index: nat, item: T)
    requires |owner| == |nodes| && ChainOk(nodes, owner, k, xs)
    requires index <= |nodes| && |nodes'| == (if index == |nodes| then |nodes| + 1 else |nodes|) && |nodes'| <= NIL
    requires index < |nodes| ==> owner[index] == None
    requires Pushed(nodes, nodes', xs, index, item)
    ensures ChainOk(nodes', OwnerAfterPush(owner, index, k), k, xs + [index]) && index !in xs
    ensures ItemsOf(nodes', xs + [index]) == ItemsOf(nodes, xs) + [item]
  {
    var owner' := OwnerAfterPush(owner, index, k);
    NotInChainOrNew(nodes, owner, k, xs, index);
    forall i | 0 <= i < |xs| - 1 ensures nodes'[xs[i]] == nodes[xs[i]] {
      assert xs[i] != xs[|xs| - 1];
    }
    ChainAppend(nodes, owner, nodes', owner', k, xs, index, item);
  }

  lemma PushOther<K, T>(nodes: seq<Node<T>>, owner: seq<Option<K>>, nodes': seq<Node<T>>,
                        k: K, xs: seq<nat>, index: nat, item: T, l: K, ys: seq<nat>)
    requires |owner| == |nodes| && ChainOk(nodes, owner, k, xs) && ChainOk(nodes, owner, l, ys) && k != l
    requires index <= |nodes| && |nodes'| == (if index == |nodes| then |nodes| + 1 else |nodes|)
    requires index < |nodes| ==> owner[index] == None
    requires Pushed(nodes, nodes', xs, index, item)
    ensures ChainOk(nodes', OwnerAfterPush(owner, index, k), l, ys)
    ensures ItemsOf(nodes', ys) == ItemsOf(nodes, ys)
  {
    var owner' := OwnerAfterPush(owner, index, k);
    forall i | 0 <= i < |ys| ensures nodes'[ys[i]] == nodes[ys[i]] && owner'[ys[i]] == owner[ys[i]] {
      assert owner[ys[i]] == Some(l);
      if xs != [] { assert owner[xs[|xs| - 1]] == Some(k); }
    }
    ChainFrame(nodes, owner, nodes', owner', l, ys);
  }

  lemma PushFree<K, T>(nodes: seq<Node<T>>, owner: seq<Option<K>>, nodes': seq<Node<T>>, free: nat, freeChain: seq<nat>,
                       k: K, xs: seq<nat>, item: T)
    requires |owner| == |nodes| && ChainOk(nodes, owner, k, xs) && FreeOk(nodes, owner, free, freeChain)
    requires freeChain != [] && free < |nodes| == |nodes'| && Pushed(nodes, nodes', xs, free, item)
    ensures FreeOk(nodes', OwnerAfterPush(owner, free, k), nodes[free].next, freeChain[1..])
    ensures free !in freeChain[1..] && forall n :: n in freeChain <==> n == free || n in freeChain[1..]
  {
    var owner' := OwnerAfterPush(owner, free, k);
    forall i | 1 <= i < |freeChain|
      ensures nodes'[freeChain[i]].next == nodes[freeChain[i]].next && owner'[freeChain[i]] == owner[freeChain[i]]
    {
      assert owner[freeChain[i]] == None && freeChain[i] != freeChain[0];
      if xs != [] { assert owner[xs[|xs| - 1]] == Some(k); }
    }
    FreeTail(nodes, owner, nodes', owner', free, freeChain);
  }

  lemma PushAccounted<K, T>(nodes: seq<Node<T>>, owner: seq<Option<K>>, chains: map<K, seq<nat>>, freeChain: seq<nat>,
                            nodes': seq<Node<T>>, freeChain': seq<nat>, k: K, index: nat)
    requires |owner| == |nodes| && Accounted(nodes, owner, chains, freeChain) && k in chains
    requires index <= |nodes| && |nodes'| == (if index == |nodes| then |nodes| + 1 else |nodes|)
    requires forall n :: n in freeChain ==> n == index || n in freeChain'
    ensures Accounted(nodes', OwnerAfterPush(owner, index, k), chains[k := chains[k] + [index]], freeChain')
  {
  }

  /** Pushing: node `index`, off the free list or brand new, joins `k`'s chain. */
  lemma PushKeeps<K, T>(nodes: seq<Node<T>>, free: nat, owner: seq<Option<K>>, chains: map<K, seq<nat>>,
                        freeChain: seq<nat>,
                        nodes': seq<Node<T>>, free': nat, freeChain': seq<nat>, k: K, index: nat, item: T)
    requires SlabOk(nodes, free, owner, chains, freeChain) && k in chains
    requires if freeChain == [] then
               index == |nodes| == |nodes'| - 1 && |nodes'| <= NIL && free' == free && freeChain' == []
             else
               index == free < |nodes| == |nodes'| && free' == nodes[free].next && freeChain' == freeChain[1..]
    requires Pushed(nodes, nodes', chains[k], index, item)
    ensures |owner| == |nodes| && index <= |owner|
    ensures SlabOk(nodes', free', OwnerAfterPush(owner, index, k), chains[k := chains[k] + [index]], freeChain')
    ensures forall l :: l in chains ==> ChainHolds(nodes, chains[l])
    ensures forall l :: l in chains && l != k ==>
      ChainHolds(nodes', chains[l]) && ItemsOf(nodes', chains[l]) == ItemsOf(nodes, chains[l])
    ensures ChainHolds(nodes', chains[k] + [index])
    ensures ItemsOf(nodes', chains[k] + [index]) == ItemsOf(nodes, chains[k]) + [item]
  {
    hide Linked, At, Pushed, ItemsOf, Accounted, ChainOk, FreeOk, ChainHolds;
    var owner' := OwnerAfterPush(owner, index, k);
    if freeChain != [] {
      FreeHeadOwned(nodes, owner, free, freeChain);
      PushFree(nodes, owner, nodes', free, freeChain, k, chains[k], item);
    } else {
      FreeEmpty(nodes, owner, nodes', owner', free);
    }
    PushAccounted(nodes, owner, chains, freeChain, nodes', freeChain', k, index);
    PushChain(nodes, owner, nodes', k, chains[k], index, item);
    ChainIsHeld(nodes', owner', k, chains[k] + [index]);
    forall l | l in chains ensures ChainHolds(nodes, chains[l]) {
      ChainIsHeld(nodes, owner, l, chains[l]);
    }
    forall l | l in chains && l != k
      ensures ChainOk(nodes', owner', l, chains[l])
      ensures ChainHolds(nodes', chains[l]) && ItemsOf(nodes', chains[l]) == ItemsOf(nodes, chains[l])
    {
      PushOther(nodes, owner, nodes', k, chains[k], index, item, l, chains[l]);
      ChainIsHeld(nodes', owner', l, chains[l]);
    }
  }

  lemma NotInChainOrNew<K, T>(nodes: seq<Node<T>>, owner: seq<Option<K>>, k: K, xs: seq<nat>, index: nat)
    requires |owner| == |nodes| && ChainOk(nodes, owner, k, xs)
    requires index == |nodes| || (index < |nodes| && owner[index] == None)
    ensures index !in xs
  {
  }

  lemma FreeHeadOwned<K, T>(nodes: seq<Node<T>>, owner: seq<Option<K>>, free: nat, freeChain: seq<nat>)
    requires |owner| == |nodes| && FreeOk(nodes, owner, free, freeChain) && freeChain != []
    ensures free < |nodes| && owner[free] == None && free == freeChain[0]
  {
  }

  lemma FreeEmpty<K, T>(nodes: seq<Node<T>>, owner: seq<Option<K>>, nodes': seq<Node<T>>, owner': seq<Option<K>>,
                        free: nat)
    requires |owner| == |nodes| <= |nodes'| == |owner'| && FreeOk(nodes, owner, free, [])
    ensures FreeOk(nodes', owner', free, [])
  {
  }

  /** The range facts an operation's indexing rests on. */
  lemma SlabFacts<K, T>(nodes: seq<Node<T>>, free: nat, owner: seq<Option<K>>, chains: map<K, seq<nat>>,
                        freeChain: seq<nat>)
    requires SlabOk(nodes, free, owner, chains, freeChain)
    ensures |owner| == |nodes| <= NIL
    ensures free == NIL <==> freeChain == []
    ensures freeChain != [] ==> free < |nodes| && free == freeChain[0]
  {
  }

  /** A handle's ends are the ends of its chain, and its tail is not free. */
  lemma NamedChain<K, T>(nodes: seq<Node<T>>, free: nat, owner: seq<Option<K>>, chains: map<K, seq<nat>>,
                         freeChain: seq<nat>,
                         list: List, k: K)
    requires SlabOk(nodes, free, owner, chains, freeChain) && k in chains && Names(list, chains[k])
    ensures list.tail == NIL <==> chains[k] == []
    ensures list.head == NIL <==> chains[k] == []
    ensures chains[k] != [] ==>
      list.head == chains[k][0] < |nodes| && list.tail == chains[k][|chains[k]| - 1] < |nodes| && list.tail != free
  {
    var xs := chains[k];
    assert ChainOk(nodes, owner, k, xs);
    if xs != [] {
      assert owner[xs[|xs| - 1]] == Some(k);
      if free != NIL { FreeHeadOwned(nodes, owner, free, freeChain); }
    }
  }

  // ---- Popping ------------------------------------------------------------------------------

  lemma PopFree<K, T>(nodes: seq<Node<T>>, owner: seq<Option<K>>, free: nat, freeChain: seq<nat>, k: K, xs: seq<nat>)
    requires |owner| == |nodes| && ChainOk(nodes, owner, k, xs) && FreeOk(nodes, owner, free, freeChain)
    requires xs != [] && xs[0] < |nodes|
    ensures FreeOk(nodes[xs[0] := Node(None, free)], owner[xs[0] := None], xs[0], [xs[0]] + freeChain)
  {
    var head := xs[0];
    assert owner[head] == Some(k);
    NotFree(nodes, owner, free, freeChain, head);
    FreeCons(nodes, owner, nodes[head := Node(None, free)], owner[head := None], free, freeChain, head);
  }

  lemma PopChain<K, T>(nodes: seq<Node<T>>, owner: seq<Option<K>>, free: nat, k: K, xs: seq<nat>)
    requires |owner| == |nodes| && ChainOk(nodes, owner, k, xs)
    requires xs != [] && xs[0] < |nodes|
    ensures ChainOk(nodes[xs[0] := Node(None, free)], owner[xs[0] := None], k, xs[1..])
    ensures ItemsOf(nodes[xs[0] := Node(None, free)], xs[1..]) == ItemsOf(nodes, xs)[1..]
    ensures nodes[xs[0]].next == At(xs[1..], 0) && nodes[xs[0]].item == Some(ItemsOf(nodes, xs)[0])
    ensures At(xs[1..], |xs| - 2) == if |xs| == 1 then NIL else At(xs, |xs| - 1)
  {
  }

  lemma PopOther<K, T>(nodes: seq<Node<T>>, owner: seq<Option<K>>, free: nat, k: K, head: nat, l: K, ys: seq<nat>)
    requires |owner| == |nodes| && head < |nodes| && owner[head] == Some(k) && k != l && ChainOk(nodes, owner, l, ys)
    ensures ChainOk(nodes[head := Node(None, free)], owner[head := None], l, ys)
    ensures ItemsOf(nodes[head := Node(None, free)], ys) == ItemsOf(nodes, ys)
  {
  }

  lemma PopAccounted<K, T>(nodes: seq<Node<T>>, owner: seq<Option<K>>, chains: map<K, seq<nat>>, freeChain: seq<nat>,
                           nodes': seq<Node<T>>, k: K)
    requires |owner| == |nodes| == |nodes'| && Accounted(nodes, owner, chains, freeChain)
    requires k in chains && chains[k] != [] && chains[k][0] < |nodes|
    ensures Accounted(nodes', owner[chains[k][0] := None], chains[k := chains[k][1..]], [chains[k][0]] + freeChain)
  {
  }

  lemma ChainHead<K, T>(nodes: seq<Node<T>>, owner: seq<Option<K>>, k: K, xs: seq<nat>)
    requires |owner| == |nodes| && ChainOk(nodes, owner, k, xs) && xs != []
    ensures xs[0] < |nodes| && owner[xs[0]] == Some(k)
  {
  }

  /** Popping: the head of `k`'s chain becomes the head of the free list. */
  lemma PopKeeps<K, T>(nodes: seq<Node<T>>, free: nat, owner: seq<Option<K>>, chains: map<K, seq<nat>>,
                       freeChain: seq<nat>, k: K)
    requires SlabOk(nodes, free, owner, chains, freeChain) && k in chains && chains[k] != []
    ensures var xs := chains[k];
      && xs[0] < |nodes| == |owner|
      && SlabOk(nodes[xs[0] := Node(None, free)], xs[0], owner[xs[0] := None], chains[k := xs[1..]],
           [xs[0]] + freeChain)
      && (forall l :: l in chains ==> ChainHolds(nodes, chains[l]))
      && (forall l :: l in chains && l != k ==>
            && ChainHolds(nodes[xs[0] := Node(None, free)], chains[l])
            && ItemsOf(nodes[xs[0] := Node(None, free)], chains[l]) == ItemsOf(nodes, chains[l]))
      && ChainHolds(nodes[xs[0] := Node(None, free)], xs[1..])
      && ItemsOf(nodes[xs[0] := Node(None, free)], xs[1..]) == ItemsOf(nodes, xs)[1..]
      && nodes[xs[0]].item == Some(ItemsOf(nodes, xs)[0])
      && nodes[xs[0]].next == At(xs[1..], 0)
      && At(xs[1..], |xs| - 2) == if |xs| == 1 then NIL else At(xs, |xs| - 1)
  {
    hide Linked, At, ItemsOf, Accounted, ChainOk, FreeOk, ChainHolds;
    var xs := chains[k];
    ChainHead(nodes, owner, k, xs);
    PopFree(nodes, owner, free, freeChain, k, xs);
    PopChain(nodes, owner, free, k, xs);
    PopAccounted(nodes, owner, chains, freeChain, nodes[xs[0] := Node(None, free)], k);
    ChainIsHeld(nodes[xs[0] := Node(None, free)], owner[xs[0] := None], k, xs[1..]);
    forall l | l in chains ensures ChainHolds(nodes, chains[l]) {
      ChainIsHeld(nodes, owner, l, chains[l]);
    }
    forall l | l in chains && l != k
      ensures ChainOk(nodes[xs[0] := Node(None, free)], owner[xs[0] := None], l, chains[l])
      ensures ChainHolds(nodes[xs[0] := Node(None, free)], chains[l])
      ensures ItemsOf(nodes[xs[0] := Node(None, free)], chains[l]) == ItemsOf(nodes, chains[l])
    {
      PopOther(nodes, owner, free, k, xs[0], l, chains[l]);
      ChainIsHeld(nodes[xs[0] := Node(None, free)], owner[xs[0] := None], l, chains[l]);
    }
  }

  // ---- The slab's ghost account ----------------------------------------------------------------

  /** What the slab stands for: each owner's queue and the handle naming it,
      with the chains and the free list that realise them. */
  datatype Track<!K(==), T> = Track(
    queues: map<K, seq<T>>, lists: map<K, List>,
    owner: seq<Option<K>>, chains: map<K, seq<nat>>, freeChain: seq<nat>, live: nat)

  ghost predicate Good<K, T>(nodes: seq<Node<T>>, free: nat, t: Track<K, T>) {
    && SlabOk(nodes, free, t.owner, t.chains, t.freeChain)
    && Mirrors(nodes, t.chains, t.queues, t.lists)
    && t.live + |t.freeChain| == |nodes|
  }

  lemma GoodRanges<K, T>(nodes: seq<Node<T>>, free: nat, t: Track<K, T>, list: List, k: K)
    requires Good(nodes, free, t) && list == ListIn(t.lists, k)
    ensures |t.owner| == |nodes| <= NIL
    ensures free != NIL ==> free < |nodes|
    ensures free == NIL ==> t.live == |nodes|
    ensures list.tail != NIL ==> list.tail < |nodes| && list.tail != free
    ensures list.len == |QueueIn(t.queues, k)|
    ensures if QueueIn(t.queues, k) == [] then list == EMPTY_LIST
            else k in t.chains && list.head < |nodes| && nodes[list.head].item == Some(QueueIn(t.queues, k)[0])
  {
    SlabFacts(nodes, free, t.owner, t.chains, t.freeChain);
    if k in t.chains {
      NamedChain(nodes, free, t.owner, t.chains, t.freeChain, list, k);
      assert ItemsOf(nodes, t.chains[k]) == t.queues[k];
    }
  }

  ghost function Enlisted<K, T>(t: Track<K, T>, k: K): Track<K, T> {
    if k in t.chains then t
    else t.(chains := t.chains[k := []], queues := t.queues[k := []], lists := t.lists[k := EMPTY_LIST])
  }

  lemma EnlistKeeps<K, T>(nodes: seq<Node<T>>, free: nat, t: Track<K, T>, k: K)
    requires Good(nodes, free, t)
    ensures Good(nodes, free, Enlisted(t, k)) && k in Enlisted(t, k).chains
    ensures ListIn(Enlisted(t, k).lists, k) == ListIn(t.lists, k)
  {
    hide Linked, ItemsOf, ChainOk, ChainHolds, Accounted, FreeOk;
    if k !in t.chains {
      EnlistAccounted(nodes, t.owner, t.chains, t.freeChain, k);
      EmptyChainOk(nodes, t.owner, k);
    }
  }

  lemma EmptyChainOk<K, T>(nodes: seq<Node<T>>, owner: seq<Option<K>>, k: K)
    requires |owner| == |nodes|
    ensures ChainOk(nodes, owner, k, []) && ChainHolds(nodes, []) && ItemsOf(nodes, []) == []
  {
  }

  lemma EnlistAccounted<K, T>(nodes: seq<Node<T>>, owner: seq<Option<K>>, chains: map<K, seq<nat>>,
                              freeChain: seq<nat>, k: K)
    requires |owner| == |nodes| && Accounted(nodes, owner, chains, freeChain) && k !in chains
    ensures Accounted(nodes, owner, chains[k := []], freeChain)
  {
  }

  ghost function PushTrack<K, T>(t: Track<K, T>, k: K, item: T, index: nat, list': List): Track<K, T>
    requires k in t.chains && k in t.queues && index <= |t.owner|
  {
    Track(t.queues[k := t.queues[k] + [item]], t.lists[k := list'],
          OwnerAfterPush(t.owner, index, k), t.chains[k := t.chains[k] + [index]],
          if t.freeChain == [] then [] else t.freeChain[1..], t.live + 1)
  }

  /** The whole effect of a push on the arena. */
  ghost predicate PushedNodes<T>(nodes: seq<Node<T>>, free: nat, nodes': seq<Node<T>>, free': nat,
                                 list: List, list': List, index: nat, item: T) {
    && (if free == NIL then index == |nodes| && free' == NIL && |nodes'| == |nodes| + 1
        else index == free < |nodes| == |nodes'| && free' == nodes[free].next)
    && nodes'[index] == Node(Some(item), NIL)
    && (list.tail != NIL ==>
         list.tail < |nodes| && list.tail != index && nodes'[list.tail] == nodes[list.tail].(next := index))
    && (forall n :: 0 <= n < |nodes| && n != index && n != list.tail ==> nodes'[n] == nodes[n])
    && list' == List(if list.tail == NIL then index else list.head, index, list.len + 1)
  }

  lemma LinkedIn<T>(nodes: seq<Node<T>>, free: nat, alloced: seq<Node<T>>, free': nat, list: List, index: nat, item: T)
    requires if free == NIL then index == |nodes| && free' == NIL && alloced == nodes + [Node(Some(item), NIL)]
             else
               && index == free < |nodes| && free' == nodes[free].next
               && alloced == nodes[free := Node(Some(item), NIL)]
    requires list.tail != NIL ==> list.tail < |nodes| && list.tail != free
    ensures var nodes' :=
        if list.tail == NIL then alloced else alloced[list.tail := alloced[list.tail].(next := index)];
      var list' := List(if list.tail == NIL then index else list.head, index, list.len + 1);
      PushedNodes(nodes, free, nodes', free', list, list', index, item)
  {
  }

  lemma PushGood<K, T>(nodes: seq<Node<T>>, free: nat, t: Track<K, T>, nodes': seq<Node<T>>, free': nat,
                       list: List, list': List, index: nat, item: T, k: K)
    requires Good(nodes, free, t) && k in t.chains && list == ListIn(t.lists, k) && |nodes'| <= NIL
    requires PushedNodes(nodes, free, nodes', free', list, list', index, item)
    ensures k in t.queues && index <= |t.owner| && t.live + 1 <= |nodes'|
    ensures Good(nodes', free', PushTrack(t, k, item, index, list'))
  {
    hide Linked, FreeOk, Accounted, ChainOk, ItemsOf, ChainHolds;
    SlabFacts(nodes, free, t.owner, t.chains, t.freeChain);
    NamedChain(nodes, free, t.owner, t.chains, t.freeChain, list, k);
    PushKeeps(nodes, free, t.owner, t.chains, t.freeChain, nodes', free',
              if t.freeChain == [] then [] else t.freeChain[1..], k, index, item);
  }

  /** A push on any owner's queue, listed before or not. */
  ghost function AfterPush<K, T>(t: Track<K, T>, k: K, item: T, index: nat, list': List): Track<K, T>
    requires index <= |t.owner| && t.queues.Keys == t.chains.Keys
  {
    PushTrack(Enlisted(t, k), k, item, index, list')
  }

  lemma PushWhole<K, T>(nodes: seq<Node<T>>, free: nat, t: Track<K, T>, nodes': seq<Node<T>>, free': nat,
                        list: List, list': List, index: nat, item: T, k: K)
    requires Good(nodes, free, t) && list == ListIn(t.lists, k) && |nodes'| <= NIL
    requires PushedNodes(nodes, free, nodes', free', list, list', index, item)
    ensures index <= |t.owner| && t.live + 1 <= |nodes'|
    ensures t.queues.Keys == t.chains.Keys
    ensures var t' := AfterPush(t, k, item, index, list');
      && Good(nodes', free', t')
      && t'.queues == t.queues[k := QueueIn(t.queues, k) + [item]]
      && t'.lists == t.lists[k := list']
      && t'.live == t.live + 1
  {
    hide Good, PushedNodes;
    EnlistKeeps(nodes, free, t, k);
    GoodKeys(nodes, free, t);
    PushGood(nodes, free, Enlisted(t, k), nodes', free', list, list', index, item, k);
  }

  lemma GoodKeys<K, T>(nodes: seq<Node<T>>, free: nat, t: Track<K, T>)
    requires Good(nodes, free, t)
    ensures t.queues.Keys == t.chains.Keys == t.lists.Keys && |t.owner| == |nodes|
  {
  }

  ghost function PopTrack<K, T>(t: Track<K, T>, k: K, index: nat, list': List): Track<K, T>
    requires k in t.chains && t.chains[k] != [] && k in t.queues && t.queues[k] != [] && index < |t.owner| && t.live > 0
  {
    Track(t.queues[k := t.queues[k][1..]], t.lists[k := list'], t.owner[index := None],
          t.chains[k := t.chains[k][1..]], [index] + t.freeChain, t.live - 1)
  }

  lemma PopGood<K, T>(nodes: seq<Node<T>>, free: nat, t: Track<K, T>, list: List, k: K)
    requires Good(nodes, free, t) && list == ListIn(t.lists, k) && QueueIn(t.queues, k) != []
    ensures k in t.chains && t.chains[k] != [] && k in t.queues && list.head < |nodes| == |t.owner| && t.live > 0
    ensures var next := nodes[list.head].next;
      Good(nodes[list.head := Node(None, free)], list.head,
           PopTrack(t, k, list.head, List(next, if next == NIL then NIL else list.tail, list.len - 1)))
  {
    hide Linked, FreeOk, Accounted, ChainOk, ItemsOf, ChainHolds;
    SlabFacts(nodes, free, t.owner, t.chains, t.freeChain);
    assert t.chains[k] != [] by { ItemsLength(nodes, t.chains[k]); }
    NamedChain(nodes, free, t.owner, t.chains, t.freeChain, list, k);
    PopKeeps(nodes, free, t.owner, t.chains, t.freeChain, k);
    ChainHead(nodes, t.owner, k, t.chains[k]);
    FreeIsPartial(nodes, t.owner, free, t.freeChain, list.head);
    NextIsNil(nodes, t.owner, k, t.chains[k]);
  }

  lemma ItemsLength<T>(nodes: seq<Node<T>>, xs: seq<nat>)
    requires ChainHolds(nodes, xs)
    ensures |ItemsOf(nodes, xs)| == |xs|
  {
  }

  lemma NextIsNil<K, T>(nodes: seq<Node<T>>, owner: seq<Option<K>>, k: K, xs: seq<nat>)
    requires |owner| == |nodes| <= NIL && ChainOk(nodes, owner, k, xs) && xs != [] && xs[0] < |nodes|
    ensures nodes[xs[0]].next == NIL <==> |xs| == 1
  {
  }

  /** With a node in use, the free list is shorter than the arena. */
  lemma FreeIsPartial<K, T>(nodes: seq<Node<T>>, owner: seq<Option<K>>, free: nat, xs: seq<nat>, used: nat)
    requires |owner| == |nodes| && FreeOk(nodes, owner, free, xs) && used < |nodes| && owner[used] != None
    ensures |xs| < |nodes|
  {
    NotFree(nodes, owner, free, xs, used);
    assert forall i :: 0 <= i < |xs| ==> xs[i] < |nodes|;
    DistinctFit(xs, Upto(|nodes|) - {used});
  }

  ghost function Upto(n: nat): (s: set<nat>)
    ensures |s| == n && forall i :: i in s <==> 0 <= i < n
  {
    if n == 0 then {} else Upto(n - 1) + {n - 1}
  }

  lemma {:induction false} DistinctFit(xs: seq<nat>, s: set<nat>)
    requires forall i, j :: 0 <= i < j < |xs| ==> xs[i] != xs[j]
    requires forall i :: 0 <= i < |xs| ==> xs[i] in s
    ensures |xs| <= |s|
  {
    if xs != [] {
      DistinctFit(xs[1..], s - {xs[0]});
    }
  }

  // ---- The slab ----------------------------------------------------------------------------

  /** The slab refines independent queues: `track.queues` gives each owner's items
      in order and `track.lists` the handle that owner must hold. */
  class Slab<K(==), T> {
    var nodes: seq<Node<T>>
    var free: nat

    ghost var track: Track<K, T>
    ghost var peak: nat

    ghost predicate Valid()
      reads this
    {
      Good(nodes, free, track) && track.live <= peak == |nodes|
    }

    constructor ()
      ensures Valid() && track.queues == map[] && track.lists == map[] && track.live == 0 && peak == 0
    {
      nodes, free := [], NIL;
      track, peak := Track(map[], map[], [], map[], [], 0), 0;
    }

    /** The high-water mark of simultaneously queued items. */
    function Capacity(): (n: nat)
      reads this
      requires Valid()
      ensures n == peak >= track.live
    {
      |nodes|
    }

    method Alloc(item: T) returns (index: nat)
      requires free != NIL ==> free < |nodes|
      modifies `nodes, `free
      ensures old(free) != NIL ==>
        index == old(free) && free == old(nodes)[index].next && nodes == old(nodes)[index := Node(Some(item), NIL)]
      ensures old(free) == NIL ==>
        index == |old(nodes)| && free == NIL && nodes == old(nodes) + [Node(Some(item), NIL)]
    {
      index := free;
      if index != NIL {
        var next := nodes[index].next;
        nodes := nodes[index := Node(Some(item), NIL)];
        free := next;
        return;
      }
      index := |nodes|;
      nodes := nodes + [Node(Some(item), NIL)];
    }

    /** Append to one owner's queue. The arena grows only when every node it has
        is live, and it must not outgrow its 32-bit links. */
    method PushBack(list: List, item: T, ghost k: K) returns (list': List)
      requires Valid() && list == ListIn(track.lists, k) && track.live < NIL
      modifies this
      ensures Valid()
      ensures track.queues == old(track.queues)[k := old(QueueIn(track.queues, k)) + [item]]
      ensures track.lists == old(track.lists)[k := list'] && list'.len == list.len + 1
      ensures track.live == old(track.live) + 1 && peak == if old(peak) > track.live then old(peak) else track.live
    {
      hide Good, PushedNodes, AfterPush, QueueIn, ListIn;
      GoodRanges(nodes, free, track, list, k);
      ghost var nodes0, free0 := nodes, free;
      var index := Alloc(item);
      LinkedIn(nodes0, free0, nodes, free, list, index, item);
      if list.tail == NIL {
        list' := List(index, index, list.len + 1);
      } else {
        nodes := nodes[list.tail := nodes[list.tail].(next := index)];
        list' := List(list.head, index, list.len + 1);
      }
      PushWhole(nodes0, free0, track, nodes, free, list, list', index, item, k);
      track := AfterPush(track, k, item, index, list');
      peak := if peak > track.live then peak else track.live;
    }

    method PopFront(list: List, ghost k: K) returns (list': List, item: Option<T>)
      requires Valid() && list == ListIn(track.lists, k)
      modifies this
      ensures Valid() && peak == old(peak)
      ensures old(QueueIn(track.queues, k)) == [] ==> item == None && list' == list && track == old(track)
      ensures old(QueueIn(track.queues, k)) != [] ==>
        && item == Some(old(QueueIn(track.queues, k))[0])
        && track.queues == old(track.queues)[k := old(QueueIn(track.queues, k))[1..]]
        && track.lists == old(track.lists)[k := list'] && list'.len == list.len - 1
        && track.live == old(track.live) - 1
    {
      hide Good;
      GoodRanges(nodes, free, track, list, k);
      if list.head == NIL {
        list', item := list, None;
        return;
      }
      PopGood(nodes, free, track, list, k);
      var index := list.head;
      item := nodes[index].item;
      var next := nodes[index].next;
      nodes := nodes[index := Node(None, free)];
      free := index;
      list' := List(next, if next == NIL then NIL else list.tail, list.len - 1);
      track := PopTrack(track, k, index, list');
    }

    method Front(list: List, ghost k: K) returns (item: Option<T>)
      requires Valid() && list == ListIn(track.lists, k)
      ensures item == if QueueIn(track.queues, k) == [] then None else Some(QueueIn(track.queues, k)[0])
    {
      GoodRanges(nodes, free, track, list, k);
      if list.head == NIL {
        item := None;
      } else {
        item := nodes[list.head].item;
      }
    }
  }
}
