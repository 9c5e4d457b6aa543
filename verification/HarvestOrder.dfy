/** The order a harvest visits slots in: distances round the set from the cursor,
    and the ranks of words and summary words that the scan goes through. */
module HarvestOrder {
  import opened Bits
  import opened ReadyBits

  /** How far slot `i` is ahead of `start`, going round a set of `capacity`. */
  function Dist(start: nat, i: nat, capacity: nat): (d: nat)
    requires start < capacity && i < capacity
    ensures d < capacity && (d == 0 <==> i == start)
    ensures Wrap(start + d, capacity) == i
  {
    if i >= start then i - start else i + capacity - start
  }

  function Wrap(x: nat, n: nat): nat {
    if x >= n then x - n else x
  }

  lemma WrapMod(x: nat, n: nat)
    requires x < 2 * n
    ensures x % n == Wrap(x, n)
  {
  }

  /** Distances from a cursor that has moved `k` on are shorter by `k`. */
  lemma DistMoves(start: nat, k: nat, i: nat, capacity: nat)
    requires start < capacity && i < capacity && k <= Dist(start, i, capacity)
    ensures Wrap(start + k, capacity) < capacity
    ensures Dist(Wrap(start + k, capacity), i, capacity) == Dist(start, i, capacity) - k
  {
  }

  /** Where word `w` comes in the scan: `start`'s own word is split, its high part
      first (rank 0) and its low part last (rank `n`). */
  function Rank(start: nat, w: nat, n: nat): (r: nat)
    requires WordOf(start) < n && w < n
    ensures w != WordOf(start) ==> 0 < r < n
  {
    if w > WordOf(start) then w - WordOf(start) else w + n - WordOf(start)
  }

  function SlotRank(start: nat, i: nat, n: nat): (r: nat)
    requires WordOf(start) < n && WordOf(i) < n
    ensures r <= n
  {
    if WordOf(i) != WordOf(start) then Rank(start, WordOf(i), n) else if i >= start then 0 else n
  }

  lemma RankOrdersSlots(start: nat, i: nat, j: nat, capacity: nat)
    requires start < capacity && i < capacity && j < capacity
    ensures WordOf(start) < WordsFor(capacity) && WordOf(i) < WordsFor(capacity) && WordOf(j) < WordsFor(capacity)
    ensures SlotRank(start, i, WordsFor(capacity)) < SlotRank(start, j, WordsFor(capacity)) ==>
              Dist(start, i, capacity) < Dist(start, j, capacity)
    ensures SlotRank(start, i, WordsFor(capacity)) == SlotRank(start, j, WordsFor(capacity)) && i < j ==>
              Dist(start, i, capacity) < Dist(start, j, capacity)
  {
  }

  /** How many summary words after `start`'s own summary word `x` comes. */
  function SummaryRank(start: nat, x: nat, summaries: nat): (r: nat)
    requires WordOf(WordOf(start)) < summaries && x < summaries
    ensures r < summaries && Wrap(WordOf(WordOf(start)) + r, summaries) == x
  {
    var own := WordOf(WordOf(start));
    if x >= own then x - own else x + summaries - own
  }

  /** A word the scan reaches only after the first `step` + 1 summary words. */
  predicate Later(start: nat, w: nat, n: nat, step: int)
    requires n > 1 && WordOf(start) < n && w < n
  {
    && w != WordOf(start)
    && (SummaryRank(start, WordOf(w), SummariesFor(n)) > step
        || (WordOf(w) == WordOf(WordOf(start)) && w < WordOf(start)))
  }

  lemma LaterRanksHigher(start: nat, w: nat, v: nat, n: nat, step: nat)
    requires n > 1 && WordOf(start) < n && w < n && v < n && w != WordOf(start)
    requires SummaryRank(start, WordOf(w), SummariesFor(n)) <= step
    requires WordOf(w) == WordOf(WordOf(start)) ==> w > WordOf(start)
    requires Later(start, v, n, step)
    ensures Rank(start, w, n) < Rank(start, v, n)
  {
  }

  lemma SameSummaryRanks(start: nat, w: nat, v: nat, n: nat)
    requires WordOf(start) < n && w < v < n && w != WordOf(start) && v != WordOf(start)
    requires WordOf(w) == WordOf(v)
    requires WordOf(w) == WordOf(WordOf(start)) ==> (w > WordOf(start) <==> v > WordOf(start))
    ensures Rank(start, w, n) < Rank(start, v, n)
  {
  }
}
