/** The bounded edit histories of the front ends: snapshots of the override
    map, at most MaxHistory of them, the oldest dropped first. Two orders of
    eviction and an optional duplicate check appear in the source. */
module History {
  import opened Geometry

  /** AppConfig.MAX_HISTORY_SIZE, and the literal 20 of the other front ends. */
  const MaxHistory: nat := 20

  /** src/app.py: drop the oldest entry when the list is already full, then
      append. */
  function EvictThenAppend<T>(h: seq<T>, s: T): seq<T>
  {
    if |h| >= MaxHistory then h[1..] + [s] else h + [s]
  }

  /** The other front ends (and the redo stack of src/app.py): append, then
      drop the oldest entry when the list has grown past the limit. */
  function AppendThenEvict<T>(h: seq<T>, s: T): (r: seq<T>)
    ensures |h| + 1 > MaxHistory ==> r == h[1..] + [s]
    ensures |h| + 1 <= MaxHistory ==> r == h + [s]
  {
    var g := h + [s];
    if |g| > MaxHistory then
      assert g[1..] == h[1..] + [s];
      g[1..]
    else g
  }

  /** Both orders keep a bounded list bounded, put the new entry on top and
      keep the newest entries of the old list in order. */
  lemma AppendThenEvictBounded<T>(h: seq<T>, s: T)
    requires |h| <= MaxHistory
    ensures var r := AppendThenEvict(h, s);
      |r| <= MaxHistory && |r| >= 1 && r[|r| - 1] == s &&
      r[..|r| - 1] == h[|h| + 1 - |r|..]
  {
  }

  lemma EvictThenAppendBounded<T>(h: seq<T>, s: T)
    requires |h| <= MaxHistory
    ensures var r := EvictThenAppend(h, s);
      |r| <= MaxHistory && |r| >= 1 && r[|r| - 1] == s &&
      r[..|r| - 1] == h[|h| + 1 - |r|..]
  {
  }

  /** The two orders always give the same list: whenever the old list has
      MaxHistory or more entries both drop exactly its first entry. */
  lemma EvictionOrdersAgree<T>(h: seq<T>, s: T)
    ensures EvictThenAppend(h, s) == AppendThenEvict(h, s)
  {
  }

  /** True when the list's top entry is s. */
  predicate TopIs<T(==)>(h: seq<T>, s: T)
  {
    h != [] && h[|h| - 1] == s
  }

  /** save_to_history of src/app_final.py and src/app_interactive.py: skip a
      copy equal to the top, otherwise append then evict. */
  function Deduped<T(==)>(h: seq<T>, s: T): (r: seq<T>)
    ensures TopIs(h, s) ==> r == h
    ensures !TopIs(h, s) ==> r == AppendThenEvict(h, s)
  {
    if TopIs(h, s) then h else AppendThenEvict(h, s)
  }

  /** Saving twice in a row is the same as saving once. */
  lemma DedupedIdempotent<T>(h: seq<T>, s: T)
    requires |h| <= MaxHistory
    ensures Deduped(Deduped(h, s), s) == Deduped(h, s)
    ensures TopIs(Deduped(h, s), s)
  {
    AppendThenEvictBounded(h, s);
  }

  /** After a deduplicating save no two neighbouring entries are equal,
      provided that was so before. */
  predicate NoAdjacentDuplicates<T(==)>(h: seq<T>)
  {
    forall i :: 0 < i < |h| ==> h[i - 1] != h[i]
  }

  lemma DedupedKeepsNeighboursDistinct<T>(h: seq<T>, s: T)
    requires |h| <= MaxHistory && NoAdjacentDuplicates(h)
    ensures NoAdjacentDuplicates(Deduped(h, s))
  {
    if !TopIs(h, s) {
      var r := AppendThenEvict(h, s);
      var g := h + [s];
      assert NoAdjacentDuplicates(g) by {
        forall i | 0 < i < |g|
          ensures g[i - 1] != g[i]
        {
          if i < |h| {
            assert g[i - 1] == h[i - 1] && g[i] == h[i];
          }
        }
      }
      if |g| > MaxHistory {
        assert r == g[1..];
        forall i | 0 < i < |r|
          ensures r[i - 1] != r[i]
        {
          assert r[i - 1] == g[i] && r[i] == g[i + 1];
        }
      }
    }
  }

  /** list.pop(): the list without its top, and the top. */
  function Pop<T>(h: seq<T>): (r: (seq<T>, T))
    requires h != []
    ensures r.0 + [r.1] == h
  {
    (h[..|h| - 1], h[|h| - 1])
  }

  /** A save followed by a pop gives back the list and the saved entry when
      nothing was evicted. */
  lemma SaveThenPop<T>(h: seq<T>, s: T)
    requires |h| < MaxHistory
    ensures Pop(AppendThenEvict(h, s)) == (h, s)
    ensures Pop(EvictThenAppend(h, s)) == (h, s)
  {
    assert (h + [s])[..|h|] == h;
  }

  /** Whatever was evicted, popping right after a save hands back the saved
      entry and leaves at most MaxHistory - 1 entries. */
  lemma PopAfterSave<T>(h: seq<T>, s: T)
    requires |h| <= MaxHistory
    ensures Pop(AppendThenEvict(h, s)).1 == s
    ensures |Pop(AppendThenEvict(h, s)).0| < MaxHistory
    ensures |h| < MaxHistory ==> Pop(AppendThenEvict(h, s)).0 == h
  {
    AppendThenEvictBounded(h, s);
    if |h| < MaxHistory {
      SaveThenPop(h, s);
    }
  }
}
