/**
 Log compaction: `KVSnapshot::create` turns a piece of the log into a delta, `merge` lays a
 delta over a map. The code records a deleted key only when the delta itself does not hold
 the key at that moment, so a Put followed by a Delete inside one delta leaves no trace.
 */
module Compaction {
  import opened Wrappers
  import opened Commands

  datatype Delta = Delta(snapshotted: Table, deletedKeys: seq<string>)

  /** The keys pushed by the scan: deleted while the delta so far did not hold them. */
  function Pushed(entries: seq<KVCommand>): seq<string> {
    if entries == [] then []
    else
      var init, last := entries[..|entries| - 1], entries[|entries| - 1];
      if last.Delete? && last.key !in ApplyAll(map[], init) then Pushed(init) + [last.key] else Pushed(init)
  }

  function Retain(keys: seq<string>, held: Table): (r: seq<string>)
    ensures forall k :: k in r <==> k in keys && k !in held
  {
    if keys == [] then []
    else
      var init, last := keys[..|keys| - 1], keys[|keys| - 1];
      if last in held then Retain(init, held) else Retain(init, held) + [last]
  }

  function Created(entries: seq<KVCommand>): Delta {
    var held := ApplyAll(map[], entries);
    Delta(held, Retain(Pushed(entries), held))
  }

  function Merged(base: Table, delta: Delta): Table {
    (base + delta.snapshotted) - (set k | k in delta.deletedKeys)
  }

  class KVSnapshot {
    var snapshotted: Table
    var deletedKeys: seq<string>

    function Value(): Delta
      reads this
    {
      Delta(snapshotted, deletedKeys)
    }

    constructor Of(snapshotted: Table, deletedKeys: seq<string>)
      ensures Value() == Delta(snapshotted, deletedKeys)
    {
      this.snapshotted, this.deletedKeys := snapshotted, deletedKeys;
    }

    static method Create(entries: seq<Command>) returns (s: KVSnapshot)
      ensures fresh(s) && s.Value() == Created(Kvs(entries))
    {
      var snapshotted: Table, deletedKeys: seq<string> := map[], [];
      ghost var kvs := Kvs(entries);
      for n := 0 to |entries|
        invariant snapshotted == ApplyAll(map[], kvs[..n])
        invariant deletedKeys == Pushed(kvs[..n])
      {
        assert kvs[..n + 1][..n] == kvs[..n];
        match entries[n].kv
        case Put(key, value) =>
          snapshotted := snapshotted[key := value];
        case Delete(key) =>
          if key !in snapshotted {
            deletedKeys := deletedKeys + [key];
          }
          snapshotted := snapshotted - {key};
        case Get(_) =>
      }
      assert kvs[..|entries|] == kvs;
      var kept: seq<string> := [];
      for n := 0 to |deletedKeys|
        invariant kept == Retain(deletedKeys[..n], snapshotted)
      {
        assert deletedKeys[..n + 1][..n] == deletedKeys[..n];
        if deletedKeys[n] !in snapshotted {
          kept := kept + [deletedKeys[n]];
        }
      }
      assert deletedKeys[..|deletedKeys|] == deletedKeys;
      s := new KVSnapshot.Of(snapshotted, kept);
    }

    /** The hash map is walked in an arbitrary order; the result does not depend on it. */
    method Merge(delta: KVSnapshot)
      requires delta != this
      modifies this
      ensures snapshotted == Merged(old(snapshotted), delta.Value())
      ensures deletedKeys == []
    {
      ghost var base := snapshotted;
      var rest := delta.snapshotted.Keys;
      while rest != {}
        invariant rest <= delta.snapshotted.Keys
        invariant snapshotted == base + (map k | k in delta.snapshotted.Keys - rest :: delta.snapshotted[k])
        invariant deletedKeys == old(deletedKeys)
        decreases rest
      {
        var k :| k in rest;
        snapshotted := snapshotted[k := delta.snapshotted[k]];
        rest := rest - {k};
      }
      assert snapshotted == base + delta.snapshotted;
      for n := 0 to |delta.deletedKeys|
        invariant snapshotted == (base + delta.snapshotted) - (set k | k in delta.deletedKeys[..n])
        invariant deletedKeys == old(deletedKeys)
      {
        snapshotted := snapshotted - {delta.deletedKeys[n]};
      }
      assert delta.deletedKeys[..|delta.deletedKeys|] == delta.deletedKeys;
      deletedKeys := [];
    }
  }

  // ----- What a delta means -----

  /** The writes of one key, in log order. */
  function WritesOf(entries: seq<KVCommand>, k: string): (w: seq<KVCommand>)
    ensures forall i :: 0 <= i < |w| ==> Writes(w[i], k)
  {
    if entries == [] then []
    else
      var init, last := entries[..|entries| - 1], entries[|entries| - 1];
      if Writes(last, k) then WritesOf(init, k) + [last] else WritesOf(init, k)
  }

  predicate AdjacentDeletes(w: seq<KVCommand>) {
    exists i :: 0 <= i < |w| - 1 && w[i].Delete? && w[i + 1].Delete?
  }

  predicate EndsWithPut(w: seq<KVCommand>) {
    w != [] && w[|w| - 1].Put?
  }

  predicate EndsWithDelete(w: seq<KVCommand>) {
    w != [] && w[|w| - 1].Delete?
  }

  /** The writes of a key whose net effect, a deletion, `create` forgets. */
  predicate Lossy(w: seq<KVCommand>) {
    EndsWithDelete(w) && w[0].Put? && !AdjacentDeletes(w)
  }

  lemma {:induction false} LastWriteOf(before: Option<string>, entries: seq<KVCommand>, k: string)
    ensures LastWrite(before, entries, k) ==
            var w := WritesOf(entries, k);
            if w == [] then before else Written(w[|w| - 1])
  {
    if entries != [] {
      LastWriteOf(before, entries[..|entries| - 1], k);
    }
  }

  lemma {:induction false} PushedMeaning(entries: seq<KVCommand>, k: string)
    ensures k in Pushed(entries) <==>
            var w := WritesOf(entries, k);
            w != [] && (w[0].Delete? || AdjacentDeletes(w))
  {
    if entries != [] {
      var init, last := entries[..|entries| - 1], entries[|entries| - 1];
      PushedMeaning(init, k);
      if Writes(last, k) {
        ApplyAllLookup(map[], init, k);
        LastWriteOf(None, init, k);
        AdjacentDeletesSnoc(WritesOf(init, k), last);
      }
    }
  }

  lemma AdjacentDeletesSnoc(w: seq<KVCommand>, last: KVCommand)
    ensures AdjacentDeletes(w + [last]) <==> AdjacentDeletes(w) || (EndsWithDelete(w) && last.Delete?)
  {
    var all := w + [last];
    if AdjacentDeletes(w) {
      var i :| 0 <= i < |w| - 1 && w[i].Delete? && w[i + 1].Delete?;
      assert all[i].Delete? && all[i + 1].Delete?;
    }
    if EndsWithDelete(w) && last.Delete? {
      assert all[|w| - 1].Delete? && all[|w| - 1 + 1].Delete?;
    }
    if AdjacentDeletes(all) {
      var i :| 0 <= i < |all| - 1 && all[i].Delete? && all[i + 1].Delete?;
      if i + 1 < |w| {
        assert w[i].Delete? && w[i + 1].Delete?;
      }
    }
  }

  /**
   The exact meaning of a delta, key by key: the held part is the log piece applied to the
   empty map; a key is recorded as deleted exactly when its last write deletes it and either
   its first write or two writes in a row were Deletes; so the two parts never overlap.
   */
  lemma DeltaMeaning(entries: seq<KVCommand>, k: string)
    ensures var d, w := Created(entries), WritesOf(entries, k);
            && Lookup(d.snapshotted, k) == (if EndsWithPut(w) then Written(w[|w| - 1]) else None)
            && (k in d.deletedKeys <==> EndsWithDelete(w) && (w[0].Delete? || AdjacentDeletes(w)))
            && !(k in d.snapshotted && k in d.deletedKeys)
  {
    ApplyAllLookup(map[], entries, k);
    LastWriteOf(None, entries, k);
    PushedMeaning(entries, k);
  }

  /** What `merge` does to one key: nothing at all when the delta is silent or lossy for it. */
  lemma MergedLookup(base: Table, entries: seq<KVCommand>, k: string)
    ensures Lookup(Merged(base, Created(entries)), k) ==
            var w := WritesOf(entries, k);
            if w == [] || Lossy(w) then Lookup(base, k) else Written(w[|w| - 1])
  {
    DeltaMeaning(entries, k);
  }

  /**
   Merging a delta agrees with applying its commands one by one exactly when no key of the
   base has lossy writes in it: beginning with Put, ending with Delete, no two Deletes in a row.
   */
  lemma MergeExactIff(base: Table, entries: seq<KVCommand>)
    ensures Merged(base, Created(entries)) == ApplyAll(base, entries) <==>
            forall k :: k in base ==> !Lossy(WritesOf(entries, k))
  {
    var merged, applied := Merged(base, Created(entries)), ApplyAll(base, entries);
    forall k
      ensures Lookup(merged, k) == Lookup(applied, k) <==> !(k in base && Lossy(WritesOf(entries, k)))
    {
      MergedLookup(base, entries, k);
      ApplyAllLookup(base, entries, k);
      LastWriteOf(Lookup(base, k), entries, k);
    }
    if forall k :: k in base ==> !Lossy(WritesOf(entries, k)) {
      TablesEqual(merged, applied);
    }
  }

  /** The smallest failure: a key survives its own deletion. */
  lemma PutDeleteResurrects()
    ensures var base, entries := map["k" := "old"], [Put("k", "new"), Delete("k")];
            Merged(base, Created(entries)) == base && ApplyAll(base, entries) == map[]
  {
    var base: Table, p, d := map["k" := "old"], Put("k", "new"), Delete("k");
    var entries := [p, d];
    assert entries[..1] == [p] && [p][..0] == [];
    assert ApplyAll(base, [p]) == base["k" := "new"];
    assert ApplyAll(map[], [p]) == map["k" := "new"];
    assert Pushed([p]) == [];
  }

  // ----- Many deltas -----

  function Flatten(chunks: seq<seq<KVCommand>>): seq<KVCommand> {
    if chunks == [] then [] else Flatten(chunks[..|chunks| - 1]) + chunks[|chunks| - 1]
  }

  /** Left-to-right compaction of a log cut into chunks. */
  function CompactAll(chunks: seq<seq<KVCommand>>): Table {
    if chunks == [] then map[] else Merged(CompactAll(chunks[..|chunks| - 1]), Created(chunks[|chunks| - 1]))
  }

  /** A Put of `k` that ends chunk `i` and that no later chunk overwrites in the compacted map. */
  predicate Survives(chunks: seq<seq<KVCommand>>, k: string, i: int) {
    && 0 <= i < |chunks|
    && EndsWithPut(WritesOf(chunks[i], k))
    && forall m :: i < m < |chunks| ==> WritesOf(chunks[m], k) == [] || Lossy(WritesOf(chunks[m], k))
  }

  predicate LosesDelete(chunks: seq<seq<KVCommand>>, k: string) {
    exists i, j :: 0 <= i < j < |chunks| && Survives(chunks, k, i) && Lossy(WritesOf(chunks[j], k))
  }

  lemma SurvivesSnoc(init: seq<seq<KVCommand>>, last: seq<KVCommand>, k: string, i: int)
    ensures Survives(init + [last], k, i) <==>
            var w := WritesOf(last, k);
            if i == |init| then EndsWithPut(w) else Survives(init, k, i) && (w == [] || Lossy(w))
  {
    var all := init + [last];
    if i != |init| && Survives(all, k, i) {
      assert all[|init|] == last;
      forall m | i < m < |init| ensures WritesOf(init[m], k) == [] || Lossy(WritesOf(init[m], k)) {
        assert all[m] == init[m];
      }
    }
  }

  lemma {:induction false} CompactedHolds(chunks: seq<seq<KVCommand>>, k: string)
    ensures k in CompactAll(chunks) <==> exists i :: Survives(chunks, k, i)
  {
    if chunks != [] {
      var init, last := chunks[..|chunks| - 1], chunks[|chunks| - 1];
      assert chunks == init + [last];
      CompactedHolds(init, k);
      MergedLookup(CompactAll(init), last, k);
      forall i ensures Survives(chunks, k, i) <==>
                       var w := WritesOf(last, k);
                       if i == |init| then EndsWithPut(w) else Survives(init, k, i) && (w == [] || Lossy(w)) {
        SurvivesSnoc(init, last, k, i);
      }
      if EndsWithPut(WritesOf(last, k)) {
        assert Survives(chunks, k, |init|);
      }
    }
  }

  lemma {:induction false} CompactedRight(chunks: seq<seq<KVCommand>>, k: string)
    ensures Lookup(CompactAll(chunks), k) == LastWrite(None, Flatten(chunks), k) <==> !LosesDelete(chunks, k)
  {
    if chunks != [] {
      var init, last := chunks[..|chunks| - 1], chunks[|chunks| - 1];
      assert chunks == init + [last];
      var w := WritesOf(last, k);
      CompactedRight(init, k);
      MergedLookup(CompactAll(init), last, k);
      LastWriteAppend(None, Flatten(init), last, k);
      LastWriteOf(LastWrite(None, Flatten(init), k), last, k);
      forall i ensures Survives(chunks, k, i) <==>
                       if i == |init| then EndsWithPut(w) else Survives(init, k, i) && (w == [] || Lossy(w)) {
        SurvivesSnoc(init, last, k, i);
      }
      if w == [] {
        if LosesDelete(init, k) {
          var i, j :| 0 <= i < j < |init| && Survives(init, k, i) && Lossy(WritesOf(init[j], k));
          assert Survives(chunks, k, i) && Lossy(WritesOf(chunks[j], k));
        }
      } else if Lossy(w) {
        CompactedHolds(init, k);
        if k in CompactAll(init) {
          var i :| Survives(init, k, i);
          assert Survives(chunks, k, i) && Lossy(WritesOf(chunks[|init|], k));
        }
      }
    }
  }

  /**
   However a log is cut into chunks, compacting them from left to right gives the map of the
   whole log exactly when no chunk that ends by putting a key is followed only by chunks
   that are silent or lossy for it, one of them lossy.
   */
  lemma ChunkedCompactionExactIff(chunks: seq<seq<KVCommand>>)
    ensures CompactAll(chunks) == ApplyAll(map[], Flatten(chunks)) <==> forall k :: !LosesDelete(chunks, k)
    ensures ApplyAll(map[], Flatten(chunks)) == Created(Flatten(chunks)).snapshotted
  {
    var compacted, applied := CompactAll(chunks), ApplyAll(map[], Flatten(chunks));
    forall k ensures Lookup(compacted, k) == Lookup(applied, k) <==> !LosesDelete(chunks, k) {
      CompactedRight(chunks, k);
      ApplyAllLookup(map[], Flatten(chunks), k);
    }
    if forall k :: !LosesDelete(chunks, k) {
      TablesEqual(compacted, applied);
    }
  }

  lemma {:induction false} DeleteFreeWrites(entries: seq<KVCommand>, k: string)
    requires forall i :: 0 <= i < |entries| ==> !entries[i].Delete?
    ensures forall i :: 0 <= i < |WritesOf(entries, k)| ==> WritesOf(entries, k)[i].Put?
  {
    if entries != [] {
      DeleteFreeWrites(entries[..|entries| - 1], k);
    }
  }

  /** The system's own clients never send Delete, so its compaction is always exact. */
  lemma DeleteFreeCompaction(chunks: seq<seq<KVCommand>>)
    requires forall c, i :: 0 <= c < |chunks| && 0 <= i < |chunks[c]| ==> !chunks[c][i].Delete?
    ensures CompactAll(chunks) == ApplyAll(map[], Flatten(chunks))
  {
    forall k ensures !LosesDelete(chunks, k) {
      forall j | 0 <= j < |chunks| ensures !Lossy(WritesOf(chunks[j], k)) {
        DeleteFreeWrites(chunks[j], k);
      }
    }
    ChunkedCompactionExactIff(chunks);
  }

  /** `merge` as an operation on deltas: the merged delta forgets its own deleted keys. */
  function MergedDelta(self: Delta, delta: Delta): Delta {
    Delta(Merged(self.snapshotted, delta), [])
  }

  /**
   Merging is associative exactly when the left delta holds no key that the right one deletes,
   and none that the middle one deletes and the right one does not put back.
   */
  lemma MergeAssociativeIff(a: Delta, b: Delta, c: Delta)
    requires forall k :: k in b.deletedKeys ==> k !in b.snapshotted
    requires forall k :: k in c.deletedKeys ==> k !in c.snapshotted
    ensures MergedDelta(MergedDelta(a, b), c) == MergedDelta(a, MergedDelta(b, c)) <==>
            forall k :: k in a.snapshotted ==>
                          k !in c.deletedKeys && (k in b.deletedKeys ==> k in c.snapshotted)
  {
    var left := MergedDelta(MergedDelta(a, b), c).snapshotted;
    var right := MergedDelta(a, MergedDelta(b, c)).snapshotted;
    forall k
      ensures Lookup(left, k) == Lookup(right, k) <==>
              !(k in a.snapshotted && (k in c.deletedKeys || (k in b.deletedKeys && k !in c.snapshotted)))
    {
    }
    if forall k :: k in a.snapshotted ==> k !in c.deletedKeys && (k in b.deletedKeys ==> k in c.snapshotted) {
      TablesEqual(left, right);
    }
  }

  /** The deltas `create` makes never hold a key they delete, so for them the condition needs no proviso. */
  lemma CreatedMergeAssociativeIff(a: seq<KVCommand>, b: seq<KVCommand>, c: seq<KVCommand>)
    ensures MergedDelta(MergedDelta(Created(a), Created(b)), Created(c)) == MergedDelta(Created(a), MergedDelta(Created(b), Created(c))) <==>
            forall k :: k in Created(a).snapshotted ==>
                          k !in Created(c).deletedKeys && (k in Created(b).deletedKeys ==> k in Created(c).snapshotted)
  {
    MergeAssociativeIff(Created(a), Created(b), Created(c));
  }

  lemma {:induction false} DeleteFreeDelta(entries: seq<KVCommand>)
    requires forall i :: 0 <= i < |entries| ==> !entries[i].Delete?
    ensures Pushed(entries) == Created(entries).deletedKeys == []
  {
    if entries != [] {
      DeleteFreeDelta(entries[..|entries| - 1]);
    }
  }

  /** Whatever came before, merging the deltas of two further delete-free logs is associative. */
  lemma DeleteFreeMergeAssociative(a: Delta, b: seq<KVCommand>, c: seq<KVCommand>)
    requires forall i :: 0 <= i < |b| ==> !b[i].Delete?
    requires forall i :: 0 <= i < |c| ==> !c[i].Delete?
    ensures MergedDelta(MergedDelta(a, Created(b)), Created(c)) == MergedDelta(a, MergedDelta(Created(b), Created(c)))
  {
    DeleteFreeDelta(b);
    DeleteFreeDelta(c);
    MergeAssociativeIff(a, Created(b), Created(c));
  }
}
