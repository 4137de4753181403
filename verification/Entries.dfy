/**
 The entry that an evaluation fills in: one key part for each tracked variable,
 and the number of solutions it stands for.
 */
module Entries {
  import opened Graphs
  import opened Projection

  class Entry {
    var key: Key
    var value: nat

    constructor (key: Key, value: nat)
      ensures this.key == key && this.value == value
    {
      this.key := key;
      this.value := value;
    }

    function Snapshot(): CountedEntry
      reads this
    {
      CountedEntry(key, value)
    }

    method SetPart(pos: nat, part: Option<Term>)
      requires pos < |key|
      modifies this
      ensures key == old(key)[pos := part] && value == old(value)
    {
      key := key[pos := part];
    }

    method SetValue(v: nat)
      modifies this
      ensures key == old(key) && value == v
    {
      value := v;
    }
  }

  /** src at the listed positions, k elsewhere. */
  ghost function Overwrite(k: Key, poss: seq<nat>, src: Key): (r: Key)
    requires |k| == |src|
    ensures |r| == |k|
    ensures forall i :: 0 <= i < |k| ==> r[i] == if i in poss then src[i] else k[i]
  {
    seq(|k|, i requires 0 <= i < |k| => if i in poss then src[i] else k[i])
  }

  method UpdateEntryKey(poss: seq<nat>, sink: Entry, source: Key)
    requires |sink.key| == |source| && Indices(poss, |source|)
    modifies sink
    ensures sink.key == Overwrite(old(sink.key), poss, source) && sink.value == old(sink.value)
  {
    for i := 0 to |poss|
      invariant |sink.key| == |source|
      invariant sink.key == Overwrite(old(sink.key), poss[..i], source)
      invariant sink.value == old(sink.value)
    {
      sink.SetPart(poss[i], source[poss[i]]);
      assert poss[..i + 1] == poss[..i] + [poss[i]];
    }
    assert poss[..|poss|] == poss;
  }

  /** The positions of the tracked variables in d. */
  function TrackedPositions(tracked: seq<VarId>, d: set<VarId>): (poss: seq<nat>)
    ensures forall p: nat :: p in poss <==> p < |tracked| && tracked[p] in d
    ensures Indices(poss, |tracked|)
  {
    if tracked == [] then []
    else TrackedPositions(Init(tracked), d) + (if Last(tracked) in d then [|tracked| - 1] else [])
  }

  /** Unbinds the tracked variables that the graph still has. */
  method ClearUsedEntryPoss(entry: Entry, tracked: seq<VarId>, data: set<VarId>)
    requires |entry.key| == |tracked|
    modifies entry
    ensures entry.key == Cleared(tracked, old(entry.key), data) && entry.value == old(entry.value)
  {
    var poss := TrackedPositions(tracked, data);
    for i := 0 to |poss|
      invariant |entry.key| == |tracked| && entry.value == old(entry.value)
      invariant forall p :: 0 <= p < |tracked| ==>
                  entry.key[p] == if p in poss[..i] then None else old(entry.key)[p]
    {
      entry.SetPart(poss[i], None);
      assert poss[..i + 1] == poss[..i] + [poss[i]];
    }
    assert poss[..|poss|] == poss;
    assert forall p :: 0 <= p < |tracked| ==> (p in poss <==> tracked[p] in data);
  }
}
