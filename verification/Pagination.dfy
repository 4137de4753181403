/**
 LIMIT and OFFSET over entries that stand for several solutions.
 */
module Pagination {
  import opened Graphs
  import opened Projection

  function Repeat(key: Key, n: nat): (r: seq<Key>)
    ensures |r| == n && forall i :: 0 <= i < n ==> r[i] == key
  {
    seq(n, i => key)
  }

  /** The solutions the entries stand for, in order. */
  function Expand(es: seq<CountedEntry>): seq<Key> {
    if es == [] then [] else Expand(Init(es)) + Repeat(Last(es).key, Last(es).value)
  }

  const UNSET: int := -1

  /** The solutions from the offset on, and at most limit of them. */
  function Slice<T>(s: seq<T>, offset: int, limit: int): seq<T>
    requires limit >= UNSET
  {
    var rest := if offset <= 0 then s else if offset >= |s| then [] else s[offset..];
    if limit == UNSET || limit >= |rest| then rest else rest[..limit]
  }

  /** Consecutive pages make up the whole. */
  lemma Pages<T>(s: seq<T>, size: nat, n: nat)
    requires size > 0
    ensures Slice(s, 0, n * size) + Slice(s, n * size, size) == Slice(s, 0, (n + 1) * size)
  {
    var k := n * size;
    assert (n + 1) * size == k + size && k >= 0;
    PagesAt(s, k, size);
  }

  lemma PagesAt<T>(s: seq<T>, k: nat, size: nat)
    ensures Slice(s, 0, k) + Slice(s, k, size) == Slice(s, 0, k + size)
  {
  }

  lemma ExpandSnoc(es: seq<CountedEntry>, e: CountedEntry)
    ensures Expand(es + [e]) == Expand(es) + Repeat(e.key, e.value)
  {
    assert Init(es + [e]) == es && Last(es + [e]) == e;
  }

  lemma {:induction false} ExpandPrefix(es: seq<CountedEntry>, i: nat)
    requires i <= |es|
    ensures Expand(es[..i]) <= Expand(es)
    decreases |es|
  {
    if i == |es| {
      assert es[..i] == es;
    } else {
      ExpandPrefix(Init(es), i);
      assert Init(es)[..i] == es[..i];
    }
  }

  /** What was skipped and yielded of the solutions so far, while the limit is not reached. */
  ghost predicate SoFar(all: seq<Key>, out: seq<CountedEntry>, offset: int, limit: int, offsetCounter: nat, limitCounter: nat) {
    && Expand(out) == Slice(all, offset, UNSET) && limitCounter == |Expand(out)|
    && (limit != UNSET ==> limitCounter <= limit)
    && (offset <= 0 ==> offsetCounter == 0)
    && (0 < offset && |all| <= offset ==> offsetCounter == |all|)
    && (0 < offset < |all| ==> offsetCounter >= offset)
  }

  /** The limit is reached within the given solutions. */
  ghost predicate Full(all: seq<Key>, out: seq<CountedEntry>, offset: int, limit: int) {
    limit >= 0 && Expand(out) == Slice(all, offset, limit) && |Expand(out)| == limit
  }

  lemma FullLater(before: seq<Key>, all: seq<Key>, out: seq<CountedEntry>, offset: int, limit: int)
    requires before <= all && Full(before, out, offset, limit)
    ensures Expand(out) == Slice(all, offset, limit)
  {
  }

  /** Expanding what is yielded gives the slice of what the input expands to. */
  method LimitPagination(entries: seq<CountedEntry>, offset: int, limit: int) returns (out: seq<CountedEntry>)
    requires limit >= UNSET
    ensures Expand(out) == Slice(Expand(entries), offset, limit)
  {
    hide *;
    var limitCounter: nat, offsetCounter: nat := 0, 0;
    out := [];
    NothingSoFar(entries, offset, limit);
    for i := 0 to |entries|
      invariant SoFar(Expand(entries[..i]), out, offset, limit, offsetCounter, limitCounter)
    {
      var entry := entries[i];
      ghost var before := Expand(entries[..i]);
      ghost var all := before + Repeat(entry.key, entry.value);
      NextExpand(entries, i);
      if offsetCounter < offset {
        Straddles(before, entry, out, offset, limit, offsetCounter, limitCounter);
        offsetCounter := offsetCounter + entry.value;
        if offsetCounter > offset {
          var value := offsetCounter - offset;
          if limit != UNSET && value >= limit {
            out := out + [CountedEntry(entry.key, limit)];
            FullLater(all, Expand(entries), out, offset, limit);
            return;
          }
          limitCounter := limitCounter + value;
          out := out + [CountedEntry(entry.key, value)];
        }
        continue;
      }
      Yields(before, entry, out, offset, limit, offsetCounter, limitCounter);
      if limit != UNSET {
        if limitCounter + entry.value == limit {
          out := out + [entry];
          FullLater(all, Expand(entries), out, offset, limit);
          return;
        }
        if limitCounter + entry.value > limit {
          out := out + [CountedEntry(entry.key, limit - limitCounter)];
          FullLater(all, Expand(entries), out, offset, limit);
          return;
        }
      }
      out := out + [entry];
      limitCounter := limitCounter + entry.value;
    }
    assert entries[..|entries|] == entries;
    AllSoFar(Expand(entries), out, offset, limit, offsetCounter, limitCounter);
  }

  lemma NothingSoFar(entries: seq<CountedEntry>, offset: int, limit: int)
    requires limit >= UNSET
    ensures SoFar(Expand(entries[..0]), [], offset, limit, 0, 0)
  {
  }

  lemma AllSoFar(all: seq<Key>, out: seq<CountedEntry>, offset: int, limit: int, offsetCounter: nat, limitCounter: nat)
    requires limit >= UNSET && SoFar(all, out, offset, limit, offsetCounter, limitCounter)
    ensures Expand(out) == Slice(all, offset, limit)
  {
  }

  lemma NextExpand(entries: seq<CountedEntry>, i: nat)
    requires i < |entries|
    ensures Expand(entries[..i + 1]) == Expand(entries[..i]) + Repeat(entries[i].key, entries[i].value)
    ensures Expand(entries[..i]) + Repeat(entries[i].key, entries[i].value) <= Expand(entries)
  {
    hide *;
    assert entries[..i + 1] == entries[..i] + [entries[i]];
    ExpandSnoc(entries[..i], entries[i]);
    ExpandPrefix(entries, i + 1);
  }

  /** An entry before the offset, or across it. */
  lemma Straddles(before: seq<Key>, entry: CountedEntry, out: seq<CountedEntry>, offset: int, limit: int,
                  offsetCounter: nat, limitCounter: nat)
    requires limit >= UNSET && SoFar(before, out, offset, limit, offsetCounter, limitCounter) && offsetCounter < offset
    ensures var all, value := before + Repeat(entry.key, entry.value), offsetCounter + entry.value - offset;
            && (value <= 0 ==> SoFar(all, out, offset, limit, offsetCounter + entry.value, limitCounter))
            && (value > 0 && limit != UNSET && value >= limit ==> Full(all, out + [CountedEntry(entry.key, limit)], offset, limit))
            && (value > 0 && !(limit != UNSET && value >= limit) ==>
                SoFar(all, out + [CountedEntry(entry.key, value)], offset, limit, offsetCounter + entry.value, limitCounter + value))
  {
    var value := offsetCounter + entry.value - offset;
    if value > 0 {
      ExpandSnoc(out, CountedEntry(entry.key, value));
      if limit >= 0 {
        ExpandSnoc(out, CountedEntry(entry.key, limit));
      }
    }
  }

  /** An entry after the offset, below the limit, at it or across it. */
  lemma Yields(before: seq<Key>, entry: CountedEntry, out: seq<CountedEntry>, offset: int, limit: int,
               offsetCounter: nat, limitCounter: nat)
    requires limit >= UNSET && SoFar(before, out, offset, limit, offsetCounter, limitCounter) && offsetCounter >= offset
    ensures var all, sum := before + Repeat(entry.key, entry.value), limitCounter + entry.value;
            && (limit == UNSET || sum < limit ==> SoFar(all, out + [entry], offset, limit, offsetCounter, sum))
            && (limit != UNSET && sum == limit ==> Full(all, out + [entry], offset, limit))
            && (limit != UNSET && sum > limit ==> limitCounter <= limit && Full(all, out + [CountedEntry(entry.key, limit - limitCounter)], offset, limit))
  {
    ExpandSnoc(out, entry);
    if limit != UNSET && limitCounter <= limit {
      ExpandSnoc(out, CountedEntry(entry.key, limit - limitCounter));
    }
    PastOffset(before, out, offset, limit, offsetCounter, limitCounter);
    hide Expand, Repeat;
    SliceGrows(before, entry.key, entry.value, offset);
    SliceCut(before, entry.key, entry.value, offset, limit);
  }

  lemma PastOffset(all: seq<Key>, out: seq<CountedEntry>, offset: int, limit: int, offsetCounter: nat, limitCounter: nat)
    requires SoFar(all, out, offset, limit, offsetCounter, limitCounter) && offsetCounter >= offset
    ensures offset <= |all|
  {
  }

  lemma SliceGrows(before: seq<Key>, key: Key, n: nat, offset: int)
    requires offset <= |before|
    ensures Slice(before + Repeat(key, n), offset, UNSET) == Slice(before, offset, UNSET) + Repeat(key, n)
  {
    hide Repeat;
  }

  lemma SliceCut(before: seq<Key>, key: Key, n: nat, offset: int, limit: int)
    requires offset <= |before| && limit >= UNSET
    ensures var rest := Slice(before, offset, UNSET);
            |rest| <= limit <= |rest| + n ==>
              Slice(before + Repeat(key, n), offset, limit) == rest + Repeat(key, limit - |rest|)
  {
    SliceGrows(before, key, n, offset);
    if limit != UNSET {
      SliceTake(before + Repeat(key, n), offset, limit);
    }
  }

  lemma SliceTake(s: seq<Key>, offset: int, limit: int)
    requires limit >= 0
    ensures Slice(s, offset, limit)
         == if limit >= |Slice(s, offset, UNSET)| then Slice(s, offset, UNSET) else Slice(s, offset, UNSET)[..limit]
  {
  }
}
