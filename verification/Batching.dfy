/** `chunkBy`: cutting a list of chunks into batches of a fixed size. */
module Batching {
  import opened SeqUtil

  /** A size that is not positive is treated as one. */
  function BatchSize(size: int): nat {
    if size <= 0 then 1 else size
  }

  /** The batches, described from the front of the list. */
  function Batches<T>(items: seq<T>, size: int): seq<seq<T>>
    decreases |items|
  {
    var n := BatchSize(size);
    if |items| == 0 then []
    else if |items| <= n then [items]
    else [items[..n]] + Batches(items[n..], size)
  }

  /** The batches from position `i` on: one batch, and the batches from its end. */
  lemma BatchesFrom<T>(items: seq<T>, size: int, i: nat, end: nat)
    requires i < |items|
    requires end == if i + BatchSize(size) > |items| then |items| else i + BatchSize(size)
    ensures Batches(items[i..], size) == [items[i..end]] + Batches(items[end..], size)
  {
    if end == |items| {
      assert items[i..] == items[i..end];
      assert Batches(items[end..], size) == [];
    } else {
      assert items[i..][..BatchSize(size)] == items[i..end];
      assert items[i..][BatchSize(size)..] == items[end..];
    }
  }

  /** `out` and the batches from position `i` on are all the batches. */
  ghost predicate CutUpTo<T>(items: seq<T>, size: int, i: nat, out: seq<seq<T>>) {
    out + Batches(items[if i < |items| then i else |items|..], size) == Batches(items, size)
  }

  lemma CutStart<T>(items: seq<T>, size: int)
    ensures CutUpTo(items, size, 0, [])
  {
    hide Batches;
    assert items[0..] == items;
  }

  lemma CutNext<T>(items: seq<T>, size: int, i: nat, end: nat, out: seq<seq<T>>)
    requires i < |items| && CutUpTo(items, size, i, out)
    requires end == if i + BatchSize(size) > |items| then |items| else i + BatchSize(size)
    ensures CutUpTo(items, size, i + BatchSize(size), out + [items[i..end]])
  {
    hide Batches;
    BatchesFrom(items, size, i, end);
    Associative(out, [items[i..end]], Batches(items[end..], size));
  }

  lemma CutEnd<T>(items: seq<T>, size: int, i: nat, out: seq<seq<T>>)
    requires i >= |items| && CutUpTo(items, size, i, out)
    ensures out == Batches(items, size)
  {
    assert items[|items|..] == [];
  }

  method ChunkBy<T>(items: seq<T>, requestedSize: int) returns (out: seq<seq<T>>)
    ensures out == Batches(items, requestedSize)
  {
    hide Batches, CutUpTo;
    var size := requestedSize;
    if size <= 0 {
      size := 1;
    }
    out := [];
    var i := 0;
    CutStart(items, requestedSize);
    while i < |items|
      invariant 0 <= i && CutUpTo(items, requestedSize, i, out)
      decreases |items| - i
    {
      var end := i + size;
      if end > |items| {
        end := |items|;
      }
      CutNext(items, requestedSize, i, end, out);
      out := out + [items[i..end]];
      i := i + size;
    }
    CutEnd(items, requestedSize, i, out);
  }

  /** Nothing is lost, repeated or reordered; batches are full except possibly the last. */
  lemma {:induction false} BatchesPartition<T>(items: seq<T>, size: int)
    ensures Flatten(Batches(items, size)) == items
    ensures forall b :: 0 <= b < |Batches(items, size)| ==>
      0 < |Batches(items, size)[b]| <= if size > 0 then size else 1
    ensures forall b :: 0 <= b < |Batches(items, size)| - 1 ==>
      |Batches(items, size)[b]| == if size > 0 then size else 1
    ensures Batches(items, size) == [] <==> items == []
    decreases |items|
  {
    var n := BatchSize(size);
    if |items| > n {
      BatchesPartition(items[n..], size);
      assert items == items[..n] + items[n..];
      assert Batches(items, size)[1..] == Batches(items[n..], size);
    } else if items != [] {
      assert Flatten([items]) == items + Flatten([]);
    }
  }

  /** Distinct items end up in exactly one batch each. */
  lemma {:induction false} BatchesDisjoint<T>(items: seq<T>, size: int, a: nat, b: nat)
    requires Distinct(items)
    requires a < b < |Batches(items, size)|
    ensures forall x :: x in Batches(items, size)[a] ==> x !in Batches(items, size)[b]
    decreases |items|
  {
    var n := BatchSize(size);
    var rest := Batches(items[n..], size);
    assert Batches(items, size) == [items[..n]] + rest;
    if a == 0 {
      BatchesPartition(items[n..], size);
      forall x | x in items[..n] ensures x !in rest[b - 1] {
        FlattenMember(rest, x);
        assert x !in items[n..];
      }
    } else {
      BatchesDisjoint(items[n..], size, a - 1, b - 1);
    }
  }
}
