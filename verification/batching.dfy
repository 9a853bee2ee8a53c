/**
  Identifier batching of the batch-size sweep: the identifier pool is cut with
  `range(0, len(pool), b)` into consecutive windows `pool[ndx : min(ndx + b, n)]`.
 */
module Batching {
  import opened Values
  import opened Arith

  /** The windows for every `ndx` in `range(start, len(pool), b)`. A negative
      step gives an empty range, because the range starts at 0 and the pool
      length is never negative. */
  function Slices(pool: seq<Curie>, b: int, start: nat): seq<seq<Curie>>
    requires b != 0
    decreases if start <= |pool| then |pool| - start else 0
  {
    if b < 0 || start >= |pool| then []
    else [pool[start .. Min(start + b, |pool|)]] + Slices(pool, b, start + b)
  }

  /** The batches one phase sends. A zero batch size is not accepted: the
      driver divides by it before slicing and stops with an exception. */
  function Batches(pool: seq<Curie>, b: int): seq<seq<Curie>>
    requires b != 0
  {
    Slices(pool, b, 0)
  }

  /** The batches joined back together, in order. */
  function Concat(bs: seq<seq<Curie>>): seq<Curie> {
    if |bs| == 0 then [] else bs[0] + Concat(bs[1..])
  }

  /** Taking one more full batch adds one to the ceiling of the quotient. */
  lemma CeilStep(m: int, b: int)
    requires b > 0 && m > b
    ensures (m + b - 1) / b == (m - 1) / b + 1
  {
    var q, r := (m - 1) / b, (m - 1) % b;
    assert m - 1 == q * b + r;
    DivUnique(m + b - 1, b, q + 1, r);
  }

  lemma {:induction false} SlicesCount(pool: seq<Curie>, b: int, start: nat)
    requires b > 0 && start <= |pool|
    ensures |Slices(pool, b, start)| == (|pool| - start + b - 1) / b
    decreases |pool| - start
  {
    var m := |pool| - start;
    if m == 0 {
      DivUnique(b - 1, b, 0, b - 1);
    } else if m <= b {
      assert Slices(pool, b, start + b) == [];
      DivUnique(m + b - 1, b, 1, m - 1);
    } else {
      SlicesCount(pool, b, start + b);
      CeilStep(m, b);
    }
  }

  /** A positive batch size gives ceil(n / b) batches. */
  lemma BatchCount(pool: seq<Curie>, b: int)
    requires b > 0
    ensures |Batches(pool, b)| == (|pool| + b - 1) / b
  {
    SlicesCount(pool, b, 0);
  }

  lemma {:induction false} SlicesAt(pool: seq<Curie>, b: int, start: nat, i: nat)
    requires b > 0 && i < |Slices(pool, b, start)|
    ensures start + i * b < |pool|
    ensures Slices(pool, b, start)[i] == pool[start + i * b .. Min(start + (i + 1) * b, |pool|)]
    decreases i
  {
    if i > 0 {
      SlicesAt(pool, b, start + b, i - 1);
      assert start + b + (i - 1) * b == start + i * b;
      assert start + b + i * b == start + (i + 1) * b;
    }
  }

  /** Batch `i` is exactly the window starting at `i * b`. */
  lemma BatchContents(pool: seq<Curie>, b: int)
    requires b > 0
    ensures forall i :: 0 <= i < |Batches(pool, b)| ==>
      i * b < |pool| && Batches(pool, b)[i] == pool[i * b .. Min((i + 1) * b, |pool|)]
  {
    forall i | 0 <= i < |Batches(pool, b)|
      ensures i * b < |pool| && Batches(pool, b)[i] == pool[i * b .. Min((i + 1) * b, |pool|)]
    {
      SlicesAt(pool, b, 0, i);
    }
  }

  lemma BatchLength(pool: seq<Curie>, b: int, i: nat)
    requires b > 0 && i < |Batches(pool, b)|
    ensures 0 < |Batches(pool, b)[i]| <= b
    ensures i < |Batches(pool, b)| - 1 ==> |Batches(pool, b)[i]| == b
  {
    SlicesAt(pool, b, 0, i);
    var lo, hi := i * b, (i + 1) * b;
    assert hi == lo + b;
    if i < |Batches(pool, b)| - 1 {
      SlicesAt(pool, b, 0, i + 1);
      assert (i + 1) * b < |pool|;
    }
  }

  /** Every batch is non-empty and at most `b` long, and all but the last
      are exactly `b` long. */
  lemma BatchShape(pool: seq<Curie>, b: int)
    requires b > 0
    ensures forall i :: 0 <= i < |Batches(pool, b)| ==> 0 < |Batches(pool, b)[i]| <= b
    ensures forall i :: 0 <= i < |Batches(pool, b)| - 1 ==> |Batches(pool, b)[i]| == b
  {
    forall i | 0 <= i < |Batches(pool, b)| ensures 0 < |Batches(pool, b)[i]| <= b {
      BatchLength(pool, b, i);
    }
    forall i | 0 <= i < |Batches(pool, b)| - 1 ensures |Batches(pool, b)[i]| == b {
      BatchLength(pool, b, i);
    }
  }

  lemma {:induction false} SlicesConcat(pool: seq<Curie>, b: int, start: nat)
    requires b > 0 && start <= |pool|
    ensures Concat(Slices(pool, b, start)) == pool[start..]
    decreases |pool| - start
  {
    if start < |pool| {
      if start + b >= |pool| {
        assert Slices(pool, b, start + b) == [];
      } else {
        SlicesConcat(pool, b, start + b);
        assert pool[start .. start + b] + pool[start + b..] == pool[start..];
      }
    }
  }

  /** Joining the batches in order gives back the whole pool. */
  lemma BatchesCover(pool: seq<Curie>, b: int)
    requires b > 0
    ensures Concat(Batches(pool, b)) == pool
  {
    SlicesConcat(pool, b, 0);
  }

  /** A batch size at least the pool size sends the whole pool in one call;
      an empty pool sends nothing. */
  lemma SingleBatch(pool: seq<Curie>, b: int)
    requires b >= |pool| > 0
    ensures Batches(pool, b) == [pool]
  {
    assert Slices(pool, b, b) == [];
    assert pool[0 .. Min(b, |pool|)] == pool;
  }

  /** A negative batch size gives an empty range: no calls at all. */
  lemma NegativeSize(pool: seq<Curie>, b: int)
    requires b < 0
    ensures Batches(pool, b) == []
  {
  }

  lemma EmptyPool(b: int)
    requires b != 0
    ensures Batches([], b) == []
  {
  }
}
