/** Sequences without repeats, and sequences cut into runs of one length. */
module Sequences {
  predicate NoRepeats<T(==)>(q: seq<T>) {
    forall i, j | 0 <= i < j < |q| :: q[i] != q[j]
  }

  /** Runs of n elements, and the rest. */
  function Chunks<T>(q: seq<T>, n: nat): seq<seq<T>>
    requires n > 0
    decreases |q|
  {
    if q == [] then [] else if |q| <= n then [q] else [q[..n]] + Chunks(q[n..], n)
  }

  function Concat<T>(parts: seq<seq<T>>): seq<T> {
    if parts == [] then [] else parts[0] + Concat(parts[1..])
  }

  lemma {:induction false} ChunksPartition<T>(q: seq<T>, n: nat)
    requires n > 0
    ensures Concat(Chunks(q, n)) == q
    ensures forall c | c in Chunks(q, n) :: 0 < |c| <= n
    decreases |q|
  {
    if |q| > n {
      ChunksPartition(q[n..], n);
      assert q == q[..n] + q[n..];
    } else if q != [] {
      assert [q][1..] == [] && q + [] == q;
    }
  }

  /** A full run comes off the front. */
  lemma ChunkOff<T>(front: seq<T>, rest: seq<T>, n: nat)
    requires |front| == n > 0
    ensures Chunks(front + rest, n) == [front] + Chunks(rest, n)
  {
    assert (front + rest)[..n] == front && (front + rest)[n..] == rest;
    if rest == [] {
      assert front + rest == front;
    }
  }

  /** The run that starts at a position. */
  lemma NextChunk<T>(q: seq<T>, start: nat, end: nat, n: nat)
    requires n > 0 && start < |q| && end == if start + n > |q| then |q| else start + n
    ensures Chunks(q[start..], n) == [q[start..end]] + Chunks(q[end..], n)
  {
    var rest := q[start..];
    if |rest| > n {
      assert rest[..n] == q[start..end] && rest[n..] == q[end..];
    } else {
      assert rest == q[start..end] && q[end..] == [];
    }
  }
}
