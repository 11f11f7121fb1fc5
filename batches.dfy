/** Slicing a list into consecutive batches, as `[s[i:i+n] for i in range(0, len(s), n)]` does. */
module Batches {

  /** The concatenation of a list of lists. */
  function Flatten<T>(ss: seq<seq<T>>): (r: seq<T>)
  {
    if ss == [] then [] else ss[0] + Flatten(ss[1..])
  }

  lemma {:induction false} FlattenAppend<T>(a: seq<seq<T>>, b: seq<seq<T>>)
    ensures Flatten(a + b) == Flatten(a) + Flatten(b)
  {
    if a == [] {
      assert a + b == b;
    } else {
      assert (a + b)[1..] == a[1..] + b;
      FlattenAppend(a[1..], b);
    }
  }

  /** The batches of size `n` of `s`, in order; the last one may be shorter. */
  function Chunks<T>(s: seq<T>, n: nat): seq<seq<T>>
    requires n >= 1
    decreases |s|
  {
    if s == [] then []
    else if |s| <= n then [s]
    else [s[..n]] + Chunks(s[n..], n)
  }

  /** The batches, joined again, give back `s`. */
  lemma {:induction false} ChunksFlatten<T>(s: seq<T>, n: nat)
    requires n >= 1
    ensures Flatten(Chunks(s, n)) == s
    decreases |s|
  {
    var r := Chunks(s, n);
    if s == [] {
    } else if |s| <= n {
      assert Flatten([s]) == s + Flatten([]);
    } else {
      ChunksFlatten(s[n..], n);
      assert r[1..] == Chunks(s[n..], n);
      assert Flatten(r) == s[..n] + s[n..];
    }
  }

  /** There are no batches exactly when there is nothing to slice. */
  lemma ChunksEmpty<T>(s: seq<T>, n: nat)
    requires n >= 1
    ensures Chunks(s, n) == [] <==> s == []
  {
  }

  /** No batch is empty or longer than `n`, and every batch but the last is exactly `n` long. */
  lemma {:induction false} ChunksSizes<T>(s: seq<T>, n: nat)
    requires n >= 1
    ensures forall i :: 0 <= i < |Chunks(s, n)| ==> 1 <= |Chunks(s, n)[i]| <= n
    ensures forall i :: 0 <= i < |Chunks(s, n)| - 1 ==> |Chunks(s, n)[i]| == n
    decreases |s|
  {
    if |s| > n {
      ChunksSizes(s[n..], n);
      var r := Chunks(s, n);
      assert forall i :: 1 <= i < |r| ==> r[i] == Chunks(s[n..], n)[i - 1];
    }
  }

  /** One slicing step: the batches of `s[i..]` are the batch starting at `i` followed by the
      batches of what comes after it. */
  lemma ChunksStep<T>(s: seq<T>, n: nat, i: nat)
    requires n >= 1 && i < |s|
    ensures i + n <= |s| ==> Chunks(s[i..], n) == [s[i..i + n]] + Chunks(s[i + n..], n)
    ensures i + n > |s| ==> Chunks(s[i..], n) == [s[i..]]
  {
    if |s[i..]| > n {
      assert s[i..][..n] == s[i..i + n];
      assert s[i..][n..] == s[i + n..];
    } else if i + n == |s| {
      assert s[i..i + n] == s[i..];
      assert s[i + n..] == [];
    }
  }

  /** Where batch number `b` starts when the batches are `n` long: the `b`-th value of
      `range(0, len, n)`. */
  function BatchOffset(b: nat, n: nat): nat
  {
    if b == 0 then 0 else BatchOffset(b - 1, n) + n
  }

  /** The `b`-th batch starts `b * n` into the list. */
  lemma {:induction false} BatchOffsetIsProduct(b: nat, n: nat)
    ensures BatchOffset(b, n) == b * n
  {
    if b > 0 {
      BatchOffsetIsProduct(b - 1, n);
      assert b * n == (b - 1) * n + n;
    }
  }

  /** Later batches start no earlier. */
  lemma {:induction false} BatchOffsetMonotone(a: nat, c: nat, n: nat)
    requires a <= c
    ensures BatchOffset(a, n) <= BatchOffset(c, n)
  {
    if a < c {
      BatchOffsetMonotone(a, c - 1, n);
    }
  }

  /** Walking the batches: the batch at position `b` of the batches of `s[start..]` runs from
      `start` to where the batches after it start: `n` further on, or the end. */
  lemma ChunkAt<T>(s: seq<T>, n: nat, start: nat, batches: seq<seq<T>>, b: nat) returns (next: nat)
    requires n >= 1 && start <= |s| && b < |batches|
    requires batches[b..] == Chunks(s[start..], n)
    requires start == |s| || start == BatchOffset(b, n)
    ensures start < next <= |s| && next <= start + n && batches[b] == s[start..next]
    ensures batches[b + 1..] == Chunks(s[next..], n)
    ensures next == |s| || next == BatchOffset(b + 1, n)
    ensures s[..start] + batches[b] == s[..next]
    ensures forall x :: x in batches[b] ==> x in s
  {
    assert s[start..] != [];
    ChunksStep(s, n, start);
    assert batches[b + 1..] == batches[b..][1..];
    next := if start + n <= |s| then start + n else |s|;
    assert s[..start] + s[start..next] == s[..next];
    assert forall x :: x in s[start..next] ==> x in s;
  }
}
