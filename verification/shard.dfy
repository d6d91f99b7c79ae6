/** Shard: the items of a stream that fall to one of several shards. */
module Sharding {

  /** The items at positions i with i % n == k, in order. */
  function ShardOf<T>(input: seq<T>, n: nat, k: int): seq<T>
    requires n > 0
  {
    if input == [] then []
    else
      var i := |input| - 1;
      if i % n == k then ShardOf(input[..i], n, k) + [input[i]] else ShardOf(input[..i], n, k)
  }

  /** Shard.  `cancelled(j)` says that cancellation wins over sending the j-th item out. */
  method Shard<T>(input: seq<T>, numShards: int, shard: int, cancelled: nat -> bool) returns (out: seq<T>)
    ensures numShards <= 1 ==> out == input
    ensures numShards > 1 ==> out <= ShardOf(input, numShards, shard)
    ensures numShards > 1 ==> forall j :: 0 <= j < |out| ==> !cancelled(j)
    ensures numShards > 1 && |out| < |ShardOf(input, numShards, shard)| ==> cancelled(|out|)
  {
    if numShards <= 1 {
      return input;
    }
    out := [];
    var i := 0;
    while i < |input|
      invariant 0 <= i <= |input|
      invariant out == ShardOf(input[..i], numShards, shard)
      invariant forall j :: 0 <= j < |out| ==> !cancelled(j)
    {
      assert input[..i + 1][..i] == input[..i];
      if i % numShards == shard {
        if cancelled(|out|) {
          Extends(input, numShards, shard, i + 1);
          return;
        }
        out := out + [input[i]];
      }
      i := i + 1;
    }
    assert input[..i] == input;
  }

  lemma {:induction false} Extends<T>(input: seq<T>, n: nat, k: int, i: nat)
    requires n > 0 && i <= |input|
    ensures ShardOf(input[..i], n, k) <= ShardOf(input, n, k)
  {
    if i == |input| {
      assert input[..i] == input;
    } else {
      Extends(input[..|input| - 1], n, k, i);
      assert input[..|input| - 1][..i] == input[..i];
    }
  }

  /** How many positions below m fall to shard k: round them up. */
  function Share(m: nat, n: nat, k: nat): nat
    requires k < n
  {
    if m <= k then 0 else (m - k - 1) / n + 1
  }

  lemma ShareStep(m: nat, n: nat, k: nat)
    requires k < n
    ensures Share(m + 1, n, k) == Share(m, n, k) + if m % n == k then 1 else 0
    ensures m % n == k ==> Share(m, n, k) * n + k == m
  {
    var q, r := m / n, m % n;
    assert m == n * q + r;
    if m < k {
      DivModUnique(m, n, 0, m);
    } else if m == k {
      DivModUnique(m, n, 0, k);
    } else if r > k {
      DivModUnique(m - k, n, q, r - k);
      DivModUnique(m - k - 1, n, q, r - k - 1);
    } else if r == k {
      DivModUnique(m - k, n, q, 0);
      assert q >= 1;
      assert m - k - 1 == n * (q - 1) + (n - 1) by {
        assert n * (q - 1) == n * q - n;
      }
      DivModUnique(m - k - 1, n, q - 1, n - 1);
    } else {
      assert q >= 1;
      assert m - k == n * (q - 1) + (n + r - k) by {
        assert n * (q - 1) == n * q - n;
      }
      DivModUnique(m - k, n, q - 1, n + r - k);
      DivModUnique(m - k - 1, n, q - 1, n + r - k - 1);
    }
  }

  lemma DivModUnique(x: int, n: nat, q: int, r: nat)
    requires n > 0 && x == n * q + r && r < n
    ensures x / n == q && x % n == r
  {
    assert x == n * (x / n) + x % n;
    assert n * (q - x / n) == x % n - r;
    if q - x / n >= 1 {
      AtLeastOnce(n, q - x / n);
    } else if q - x / n <= -1 {
      AtLeastOnce(n, x / n - q);
    }
  }

  lemma AtLeastOnce(n: nat, k: int)
    requires k >= 1
    ensures n * k >= n
  {
  }

  /** The j-th item of shard k is the item at position j*n + k: the shards keep the order, and
      every position falls to exactly one of them. */
  lemma {:induction false} ShardAt<T>(input: seq<T>, n: nat, k: nat)
    requires k < n
    ensures |ShardOf(input, n, k)| == Share(|input|, n, k)
    ensures forall j :: 0 <= j < |ShardOf(input, n, k)| ==>
              0 <= j * n + k < |input| && ShardOf(input, n, k)[j] == input[j * n + k]
  {
    if input != [] {
      var m := |input| - 1;
      ShardAt(input[..m], n, k);
      ShareStep(m, n, k);
    }
  }

  /** Shard lengths differ by at most one, the earlier shards having the longer ones. */
  lemma SharesAreEven(m: nat, n: nat, a: nat, b: nat)
    requires a <= b < n
    ensures Share(m, n, b) <= Share(m, n, a) <= Share(m, n, b) + 1
  {
    if m > b {
      var x := m - b - 1;
      assert x + (b - a) == m - a - 1;
      DivSteps(x, b - a, n);
    } else if m > a {
      DivModUnique(m - a - 1, n, 0, m - a - 1);
    }
  }

  lemma DivSteps(x: nat, d: nat, n: nat)
    requires d < n
    ensures x / n <= (x + d) / n <= x / n + 1
  {
    var q, r := x / n, x % n;
    assert x == n * q + r;
    if r + d < n {
      DivModUnique(x + d, n, q, r + d);
    } else {
      assert n * (q + 1) == n * q + n;
      DivModUnique(x + d, n, q + 1, r + d - n);
    }
  }

  /** Deal the shards back out, one item each in turn. */
  function Merge<T>(shards: seq<seq<T>>, total: nat): (r: seq<T>)
    requires |shards| > 0
    requires forall i :: 0 <= i < total ==> i / |shards| < |shards[i % |shards|]|
  {
    seq(total, i requires 0 <= i < total => shards[i % |shards|][i / |shards|])
  }

  lemma ShardHolds<T>(input: seq<T>, n: nat, k: nat, q: nat)
    requires k < n && q * n + k < |input|
    ensures q < |ShardOf(input, n, k)| && ShardOf(input, n, k)[q] == input[q * n + k]
  {
    hide ShardOf, Share;
    ShardAt(input, n, k);
    ShareCovers(|input|, n, k, q);
  }

  /** Running every shard and merging them round-robin gives back the input. */
  lemma ShardsMergeBack<T>(input: seq<T>, n: nat, shards: seq<seq<T>>)
    requires n > 0 && |shards| == n && (forall k :: 0 <= k < n ==> shards[k] == ShardOf(input, n, k))
    ensures forall i :: 0 <= i < |input| ==> i / n < |shards[i % n]|
    ensures Merge(shards, |input|) == input
  {
    hide ShardOf;
    forall i | 0 <= i < |input|
      ensures i / n < |shards[i % n]| && shards[i % n][i / n] == input[i]
    {
      assert i == (i / n) * n + i % n;
      ShardHolds(input, n, i % n, i / n);
    }
  }

  lemma ShareCovers(m: nat, n: nat, k: nat, q: nat)
    requires k < n && q * n + k < m
    ensures q < Share(m, n, k)
  {
    var x := m - k - 1;
    if x / n < q {
      AtLeastOnce(n, q - x / n);
    }
  }
}
