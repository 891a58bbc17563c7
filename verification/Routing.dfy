/** Which shard a trajectory belongs to: writers and readers route by the same rule. */
module Routing {
  import opened Prelude

  /** `ShardedConCorpus::shard_for_traj`. */
  function ShardForTraj(traj: u64, n: u32): (s: u32)
    requires n > 0
    ensures s < n
  {
    traj % n
  }

  lemma ShardZero(n: u32)
    requires n > 0
    ensures ShardForTraj(0, n) == 0
  {}

  /** Consecutive ids go to consecutive shards, from the last one back to the first. */
  lemma ShardNext(t: u64, n: u32)
    requires n > 0 && t < U64_MAX
    ensures ShardForTraj(t + 1, n) == if ShardForTraj(t, n) == n - 1 then 0 else ShardForTraj(t, n) + 1
  {
    var q, s := t / n, t % n;
    assert t == q * n + s;
    if s == n - 1 {
      Remainder(q + 1, n, 0);
    } else {
      Remainder(q, n, s + 1);
    }
  }

  lemma Remainder(q: nat, n: nat, s: nat)
    requires s < n
    ensures (q * n + s) % n == s
  {
    var x := q * n + s;
    Unique(x / n, x % n, q, s, n);
  }

  lemma Unique(d: nat, m: nat, q: nat, s: nat, n: nat)
    requires m < n && s < n && d * n + m == q * n + s
    ensures m == s
  {
    if d > q {
      Gap(d, q, n);
    } else if d < q {
      Gap(q, d, n);
    }
  }

  lemma Gap(d: nat, q: nat, n: nat)
    requires d > q
    ensures d * n >= q * n + n
  {
    assert d * n == q * n + (d - q) * n;
    assert (d - q - 1) * n >= 0;
  }

  /** From any id on, the next shards in turn. */
  lemma {:induction false} ShardAfter(t: u64, n: u32, k: nat)
    requires n > 0 && k < n && t + k <= U64_MAX
    ensures var s := ShardForTraj(t, n);
      ShardForTraj(t + k, n) == if s + k < n then s + k else s + k - n
  {
    hide ShardForTraj;
    if k > 0 {
      ShardAfter(t, n, k - 1);
      ShardNext(t + (k - 1), n);
    }
  }

  /** Ids that are the shard count apart share a shard. */
  lemma ShardRepeats(t: u64, n: u32)
    requires n > 0 && t + n <= U64_MAX
    ensures ShardForTraj(t + n, n) == ShardForTraj(t, n)
  {
    hide ShardForTraj;
    ShardAfter(t, n, n - 1);
    ShardNext(t + (n - 1), n);
  }

  /** Any run of as many ids as there are shards visits each shard exactly once. */
  lemma ShardOnce(t: u64, n: u32, s: u32) returns (x: u64)
    requires s < n && t + (n - 1) <= U64_MAX
    ensures t <= x < t + n && ShardForTraj(x, n) == s
    ensures forall y: u64 :: t <= y < t + n && ShardForTraj(y, n) == s ==> y == x
  {
    hide ShardForTraj;
    var first := ShardForTraj(t, n);
    var k := if s >= first then s - first else s + n - first;
    ShardAfter(t, n, k);
    x := t + k;
    forall y: u64 | t <= y < t + n && ShardForTraj(y, n) == s ensures y == x {
      ShardAfter(t, n, y - t);
    }
  }
}
