/** The even split of a range among agents, and the two-level sum built on it: a range of files
    is split over the pods of a closure, and the entries of a pod's files over its agents. */
module Ranges {
  // ---- one split ------------------------------------------------------------------

  /** Where part number `rank` starts when every part has `d` items and the first `r` parts
      have one more. */
  function PartStart(begin: nat, d: nat, r: nat, rank: nat): nat {
    if rank == 0 then begin else PartStart(begin, d, r, rank - 1) + d + if rank - 1 < r then 1 else 0
  }

  lemma {:induction false} PartStartClosed(begin: nat, d: nat, r: nat, rank: nat)
    ensures PartStart(begin, d, r, rank) == begin + rank * d + if rank < r then rank else r
  {
    if rank > 0 {
      PartStartClosed(begin, d, r, rank - 1);
      assert rank * d == (rank - 1) * d + d;
    }
  }

  /** Where the part of an agent with this rank starts; rank `n` stands for the end. */
  function Bound(begin: nat, end: nat, n: nat, rank: nat): nat
    requires begin <= end && 0 < n
  {
    PartStart(begin, (end - begin) / n, (end - begin) % n, rank)
  }

  /** The range of `std::size_t`. */
  const SIZE_LIMIT: nat := 0x1_0000_0000_0000_0000

  /** `AgentRange` with the rank and the number of members of the agent's group. Sizes wrap
      around, which no part of a range that does not run backwards ever notices. */
  method AgentRange(begin: nat, end: nat, n: nat, rank: nat) returns (b: nat, e: nat)
    requires begin < SIZE_LIMIT && end < SIZE_LIMIT && 0 < n
    ensures var size := (end - begin) % SIZE_LIMIT;
      && b == PartStart(begin, size / n, size % n, rank) % SIZE_LIMIT
      && e == PartStart(begin, size / n, size % n, rank + 1) % SIZE_LIMIT
    ensures begin <= end && rank < n ==> b == Bound(begin, end, n, rank) && e == Bound(begin, end, n, rank + 1)
  {
    var size := (end - begin) % SIZE_LIMIT;
    b, e := SplitLoop(begin, size / n, size % n, rank + 1);
    if begin <= end && rank < n {
      SmallRange(begin, end);
      InRange(begin, end, n, rank);
      InRange(begin, end, n, rank + 1);
    }
  }

  lemma SmallRange(begin: nat, end: nat)
    requires begin <= end < SIZE_LIMIT
    ensures (end - begin) % SIZE_LIMIT == end - begin
  {}

  lemma InRange(begin: nat, end: nat, n: nat, rank: nat)
    requires begin <= end < SIZE_LIMIT && 0 < n && rank <= n
    ensures Bound(begin, end, n, rank) <= end
    ensures Bound(begin, end, n, rank) % SIZE_LIMIT == Bound(begin, end, n, rank)
  {
    BoundsGrow(begin, end, n, rank, n);
    PartsCover(begin, end, n, 0);
  }

  lemma AddWrapped(x: nat, y: nat)
    ensures (x % SIZE_LIMIT + y) % SIZE_LIMIT == (x + y) % SIZE_LIMIT
  {}

  /** Its loop. */
  method SplitLoop(begin: nat, d: nat, r0: nat, rank: nat) returns (b: nat, e: nat)
    requires rank > 0 && begin < SIZE_LIMIT
    ensures b == PartStart(begin, d, r0, rank - 1) % SIZE_LIMIT && e == PartStart(begin, d, r0, rank) % SIZE_LIMIT
  {
    var r := r0;
    b, e := begin, begin;
    for i := 1 to rank + 1
      invariant r == if i - 1 < r0 then r0 - (i - 1) else 0
      invariant e == PartStart(begin, d, r0, i - 1) % SIZE_LIMIT
      invariant i > 1 ==> b == PartStart(begin, d, r0, i - 2) % SIZE_LIMIT
    {
      AddWrapped(PartStart(begin, d, r0, i - 1), d);
      AddWrapped(PartStart(begin, d, r0, i - 1) + d, 1);
      b := e;
      e := (b + d) % SIZE_LIMIT;
      if r != 0 {
        e := (e + 1) % SIZE_LIMIT;
        r := r - 1;
      }
    }
  }

  /** Each part ends where the next begins, the first part begins and the last ends with the
      range, and lengths differ by at most one, longer parts first. */
  lemma PartsCover(begin: nat, end: nat, n: nat, rank: nat)
    requires begin <= end && rank < n
    ensures Bound(begin, end, n, 0) == begin && Bound(begin, end, n, n) == end
    ensures Bound(begin, end, n, rank + 1) - Bound(begin, end, n, rank)
         == (end - begin) / n + if rank < (end - begin) % n then 1 else 0
  {
    PartStartClosed(begin, (end - begin) / n, (end - begin) % n, n);
    DivMod(end - begin, n);
  }

  lemma DivMod(size: nat, n: nat)
    requires 0 < n
    ensures size == n * (size / n) + size % n && size % n < n
  {}

  lemma {:induction false} StartsGrow(begin: nat, d: nat, r: nat, a: nat, b: nat)
    requires a <= b
    ensures PartStart(begin, d, r, a) <= PartStart(begin, d, r, b)
    decreases b
  {
    if a < b {
      StartsGrow(begin, d, r, a, b - 1);
    }
  }

  lemma BoundsGrow(begin: nat, end: nat, n: nat, a: nat, b: nat)
    requires begin <= end && a <= b <= n && 0 < n
    ensures Bound(begin, end, n, a) <= Bound(begin, end, n, b)
  {
    StartsGrow(begin, (end - begin) / n, (end - begin) % n, a, b);
  }

  /** Every item of the range is in exactly one part. */
  lemma {:induction false} InExactlyOnePart(begin: nat, end: nat, n: nat, x: nat, upTo: nat) returns (rank: nat)
    requires begin <= end && 0 < upTo <= n && begin <= x < Bound(begin, end, n, upTo)
    ensures rank < upTo && Bound(begin, end, n, rank) <= x < Bound(begin, end, n, rank + 1)
    ensures forall k :: 0 <= k < n && k != rank ==> !(Bound(begin, end, n, k) <= x < Bound(begin, end, n, k + 1))
  {
    if x >= Bound(begin, end, n, upTo - 1) {
      rank := upTo - 1;
      forall k | 0 <= k < n && k != rank ensures !(Bound(begin, end, n, k) <= x < Bound(begin, end, n, k + 1)) {
        if k < rank {
          BoundsGrow(begin, end, n, k + 1, rank);
        } else {
          BoundsGrow(begin, end, n, rank + 1, k);
        }
      }
    } else {
      PartsCover(begin, end, n, 0);
      rank := InExactlyOnePart(begin, end, n, x, upTo - 1);
    }
  }

  // ---- sums -----------------------------------------------------------------------

  /** The sum of the numbers: with `SumConcat` it is settled by what it is for one number. */
  function Sum(s: seq<int>): (r: int)
    ensures |s| == 0 ==> r == 0
    ensures |s| == 1 ==> r == s[0]
  {
    if s == [] then 0 else Sum(s[..|s| - 1]) + s[|s| - 1]
  }

  lemma {:induction false} SumConcat(s: seq<int>, t: seq<int>)
    ensures Sum(s + t) == Sum(s) + Sum(t)
  {
    if t == [] {
      assert s + t == s;
    } else {
      assert (s + t)[..|s + t| - 1] == s + t[..|t| - 1];
      SumConcat(s, t[..|t| - 1]);
    }
  }

  lemma SumMinus(t: seq<int>, l: seq<int>, x: int, r: seq<int>)
    requires t == l + [x] + r
    ensures Sum(t) == Sum(l + r) + x
    ensures multiset(t) - multiset{x} == multiset(l + r)
  {
    SumConcat(l + [x], r);
    SumConcat(l, r);
    assert (l + [x])[..|l|] == l;
  }

  /** The order of the numbers does not matter. */
  lemma {:induction false} SumAnyOrder(s: seq<int>, t: seq<int>)
    requires multiset(s) == multiset(t)
    ensures Sum(s) == Sum(t)
  {
    if s == [] {
      assert |t| == |multiset(t)| == 0;
    } else {
      var k := |s| - 1;
      assert s[k] in multiset(s);
      var i :| 0 <= i < |t| && t[i] == s[k];
      SumMinus(s, s[..k], s[k], s[k + 1..]);
      SumMinus(t, t[..i], t[i], t[i + 1..]);
      SumAnyOrder(s[..k] + s[k + 1..], t[..i] + t[i + 1..]);
    }
  }

  /** `ProcessChain` over the entries `[b, e)` of a chain. It stops, with an error and the sum
      so far, at the first entry that cannot be read. */
  method ProcessChain(chain: seq<int>, readable: seq<bool>, b: nat, e: nat) returns (intSum: int, ghost stop: nat)
    requires b <= e <= |chain| == |readable|
    ensures b <= stop <= e && intSum == Sum(chain[b..stop])
    ensures (forall i :: b <= i < stop ==> readable[i]) && (stop < e ==> !readable[stop])
    ensures (forall i :: b <= i < e ==> readable[i]) ==> intSum == Sum(chain[b..e])
  {
    intSum, stop := 0, b;
    for entry := b to e
      invariant stop == entry && intSum == Sum(chain[b..entry])
      invariant forall i :: b <= i < entry ==> readable[i]
    {
      if !readable[entry] {
        return;
      }
      assert chain[b..entry + 1][..entry - b] == chain[b..entry];
      intSum, stop := intSum + chain[entry], stop + 1;
    }
  }

  /** The sum of part `k` of a chain split over `n` agents. */
  function PartSum(chain: seq<int>, n: nat, k: nat): (r: int)
    requires k < n
    ensures var b, e := Bound(0, |chain|, n, k), Bound(0, |chain|, n, k + 1);
      b <= e <= |chain| && r == Sum(chain[b..e])
  {
    BoundsGrow(0, |chain|, n, k, k + 1);
    BoundsGrow(0, |chain|, n, k + 1, n);
    PartsCover(0, |chain|, n, k);
    Sum(chain[Bound(0, |chain|, n, k)..Bound(0, |chain|, n, k + 1)])
  }

  /** The first `k` entries of the vector in which the agents leave their sums. */
  function PartSums(chain: seq<int>, n: nat, k: nat): (sums: seq<int>)
    requires k <= n
    ensures |sums| == k && forall i :: 0 <= i < k ==> sums[i] == PartSum(chain, n, i)
  {
    seq(k, i requires 0 <= i < n => PartSum(chain, n, i))
  }

  lemma {:induction false} PrefixOfParts(chain: seq<int>, n: nat, k: nat)
    requires k <= n && 0 < n
    ensures Bound(0, |chain|, n, k) <= |chain|
    ensures Sum(PartSums(chain, n, k)) == Sum(chain[..Bound(0, |chain|, n, k)])
  {
    BoundsGrow(0, |chain|, n, k, n);
    PartsCover(0, |chain|, n, 0);
    if k > 0 {
      PrefixOfParts(chain, n, k - 1);
      BoundsGrow(0, |chain|, n, k - 1, k);
      AddPart(chain, Bound(0, |chain|, n, k - 1), Bound(0, |chain|, n, k));
      LastPart(chain, n, k - 1);
    }
  }

  lemma LastPart(chain: seq<int>, n: nat, k: nat)
    requires k < n
    ensures Sum(PartSums(chain, n, k + 1)) == Sum(PartSums(chain, n, k)) + PartSum(chain, n, k)
  {
    assert PartSums(chain, n, k + 1)[..k] == PartSums(chain, n, k);
  }

  lemma AddPart(chain: seq<int>, b: nat, e: nat)
    requires b <= e <= |chain|
    ensures Sum(chain[..e]) == Sum(chain[..b]) + Sum(chain[b..e])
  {
    assert chain[..e] == chain[..b] + chain[b..e];
    SumConcat(chain[..b], chain[b..e]);
  }

  /** The sums of a pool's agents add up to the sum of the chain. */
  lemma PoolSum(chain: seq<int>, n: nat)
    requires 0 < n
    ensures Sum(PartSums(chain, n, n)) == Sum(chain)
  {
    PrefixOfParts(chain, n, n);
    PartsCover(0, |chain|, n, 0);
    assert chain[..|chain|] == chain;
  }

  // ---- over all pods --------------------------------------------------------------

  function Chain(files: seq<seq<int>>): seq<int> {
    if files == [] then [] else Chain(files[..|files| - 1]) + files[|files| - 1]
  }

  lemma {:induction false} ChainConcat(s: seq<seq<int>>, t: seq<seq<int>>)
    ensures Chain(s + t) == Chain(s) + Chain(t)
  {
    if t == [] {
      assert s + t == s;
    } else {
      assert (s + t)[..|s + t| - 1] == s + t[..|t| - 1];
      ChainConcat(s, t[..|t| - 1]);
    }
  }

  /** The sum of each file on its own. */
  function FileSums(files: seq<seq<int>>): (sums: seq<int>)
    ensures |sums| == |files| && forall f :: 0 <= f < |files| ==> sums[f] == Sum(files[f])
  {
    seq(|files|, f requires 0 <= f < |files| => Sum(files[f]))
  }

  function FileLengths(files: seq<seq<int>>): (lengths: seq<int>)
    ensures |lengths| == |files| && forall f :: 0 <= f < |files| ==> lengths[f] == |files[f]|
  {
    seq(|files|, f requires 0 <= f < |files| => |files[f]|)
  }

  /** The chain holds every entry of every file, and nothing else: entry `j` of file `f` stands
      behind all entries of the files before `f` and `j` entries of its own. */
  lemma {:induction false} ChainEntries(files: seq<seq<int>>)
    ensures |Chain(files)| == Sum(FileLengths(files))
    ensures forall f, j :: 0 <= f < |files| && 0 <= j < |files[f]| ==> EntryAt(files, f, j)
  {
    if files != [] {
      var n := |files| - 1;
      ChainEntries(files[..n]);
      assert FileLengths(files)[..n] == FileLengths(files[..n]);
      forall f, j | 0 <= f < |files| && 0 <= j < |files[f]| ensures EntryAt(files, f, j) {
        assert files[..n][..if f < n then f else n] == files[..f];
        assert f < n ==> EntryAt(files[..n], f, j);
      }
    }
  }

  /** The chain has entry `j` of file `f` in its place. */
  ghost predicate EntryAt(files: seq<seq<int>>, f: nat, j: nat)
    requires f < |files| && j < |files[f]|
  {
    var at := Sum(FileLengths(files[..f])) + j;
    0 <= at < |Chain(files)| && Chain(files)[at] == files[f][j]
  }

  lemma {:induction false} ChainSum(files: seq<seq<int>>)
    ensures Sum(Chain(files)) == Sum(FileSums(files))
  {
    if files != [] {
      var n := |files| - 1;
      ChainSum(files[..n]);
      assert FileSums(files)[..n] == FileSums(files[..n]);
      SumConcat(Chain(files[..n]), files[n]);
    }
  }

  /** What pod `p` of `pods` adds to the shared total: the sums of its `agents` agents over its
      share of the files `[first, last)`, and so the sum of all entries of these files. */
  function Partial(files: seq<seq<int>>, first: nat, last: nat, pods: nat, agents: nat, p: nat): (r: int)
    requires first <= last <= |files| && p < pods && 0 < agents
    ensures var b, e := Bound(first, last, pods, p), Bound(first, last, pods, p + 1);
      first <= b <= e <= last && r == Sum(FileSums(files[b..e]))
  {
    BoundsGrow(first, last, pods, p, p + 1);
    BoundsGrow(first, last, pods, p + 1, pods);
    BoundsGrow(first, last, pods, 0, p);
    PartsCover(first, last, pods, p);
    var share := files[Bound(first, last, pods, p)..Bound(first, last, pods, p + 1)];
    PoolSum(Chain(share), agents);
    ChainSum(share);
    Sum(PartSums(Chain(share), agents, agents))
  }

  function Partials(files: seq<seq<int>>, first: nat, last: nat, pods: nat, agents: nat, k: nat): (sums: seq<int>)
    requires first <= last <= |files| && k <= pods && 0 < agents
    ensures |sums| == k && forall p :: 0 <= p < k ==> sums[p] == Partial(files, first, last, pods, agents, p)
  {
    seq(k, p requires 0 <= p < pods => Partial(files, first, last, pods, agents, p))
  }

  /** What the agent of this rank computes in `Initialize` and `ProcessChain`. */
  method AgentShare(chain: seq<int>, readable: seq<bool>, agents: nat, rank: nat) returns (intSum: int)
    requires |chain| == |readable| < SIZE_LIMIT && rank < agents
    ensures (forall i :: 0 <= i < |chain| ==> readable[i]) ==> intSum == PartSum(chain, agents, rank)
  {
    var b, e := AgentRange(0, |chain|, agents, rank);
    ghost var whole := PartSum(chain, agents, rank);
    ghost var stop;
    intSum, stop := ProcessChain(chain, readable, b, e);
  }

  /** What the pool of a pod computes: every agent leaves its sum in the vector. */
  method PoolShares(chain: seq<int>, readable: seq<bool>, agents: nat) returns (vec: seq<int>)
    requires |chain| == |readable| < SIZE_LIMIT && forall i :: 0 <= i < |chain| ==> readable[i]
    ensures vec == PartSums(chain, agents, agents)
  {
    vec := [];
    while |vec| < agents
      invariant |vec| <= agents && vec == PartSums(chain, agents, |vec|)
    {
      var intSum := AgentShare(chain, readable, agents, |vec|);
      vec := vec + [intSum];
    }
  }

  method Accumulate(vec: seq<int>) returns (total: int)
    ensures total == Sum(vec)
  {
    total := 0;
    for i := 0 to |vec|
      invariant total == Sum(vec[..i])
    {
      assert vec[..i + 1][..i] == vec[..i];
      total := total + vec[i];
    }
    assert vec[..|vec|] == vec;
  }

  /** What a pod does before it adds to the total, all its entries being readable. */
  method PodShare(files: seq<seq<int>>, first: nat, last: nat, pods: nat, agents: nat, p: nat) returns (partial: int)
    requires first <= last <= |files| < SIZE_LIMIT && p < pods && 0 < agents
    requires |Chain(files)| < SIZE_LIMIT
    ensures partial == Partial(files, first, last, pods, agents, p)
  {
    var b, e := AgentRange(first, last, pods, p);
    ghost var whole := Partial(files, first, last, pods, agents, p);
    ChainPart(files, b, e);
    var chain := Chain(files[b..e]);
    var vec := PoolShares(chain, seq(|chain|, _ => true), agents);
    partial := Accumulate(vec);
    assert partial == Sum(PartSums(chain, agents, agents));
  }

  lemma ChainPart(files: seq<seq<int>>, b: nat, e: nat)
    requires b <= e <= |files|
    ensures |Chain(files[b..e])| <= |Chain(files)|
  {
    assert files == files[..b] + files[b..e] + files[e..];
    ChainConcat(files[..b] + files[b..e], files[e..]);
    ChainConcat(files[..b], files[b..e]);
  }

  lemma NextPod(files: seq<seq<int>>, first: nat, last: nat, pods: nat, agents: nat, k: nat, b: nat, e: nat)
    requires first <= last <= |files| && k < pods && 0 < agents
    requires b == Bound(first, last, pods, k) && e == Bound(first, last, pods, k + 1) && first <= b <= e <= last
    requires Sum(Partials(files, first, last, pods, agents, k)) == Sum(Chain(files[first..b]))
    ensures Sum(Partials(files, first, last, pods, agents, k + 1)) == Sum(Chain(files[first..e]))
  {
    var s := Partials(files, first, last, pods, agents, k + 1);
    assert s[..k] == Partials(files, first, last, pods, agents, k);
    assert s[k] == Partial(files, first, last, pods, agents, k);
    AddPod(files, first, b, e, agents);
  }

  lemma {:induction false} PrefixOfPods(files: seq<seq<int>>, first: nat, last: nat, pods: nat, agents: nat, k: nat)
    requires first <= last <= |files| && k <= pods && 0 < pods && 0 < agents
    ensures first <= Bound(first, last, pods, k) <= last
    ensures Sum(Partials(files, first, last, pods, agents, k))
         == Sum(Chain(files[first..Bound(first, last, pods, k)]))
  {
    BoundsGrow(first, last, pods, k, pods);
    BoundsGrow(first, last, pods, 0, k);
    PartsCover(first, last, pods, 0);
    if k > 0 {
      PrefixOfPods(files, first, last, pods, agents, k - 1);
      BoundsGrow(first, last, pods, k - 1, k);
      NextPod(files, first, last, pods, agents, k - 1, Bound(first, last, pods, k - 1), Bound(first, last, pods, k));
    }
  }

  lemma AddPod(files: seq<seq<int>>, first: nat, b: nat, e: nat, agents: nat)
    requires first <= b <= e <= |files| && 0 < agents
    ensures Sum(Chain(files[first..b])) + Sum(PartSums(Chain(files[b..e]), agents, agents))
         == Sum(Chain(files[first..e]))
  {
    PoolSum(Chain(files[b..e]), agents);
    assert files[first..e] == files[first..b] + files[b..e];
    ChainConcat(files[first..b], files[b..e]);
    SumConcat(Chain(files[first..b]), Chain(files[b..e]));
  }

  /** In whatever order the pods add their shares, the total is the plain sum of all entries
      of all files, each taken once. */
  lemma TotalIsSequentialSum(files: seq<seq<int>>, first: nat, last: nat, pods: nat, agents: nat, added: seq<int>)
    requires first <= last <= |files| && 0 < pods && 0 < agents
    requires multiset(added) == multiset(Partials(files, first, last, pods, agents, pods))
    ensures Sum(added) == Sum(FileSums(files[first..last]))
  {
    ChainSum(files[first..last]);
    SumAnyOrder(added, Partials(files, first, last, pods, agents, pods));
    PrefixOfPods(files, first, last, pods, agents, pods);
    PartsCover(first, last, pods, 0);
  }
}
