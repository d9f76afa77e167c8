/** The pods of a closure add their shares to one replicated total: the outcome is the plain sum
    over all entries. */
module SharedTotal {
  import opened Basics
  import opened Consistency
  import opened Protocol
  import opened ProtocolInvariant
  import opened ProtocolValues
  import opened ProtocolSingleCopy
  import opened Ranges

  /** Pod `p` adds `shares[p]` in a write section, once, and nobody else writes. */
  ghost predicate EachPodAddsOnce(steps: seq<Label>, shares: seq<int>) {
    && (forall k :: 0 <= k < |steps| && steps[k].action.Mutate? ==>
          steps[k].pod < |shares| && steps[k].action.op == shares[steps[k].pod])
    && (forall j, k :: 0 <= j < k < |steps| && steps[j].action.Mutate? && steps[k].action.Mutate? ==>
          steps[j].pod != steps[k].pod)
    && (forall p :: 0 <= p < |shares| ==> Adds(steps, p))
  }

  ghost predicate Adds(steps: seq<Label>, p: nat) {
    exists k :: 0 <= k < |steps| && steps[k].action.Mutate? && steps[k].pod == p
  }

  /** The pods that add, in the order in which they do. */
  function Adders(steps: seq<Label>): (s: seq<int>)
    ensures |s| == |Mutations(steps)|
  {
    if steps == [] then []
    else
      var last := steps[|steps| - 1];
      Adders(steps[..|steps| - 1]) + if last.action.Mutate? then [last.pod] else []
  }

  lemma {:induction false} AdderFrom(steps: seq<Label>, n: nat, i: nat) returns (k: nat)
    requires n <= |steps| && i < |Adders(steps[..n])|
    ensures k < n && steps[k].action.Mutate? && |Mutations(steps[..k])| == i
    ensures Adders(steps[..n])[i] == steps[k].pod && Mutations(steps[..n])[i] == steps[k].action.op
  {
    assert steps[..n][..n - 1] == steps[..n - 1];
    if i < |Adders(steps[..n - 1])| {
      k := AdderFrom(steps, n - 1, i);
    } else {
      k := n - 1;
    }
  }

  lemma {:induction false} AdderListed(steps: seq<Label>, n: nat, k: nat)
    requires k < n <= |steps| && steps[k].action.Mutate?
    ensures steps[k].pod in Adders(steps[..n])
  {
    assert steps[..n][..n - 1] == steps[..n - 1];
    if k == n - 1 {
      assert Adders(steps[..n])[|Adders(steps[..n])| - 1] == steps[k].pod;
    } else {
      AdderListed(steps, n - 1, k);
    }
  }

  /** Every pod is an adder, once, and the mutations are their shares. */
  lemma AddersAreAll(steps: seq<Label>, shares: seq<int>)
    requires EachPodAddsOnce(steps, shares)
    ensures Distinct(Adders(steps), |shares|) && |Adders(steps)| == |shares|
    ensures forall i :: 0 <= i < |shares| ==> Mutations(steps)[i] == shares[Adders(steps)[i]]
  {
    var s := Adders(steps);
    assert steps[..|steps|] == steps;
    forall i | 0 <= i < |s| ensures 0 <= s[i] < |shares| && Mutations(steps)[i] == shares[s[i]] {
      var k := AdderFrom(steps, |steps|, i);
    }
    forall i, j | 0 <= i < j < |s| ensures s[i] != s[j] {
      var a := AdderFrom(steps, |steps|, i);
      var b := AdderFrom(steps, |steps|, j);
      assert a != b;
    }
    DistinctElements(s, |shares|);
    forall p | p in Below(|shares|) ensures p in s {
      assert Adds(steps, p);
      var k :| 0 <= k < |steps| && steps[k].action.Mutate? && steps[k].pod == p;
      AdderListed(steps, |steps|, k);
    }
    SubsetSize(Below(|shares|), set x | x in s);
  }

  /** The shares in another order have the same sum. */
  lemma {:induction false} SumPermuted(s: seq<int>, shares: seq<int>, v: seq<int>)
    requires Distinct(s, |shares|) && |s| == |shares| == |v|
    requires forall i :: 0 <= i < |v| ==> v[i] == shares[s[i]]
    ensures Sum(v) == Sum(shares)
  {
    if shares != [] {
      var n := |shares| - 1;
      var i := Missing(s, n);
      var s', v' := s[..i] + s[i + 1..], v[..i] + v[i + 1..];
      SumMinus(v, v[..i], v[i], v[i + 1..]);
      assert v == v[..i] + [v[i]] + v[i + 1..];
      SumPermuted(s', shares[..n], v');
    }
  }

  /** Too many different numbers to be all below `n`. */
  lemma Missing(s: seq<int>, n: nat) returns (i: nat)
    requires Distinct(s, n + 1) && |s| == n + 1
    ensures i < |s| && s[i] == n
  {
    if n !in s {
      DistinctElements(s, n);
    }
    i :| 0 <= i < |s| && s[i] == n;
  }

  lemma MutationsAddUp(steps: seq<Label>, shares: seq<int>)
    requires EachPodAddsOnce(steps, shares)
    ensures Sum(Mutations(steps)) == Sum(shares)
  {
    AddersAreAll(steps, shares);
    SumPermuted(Adders(steps), shares, Mutations(steps));
  }

  lemma SharesAddUp(files: seq<seq<int>>, first: nat, last: nat, pods: nat, agents: nat)
    requires first <= last <= |files| && 0 < pods && 0 < agents
    ensures Sum(Partials(files, first, last, pods, agents, pods)) == Sum(FileSums(files[first..last]))
  {
    TotalIsSequentialSum(files, first, last, pods, agents, Partials(files, first, last, pods, agents, pods));
  }

  /** The token holder and whoever is up to date have all mutations. */
  lemma HasAllMutations(r: seq<State>, steps: seq<Label>, p: PodId)
    requires IsLabelledRun(r, steps) && p < |r[|steps|].pods|
    requires r[|steps|].pods[p].obj.token || UpToDate(r[|steps|], p)
    ensures r[|steps|].pods[p].obj.rsc == Mutations(steps)
  {
    var s := r[|steps|];
    assert steps[..|steps|] == steps;
    ReplicasArePrefixes(r, steps, |steps|, p);
    if UpToDate(s, p) {
      LatestHolds(r, steps, |steps|);
      LabelledIsRun(r, steps);
      ValuesHold(r, |steps|);
      assert PodValue(s, p);
    }
  }

  /** Each pod adds the sum of its agents over its part of the files, inside a write section of
      the replicated total. Then the total is the plain sum of all entries of all files: at the
      pod that holds the token, and at any pod with a valid replica once all writers have
      released and their invalidations are delivered. */
  lemma TotalIsShared(r: seq<State>, steps: seq<Label>, files: seq<seq<int>>, first: nat, last: nat,
                      pods: nat, agents: nat, p: PodId)
    requires IsLabelledRun(r, steps) && p < |r[|steps|].pods|
    requires first <= last <= |files| && 0 < pods && 0 < agents
    requires EachPodAddsOnce(steps, Partials(files, first, last, pods, agents, pods))
    ensures Sum(Mutations(steps)) == Sum(FileSums(files[first..last]))
    ensures r[|steps|].pods[p].obj.token || UpToDate(r[|steps|], p) ==>
              Sum(r[|steps|].pods[p].obj.rsc) == Sum(FileSums(files[first..last]))
  {
    MutationsAddUp(steps, Partials(files, first, last, pods, agents, pods));
    SharesAddUp(files, first, last, pods, agents);
    if r[|steps|].pods[p].obj.token || UpToDate(r[|steps|], p) {
      HasAllMutations(r, steps, p);
    }
  }

  /** After that, a read on any pod that has been delivered everything returns the plain sum. */
  lemma FinalReadIsSequentialSum(r: seq<State>, steps: seq<Label>, files: seq<seq<int>>, first: nat, last: nat,
                                 pods: nat, agents: nat, p: PodId, a: Action)
    requires IsLabelledRun(r, steps) && Possible(r[|steps|], p, a)
    requires first <= last <= |files| && 0 < pods && 0 < agents
    requires EachPodAddsOnce(steps, Partials(files, first, last, pods, agents, pods))
    requires forall q :: 0 <= q < |r[|steps|].pods| ==> !r[|steps|].pods[q].client.Writing?
    requires r[|steps|].pods[p].cursor == |r[|steps|].log|
    requires !r[|steps|].pods[p].client.Reading? && Apply(r[|steps|], p, a).pods[p].client.Reading?
    ensures Sum(Apply(r[|steps|], p, a).pods[p].obj.rsc) == Sum(FileSums(files[first..last]))
  {
    assert a.AcquireRead? || a.Resume?;
    assert UpToDate(r[|steps|], p);
    TotalIsShared(r, steps, files, first, last, pods, agents, p);
  }

  /** Nobody writes, and the pod has a valid replica and has been delivered everything. */
  ghost predicate UpToDate(s: State, p: PodId)
    requires p < |s.pods|
  {
    && s.pods[p].obj.validity && s.pods[p].cursor == |s.log|
    && forall q :: 0 <= q < |s.pods| ==> !s.pods[q].client.Writing?
  }
}
