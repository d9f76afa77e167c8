/** The replicas behave as one copy: the mutations of all pods form one sequence, each is
    applied to the result of all the earlier ones, and readers see a prefix of it. */
module ProtocolSingleCopy {
  import opened Basics
  import opened Consistency
  import opened Protocol
  import opened ProtocolInvariant
  import opened ProtocolValues
  import opened ProtocolTheorems

  datatype Label = Label(pod: PodId, action: Action)

  /** `r` is the run that the labelled steps produce. */
  ghost predicate IsLabelledRun(r: seq<State>, steps: seq<Label>) {
    && |r| == |steps| + 1
    && Init(r[0])
    && forall k :: 0 <= k < |steps| ==> LabelledStep(r[k], steps[k], r[k + 1])
  }

  ghost predicate LabelledStep(s: State, l: Label, s': State) {
    Possible(s, l.pod, l.action) && s' == Apply(s, l.pod, l.action)
  }

  /** The mutations among the steps, by all pods, in the order in which they happen. */
  function Mutations(steps: seq<Label>): Value {
    if steps == [] then []
    else
      var last := steps[|steps| - 1].action;
      Mutations(steps[..|steps| - 1]) + if last.Mutate? then [last.op] else []
  }

  /** `v` is the state of the shared object: that of the active writer, or else what was
      released last. */
  ghost predicate IsLatest(s: State, v: Value) {
    && (forall p :: 0 <= p < |s.pods| && s.pods[p].client.Writing? ==> s.pods[p].obj.rsc == v)
    && ((forall p :: 0 <= p < |s.pods| ==> !s.pods[p].client.Writing?) ==> v == Released(s.log, |s.log|))
  }

  /** While nobody writes and nobody releases, the latest state stays. */
  lemma LatestKept(s: State, p: PodId, a: Action, v: Value)
    requires Values(s) && IsLatest(s, v) && Possible(s, p, a) && !a.Mutate? && !a.ReleaseWrite?
    requires s.pods[p].client.Writing? == Apply(s, p, a).pods[p].client.Writing?
    requires s.pods[p].client.Writing? ==> Apply(s, p, a).pods[p].obj.rsc == s.pods[p].obj.rsc
    requires forall i :: |s.log| <= i < |Apply(s, p, a).log| ==> !Apply(s, p, a).log[i].Invalidate?
    ensures IsLatest(Apply(s, p, a), v)
  {
    var s' := Apply(s, p, a);
    var out := s'.log[|s.log|..];
    assert s'.log == s.log + out;
    Append(s.log, out);
    NoInvalidatesIn(s'.log, |s.log|, |s'.log|);
    if forall q :: 0 <= q < |s'.pods| ==> !s'.pods[q].client.Writing? {
      forall q | 0 <= q < |s.pods| ensures !s.pods[q].client.Writing? {
        assert q == p || s'.pods[q] == s.pods[q];
      }
    }
  }

  lemma DeliveryKeepsWriter(s: State, p: PodId)
    requires Values(s) && Possible(s, p, Deliver)
    ensures Delivered(s, p).pods[p].client == s.pods[p].client
    ensures s.pods[p].client.Writing? ==> Delivered(s, p).pods[p].obj.rsc == s.pods[p].obj.rsc
    ensures forall i :: |s.log| <= i < |Delivered(s, p).log| ==> !Delivered(s, p).log[i].Invalidate?
  {
    var c := s.pods[p].cursor;
    var m := s.log[c];
    assert HolderAt(s, p) && PodValue(s, p);
    if IsReply(m) && m.to == p {
      assert FliesTo(s, c, p);
    } else if !IsRequest(m) && Addressed(m, p) {
      HandlerKeepsValue(s.pods[p].obj, m);
    }
    if !IsRequest(m) {
      HandlerSendsNoToken(s.pods[p].obj, m);
    }
  }

  lemma TicketKeepsWriter(s: State, p: PodId, t: nat)
    requires Values(s) && Possible(s, p, Run(t))
    ensures TicketRun(s, p, t).pods[p].client == s.pods[p].client
    ensures TicketRun(s, p, t).pods[p].obj.rsc == s.pods[p].obj.rsc
    ensures forall i :: |s.log| <= i < |TicketRun(s, p, t).log| ==> !TicketRun(s, p, t).log[i].Invalidate?
  {
    var m := s.log[s.pods[p].tickets[t].pos];
    TicketKeepsValue(s.pods[p].obj, m);
    TicketSends(s.pods[p].obj, m);
  }

  /** A pod that starts to write starts from the latest state. */
  lemma StartFromLatest(s: State, p: PodId, a: Action, v: Value)
    requires Values(s) && IsLatest(s, v) && Possible(s, p, a) && (a.AcquireWrite? || a.Resume?)
    requires !s.pods[p].client.Writing? && Apply(s, p, a).pods[p].client.Writing?
    ensures IsLatest(Apply(s, p, a), v)
  {
    assert s.pods[p].obj.token;
    NobodyElseWrites(s, p);
    HolderIsCurrent(s, p);
  }

  lemma NobodyElseWrites(s: State, p: PodId)
    requires Values(s) && p < |s.pods| && s.pods[p].obj.token
    ensures forall q :: 0 <= q < |s.pods| && q != p ==> !s.pods[q].client.Writing?
  {
    forall q | 0 <= q < |s.pods| && q != p ensures !s.pods[q].client.Writing? {
      OthersDoNotWrite(s, p, q);
    }
  }

  lemma WriterLatest(s: State, p: PodId, a: Action, v: Value)
    requires Values(s) && IsLatest(s, v) && Possible(s, p, a) && (a.Mutate? || a.ReleaseWrite?)
    ensures s.pods[p].obj.rsc == v
    ensures IsLatest(Apply(s, p, a), v + if a.Mutate? then [a.op] else [])
  {
    var s' := Apply(s, p, a);
    assert PodValue(s, p);
    NobodyElseWrites(s, p);
    assert s'.pods[p].client.Writing? <==> a.Mutate?;
    if a.ReleaseWrite? {
      assert s'.log[|s.log|] == Invalidate(s.pods[p].obj.self, v);
      assert Released(s'.log, |s'.log|) == v;
    }
    assert v + [] == v;
  }

  lemma LatestStep(s: State, p: PodId, a: Action, v: Value)
    requires Values(s) && IsLatest(s, v) && Possible(s, p, a)
    ensures a.Mutate? ==> s.pods[p].obj.rsc == v
    ensures IsLatest(Apply(s, p, a), v + if a.Mutate? then [a.op] else [])
  {
    assert v + [] == v;
    match a
    case Mutate(_) => WriterLatest(s, p, a, v);
    case ReleaseWrite => WriterLatest(s, p, a, v);
    case Deliver =>
      DeliveryKeepsWriter(s, p);
      LatestKept(s, p, a, v);
    case Run(t) =>
      TicketKeepsWriter(s, p, t);
      LatestKept(s, p, a, v);
    case _ =>
      if Apply(s, p, a).pods[p].client.Writing? {
        StartFromLatest(s, p, a, v);
      } else {
        LatestKept(s, p, a, v);
      }
  }

  lemma LabelledIsRun(r: seq<State>, steps: seq<Label>)
    requires IsLabelledRun(r, steps)
    ensures IsFreeRun(r)
  {
    forall k | 0 < k < |r| ensures FreeNext(r[k - 1], r[k]) {
      assert LabelledStep(r[k - 1], steps[k - 1], r[k - 1 + 1]);
    }
  }

  lemma {:induction false} LatestHolds(r: seq<State>, steps: seq<Label>, k: nat)
    requires IsLabelledRun(r, steps) && k < |r|
    ensures IsLatest(r[k], Mutations(steps[..k]))
  {
    LabelledIsRun(r, steps);
    if k > 0 {
      LatestHolds(r, steps, k - 1);
      ValuesHold(r, k - 1);
      assert LabelledStep(r[k - 1], steps[k - 1], r[k - 1 + 1]);
      LatestStep(r[k - 1], steps[k - 1].pod, steps[k - 1].action, Mutations(steps[..k - 1]));
      assert steps[..k][..k - 1] == steps[..k - 1];
    }
  }

  /** Every mutation acts on the result of all mutations before it, whichever pods made
      them: the replicas are indistinguishable from one shared object. */
  lemma MutationsActOnOneCopy(r: seq<State>, steps: seq<Label>, k: nat)
    requires IsLabelledRun(r, steps) && k < |steps| && steps[k].action.Mutate?
    ensures steps[k].pod < |r[k].pods| && r[k].pods[steps[k].pod].obj.rsc == Mutations(steps[..k])
  {
    LatestHolds(r, steps, k);
    LabelledIsRun(r, steps);
    ValuesHold(r, k);
    assert LabelledStep(r[k], steps[k], r[k + 1]);
    LatestStep(r[k], steps[k].pod, steps[k].action, Mutations(steps[..k]));
  }

  /** Whatever a pod holds outside a write section is a prefix of the mutations so far; it
      is all of them when nobody is writing and the pod holds the token. */
  lemma ReplicasArePrefixes(r: seq<State>, steps: seq<Label>, k: nat, p: PodId)
    requires IsLabelledRun(r, steps) && k < |r| && p < |r[k].pods|
    ensures r[k].pods[p].obj.rsc <= Mutations(steps[..k])
    ensures r[k].pods[p].obj.token ==> r[k].pods[p].obj.rsc == Mutations(steps[..k])
  {
    LatestHolds(r, steps, k);
    LabelledIsRun(r, steps);
    ValuesHold(r, k);
    LatestBounds(r[k], p, Mutations(steps[..k]));
  }

  lemma LatestBounds(s: State, p: PodId, v: Value)
    requires Values(s) && IsLatest(s, v) && p < |s.pods|
    ensures s.pods[p].obj.rsc <= v && (s.pods[p].obj.token ==> s.pods[p].obj.rsc == v)
  {
    assert PodValue(s, p);
    if s.pods[p].obj.token {
      NobodyElseWrites(s, p);
    }
    if !s.pods[p].client.Writing? && exists q :: 0 <= q < |s.pods| && s.pods[q].client.Writing? {
      var q :| 0 <= q < |s.pods| && s.pods[q].client.Writing?;
      assert PodValue(s, q);
    }
  }

  // ---- which step made which mutation -------------------------------------------------

  /** The step that made mutation `i`. */
  lemma {:induction false} MutationFrom(steps: seq<Label>, k: nat, i: nat) returns (j: nat)
    requires k <= |steps| && i < |Mutations(steps[..k])|
    ensures j < k && steps[j].action == Mutate(Mutations(steps[..k])[i]) && |Mutations(steps[..j])| == i
  {
    assert steps[..k][..k - 1] == steps[..k - 1];
    if i < |Mutations(steps[..k - 1])| {
      j := MutationFrom(steps, k - 1, i);
    } else {
      j := k - 1;
    }
  }

  lemma {:induction false} MutationsGrow(steps: seq<Label>, j: nat, k: nat)
    requires j <= k <= |steps|
    ensures Mutations(steps[..j]) <= Mutations(steps[..k])
    decreases k
  {
    if j < k {
      MutationsGrow(steps, j, k - 1);
      assert steps[..k][..k - 1] == steps[..k - 1];
    }
  }

  lemma MutationAt(steps: seq<Label>, k: nat)
    requires k < |steps| && steps[k].action.Mutate?
    ensures steps[k].action.op in Mutations(steps)
  {
    assert steps[..k + 1][..k] == steps[..k] && steps[..|steps|] == steps;
    var v := Mutations(steps[..k + 1]);
    assert v[|v| - 1] == steps[k].action.op;
    MutationsGrow(steps, k + 1, |steps|);
  }

  /** Different numbers from 0 to `n - 1`. */
  ghost predicate Distinct(v: Value, n: nat) {
    && (forall i :: 0 <= i < |v| ==> 0 <= v[i] < n)
    && (forall i, j :: 0 <= i < j < |v| ==> v[i] != v[j])
  }

  lemma {:induction false} DistinctElements(v: Value, n: nat)
    requires Distinct(v, n)
    ensures |set x | x in v| == |v| <= n
  {
    var all := set x | x in v;
    if v == [] {
      assert all == {};
    } else {
      var last := |v| - 1;
      DistinctElements(v[..last], n);
      assert all == (set x | x in v[..last]) + {v[last]};
    }
    assert all <= Below(n);
    SubsetSize(all, Below(n));
  }
}
