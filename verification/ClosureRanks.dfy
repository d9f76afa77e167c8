/** Members joining one closure from different pods: the closure is a replicated resource,
    a join is one write section on it, and its ranks come out as for one shared table. */
module ClosureRanks {
  import opened Basics
  import opened Consistency
  import opened Protocol
  import opened ProtocolSingleCopy
  import opened Organizer

  /** The joins that a state of the resource stands for: mutation `op` is `joins[op]`. */
  function History(v: Value, joins: seq<Request>): (h: seq<Request>)
    ensures |h| == |v|
    ensures forall i :: 0 <= i < |v| && 0 <= v[i] < |joins| ==> h[i] == joins[v[i]]
  {
    seq(|v|, i requires 0 <= i < |v| => if 0 <= v[i] < |joins| then joins[v[i]] else Request(0, ""))
  }

  /** A write step is a join that passes the checks of `Join` on the pod's own replica. */
  ghost predicate JoinStep(s: State, l: Label, joins: seq<Request>) {
    l.action.Mutate? && l.pod < |s.pods| ==>
      && 0 <= l.action.op < |joins|
      && var req := joins[l.action.op];
         Admit(JoinAll(History(s.pods[l.pod].obj.rsc, joins)), req.idp, req.name).1.Joined?
  }

  ghost predicate IsJoinRun(r: seq<State>, steps: seq<Label>, joins: seq<Request>) {
    && IsLabelledRun(r, steps)
    && forall k :: 0 <= k < |steps| ==> JoinStep(r[k], steps[k], joins)
  }

  lemma {:induction false} HistoryAllJoin(r: seq<State>, steps: seq<Label>, joins: seq<Request>, k: nat)
    requires IsJoinRun(r, steps, joins) && k <= |steps|
    ensures AllJoin(History(Mutations(steps[..k]), joins))
  {
    if k > 0 {
      HistoryAllJoin(r, steps, joins, k - 1);
      var v := Mutations(steps[..k - 1]);
      assert steps[..k][..k - 1] == steps[..k - 1];
      if steps[k - 1].action.Mutate? {
        MutationsActOnOneCopy(r, steps, k - 1);
        assert JoinStep(r[k - 1], steps[k - 1], joins);
        ExtendAllJoin(v, steps[k - 1].action.op, joins);
      } else {
        assert v + [] == v;
      }
    }
  }

  lemma ExtendAllJoin(v: Value, op: int, joins: seq<Request>)
    requires AllJoin(History(v, joins)) && 0 <= op < |joins|
    requires Admit(JoinAll(History(v, joins)), joins[op].idp, joins[op].name).1.Joined?
    ensures AllJoin(History(v + [op], joins))
  {
    var g, h := History(v, joins), History(v + [op], joins);
    assert h[..|v|] == g;
    forall k | 0 <= k < |h| ensures JoinsAt(h, k) {
      if k < |v| {
        assert JoinsAt(g, k);
        assert h[..k] == g[..k] && h[k] == g[k];
      }
    }
  }

  /** The rank given by a join is the number of joins done before it by all pods together:
      concurrent joins get exactly the ranks 0, 1, 2, ... in the order in which they happen,
      and exactly one of them gets rank 0. */
  lemma RankIsNumberOfEarlierJoins(r: seq<State>, steps: seq<Label>, joins: seq<Request>, k: nat)
    requires IsJoinRun(r, steps, joins) && k < |steps| && steps[k].action.Mutate?
    requires |Mutations(steps[..k])| < IDM_LIMIT
    ensures steps[k].pod < |r[k].pods| && 0 <= steps[k].action.op < |joins|
    ensures var table := JoinAll(History(r[k].pods[steps[k].pod].obj.rsc, joins));
      var req := joins[steps[k].action.op];
      Admit(table, req.idp, req.name).1 == Joined(|Mutations(steps[..k])|)
  {
    HistoryAllJoin(r, steps, joins, k);
    MutationsActOnOneCopy(r, steps, k);
    assert JoinStep(r[k], steps[k], joins);
    RanksAreJoinOrder(History(Mutations(steps[..k]), joins));
  }

  /** The replica of pod `p` gives the member that joined as number `i` the rank `i`, and finds
      that member by its rank. */
  ghost predicate KnowsMember(r: seq<State>, steps: seq<Label>, joins: seq<Request>, k: nat, p: PodId, i: nat)
    requires |r| == |steps| + 1 && k < |r| && p < |r[k].pods| && i < |Mutations(steps[..k])|
  {
    var table := JoinAll(History(r[k].pods[p].obj.rsc, joins));
    var idp := History(Mutations(steps[..k]), joins)[i].idp;
    && idp in table.members && table.members[idp].idm == i
    && forall m :: m in table.members && table.members[m].idm == i ==> m == idp
  }

  lemma JoinedReplicasAgree(r: seq<State>, steps: seq<Label>, joins: seq<Request>, k: nat, p: PodId, i: nat)
    requires IsJoinRun(r, steps, joins) && k < |r| && p < |r[k].pods| && i < |r[k].pods[p].obj.rsc|
    requires |Mutations(steps[..k])| < IDM_LIMIT
    ensures i < |Mutations(steps[..k])| && KnowsMember(r, steps, joins, k, p, i)
  {
    ReplicasArePrefixes(r, steps, k, p);
    HistoryAllJoin(r, steps, joins, k);
    var v, w := r[k].pods[p].obj.rsc, Mutations(steps[..k]);
    var h, g := History(w, joins), History(v, joins);
    assert g == h[..|v|];
    AllJoinPrefix(h, |v|);
    RanksAreJoinOrder(g);
    assert MemberAt(JoinAll(g), g, i);
  }

  // ---- fresh members --------------------------------------------------------------

  predicate Apart(a: Request, b: Request) { a.idp != b.idp && StoredName(a.idp, a.name) != StoredName(b.idp, b.name) }

  /** Every join has an idp and a name of its own. */
  ghost predicate AllDiffer(joins: seq<Request>) {
    && |joins| < IDM_LIMIT
    && forall i, j :: 0 <= i < j < |joins| ==>
         Apart(joins[i], joins[j])
  }

  /** Whoever writes makes one of the joins, and each is made at most once. */
  ghost predicate JoinsAtMostOnce(steps: seq<Label>, joins: seq<Request>) {
    && (forall k :: 0 <= k < |steps| && steps[k].action.Mutate? ==> 0 <= steps[k].action.op < |joins|)
    && (forall j, k :: 0 <= j < k < |steps| && steps[j].action.Mutate? && steps[k].action.Mutate? ==>
          steps[j].action.op != steps[k].action.op)
  }

  lemma MutationsDistinct(steps: seq<Label>, joins: seq<Request>, k: nat)
    requires JoinsAtMostOnce(steps, joins) && k <= |steps|
    ensures Distinct(Mutations(steps[..k]), |joins|)
  {
    var v := Mutations(steps[..k]);
    forall i | 0 <= i < |v| ensures 0 <= v[i] < |joins| {
      var a := MutationFrom(steps, k, i);
    }
    forall i, j | 0 <= i < j < |v| ensures v[i] != v[j] {
      var a := MutationFrom(steps, k, i);
      var b := MutationFrom(steps, k, j);
      assert a != b;
    }
  }

  lemma DistinctHistory(v: Value, joins: seq<Request>)
    requires AllDiffer(joins) && Distinct(v, |joins|)
    ensures AllJoin(History(v, joins)) && RankedBy(JoinAll(History(v, joins)), History(v, joins)) && |v| <= |joins|
  {
    var h := History(v, joins);
    DistinctElements(v, |joins|);
    forall i, j | 0 <= i < j < |h|
      ensures h[i].idp != h[j].idp && StoredName(h[i].idp, h[i].name) != StoredName(h[j].idp, h[j].name)
    {
      assert h[i] == joins[v[i]] && h[j] == joins[v[j]];
    }
    DistinctRequestsJoin(h);
    RanksAreJoinOrder(h);
  }

  /** Fresh idps and distinct names are enough: every join succeeds on the joiner's own replica,
      however the joins and the protocol's steps interleave. */
  lemma FreshJoinsSucceed(r: seq<State>, steps: seq<Label>, joins: seq<Request>)
    requires IsLabelledRun(r, steps) && JoinsAtMostOnce(steps, joins) && AllDiffer(joins)
    ensures IsJoinRun(r, steps, joins)
  {
    forall k | 0 <= k < |steps| ensures JoinStep(r[k], steps[k], joins) {
      if steps[k].action.Mutate? {
        FreshJoin(r, steps, joins, k);
      }
    }
  }

  lemma FreshJoin(r: seq<State>, steps: seq<Label>, joins: seq<Request>, k: nat)
    requires IsLabelledRun(r, steps) && JoinsAtMostOnce(steps, joins) && AllDiffer(joins)
    requires k < |steps| && steps[k].action.Mutate?
    ensures JoinStep(r[k], steps[k], joins)
  {
    var v, op := Mutations(steps[..k]), steps[k].action.op;
    var h := History(v, joins);
    MutationsActOnOneCopy(r, steps, k);
    MutationsDistinct(steps, joins, k);
    DistinctHistory(v, joins);
    forall i | 0 <= i < |h|
      ensures Apart(h[i], joins[op])
    {
      var j := MutationFrom(steps, k, i);
      assert h[i] == joins[v[i]] && v[i] != op;
    }
    FreshRequestJoins(JoinAll(h), h, joins[op]);
  }

  /** Step `k` is a join, and gives rank `x`. */
  ghost predicate GivesRank(r: seq<State>, steps: seq<Label>, joins: seq<Request>, k: nat, x: nat)
    requires |r| == |steps| + 1
  {
    && k < |steps| && steps[k].action.Mutate? && 0 <= steps[k].action.op < |joins|
    && steps[k].pod < |r[k].pods|
    && var req := joins[steps[k].action.op];
       Admit(JoinAll(History(r[k].pods[steps[k].pod].obj.rsc, joins)), req.idp, req.name).1 == Joined(x)
  }

  lemma RankOfStep(r: seq<State>, steps: seq<Label>, joins: seq<Request>, k: nat)
    requires IsLabelledRun(r, steps) && JoinsAtMostOnce(steps, joins) && AllDiffer(joins)
    requires k < |steps| && steps[k].action.Mutate?
    ensures GivesRank(r, steps, joins, k, |Mutations(steps[..k])|)
    ensures |Mutations(steps[..k])| < |Mutations(steps[..k + 1])| <= |Mutations(steps)| <= |joins|
  {
    FreshJoinsSucceed(r, steps, joins);
    MutationsGrow(steps, k + 1, |steps|);
    assert steps[..k + 1][..k] == steps[..k] && steps[..|steps|] == steps;
    MutationsDistinct(steps, joins, |steps|);
    DistinctElements(Mutations(steps), |joins|);
    RankIsNumberOfEarlierJoins(r, steps, joins, k);
  }

  ghost predicate SomeoneGets(r: seq<State>, steps: seq<Label>, joins: seq<Request>, x: nat)
    requires |r| == |steps| + 1
  {
    exists k: nat :: GivesRank(r, steps, joins, k, x)
  }

  /** Members with fresh idps and distinct names that join concurrently from any pods receive
      each of the ranks from 0 on exactly once; in particular exactly one receives rank 0. */
  lemma EachRankGivenOnce(r: seq<State>, steps: seq<Label>, joins: seq<Request>)
    requires IsLabelledRun(r, steps) && JoinsAtMostOnce(steps, joins) && AllDiffer(joins)
    ensures forall x: nat :: SomeoneGets(r, steps, joins, x) <==> x < |Mutations(steps)|
    ensures forall j: nat, k: nat, x: nat ::
              GivesRank(r, steps, joins, j, x) && GivesRank(r, steps, joins, k, x) ==> j == k
  {
    forall k: nat, x: nat | GivesRank(r, steps, joins, k, x)
      ensures x == |Mutations(steps[..k])| < |Mutations(steps)|
    {
      RankOfStep(r, steps, joins, k);
    }
    forall x: nat | x < |Mutations(steps)| ensures SomeoneGets(r, steps, joins, x) {
      assert steps[..|steps|] == steps;
      var k := MutationFrom(steps, |steps|, x);
      RankOfStep(r, steps, joins, k);
    }
    forall j: nat, k: nat, x: nat | GivesRank(r, steps, joins, j, x) && GivesRank(r, steps, joins, k, x)
      ensures j == k
    {
      RanksDiffer(r, steps, joins, j, k);
    }
  }

  lemma RanksDiffer(r: seq<State>, steps: seq<Label>, joins: seq<Request>, j: nat, k: nat)
    requires IsLabelledRun(r, steps) && JoinsAtMostOnce(steps, joins) && AllDiffer(joins)
    requires j < |steps| && k < |steps| && steps[j].action.Mutate? && steps[k].action.Mutate?
    ensures |Mutations(steps[..j])| == |Mutations(steps[..k])| ==> j == k
  {
    RankOfStep(r, steps, joins, j);
    RankOfStep(r, steps, joins, k);
    if j < k {
      MutationsGrow(steps, j + 1, k);
    } else if k < j {
      MutationsGrow(steps, k + 1, j);
    }
  }

  /** Every replica, however old, agrees on the ranks of the members it knows, and its
      `GetIdp` undoes its `GetIdm`. */
  lemma ReplicasAgreeOnRanks(r: seq<State>, steps: seq<Label>, joins: seq<Request>, k: nat, p: PodId, i: nat)
    requires IsLabelledRun(r, steps) && JoinsAtMostOnce(steps, joins) && AllDiffer(joins)
    requires k < |r| && p < |r[k].pods| && i < |r[k].pods[p].obj.rsc|
    ensures i < |Mutations(steps[..k])| && KnowsMember(r, steps, joins, k, p, i)
  {
    FreshJoinsSucceed(r, steps, joins);
    MutationsDistinct(steps, joins, k);
    DistinctElements(Mutations(steps[..k]), |joins|);
    JoinedReplicasAgree(r, steps, joins, k, p, i);
  }

  ghost predicate HasJoined(steps: seq<Label>, op: int) {
    exists k :: 0 <= k < |steps| && steps[k].action == Mutate(op)
  }

  /** Once all have joined, `n` members have the ranks 0 to n - 1. */
  lemma AllRanksGiven(r: seq<State>, steps: seq<Label>, joins: seq<Request>)
    requires IsLabelledRun(r, steps) && JoinsAtMostOnce(steps, joins) && AllDiffer(joins)
    requires forall op :: 0 <= op < |joins| ==> HasJoined(steps, op)
    ensures forall x: nat :: SomeoneGets(r, steps, joins, x) <==> x < |joins|
  {
    var v := Mutations(steps);
    assert steps[..|steps|] == steps;
    MutationsDistinct(steps, joins, |steps|);
    DistinctElements(v, |joins|);
    forall op | op in Below(|joins|) ensures op in v {
      assert HasJoined(steps, op);
      var k :| 0 <= k < |steps| && steps[k].action == Mutate(op);
      MutationAt(steps, k);
    }
    SubsetSize(Below(|joins|), set x | x in v);
    EachRankGivenOnce(r, steps, joins);
  }
}
