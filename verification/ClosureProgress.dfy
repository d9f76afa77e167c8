/** When the members of a closure get through their rounds: always, but for two failures, each
    of which leaves a member waiting for ever. */
module ClosureProgress {
  import opened Basics
  import opened ClosureBarrier

  /** The member waits for the counter to become complete, but it is past that already. */
  predicate Over(s: State, i: nat) {
    && i < |s.members|
    && var m := s.members[i];
       m.started == m.returned + 1 && m.group.vars.Some? && m.group.vars.value.first > m.group.vars.value.second
  }

  /** The member waits for the idp of its next collective round, which its pod has handled and
      then erased. */
  predicate Lost(s: State, i: nat) {
    && 0 < i < |s.members|
    && var m := s.members[i];
       var round := m.returned + 1;
       && m.started == m.returned && round in s.collective && round in m.seen && round !in m.got
       && m.group.cc.None?
  }

  predicate Failed(s: State, i: nat) { Over(s, i) || Lost(s, i) }

  // ---- who sleeps -----------------------------------------------------------------

  ghost predicate SleepersOk(s: State, i: nat)
    requires i < |s.members|
  {
    var m := s.members[i];
    && (m.group.vars.Some? ==> m.parked == {})
    && (forall j :: j in m.parked || j in m.woken ==> j < |s.members|)
    && (m.returned == 0 && m.seen != {} ==> m.group.cc.Some?)
  }

  ghost predicate Sleepers(s: State) {
    forall i :: 0 <= i < |s.members| ==> SleepersOk(s, i)
  }

  lemma SleepersStep(s: State, i: nat, a: Action)
    requires Counts(s) && Sleepers(s) && Enabled(s, i, a)
    ensures Sleepers(Apply(s, i, a))
  {
    var s' := Apply(s, i, a);
    assert CountsOk(s, i);
    if a.Receive? {
      assert CountsOk(s, a.from) && Together(s, a.from, i);
    }
    forall l | 0 <= l < |s'.members| ensures SleepersOk(s', l) {
      assert SleepersOk(s, l);
      assert l != i ==> s'.members[l] == s.members[l];
    }
  }

  ghost predicate Inv(s: State) { Counts(s) && Idps(s) && Sleepers(s) }

  lemma {:induction false} InvHolds(r: seq<State>, k: nat)
    requires IsRun(r) && k < |r|
    ensures Inv(r[k])
  {
    CountsHold(r, k);
    IdpsHold(r, k);
    if k > 0 {
      InvHolds(r, k - 1);
      assert Next(r[k - 1], r[k]);
      var i, a :| Enabled(r[k - 1], i, a) && r[k] == Apply(r[k - 1], i, a);
      SleepersStep(r[k - 1], i, a);
    }
  }

  // ---- a failure lasts ------------------------------------------------------------

  lemma OverStays(s: State, i: nat, a: Action, l: nat)
    requires Over(s, l) && Enabled(s, i, a)
    ensures Over(Apply(s, i, a), l) && Apply(s, i, a).members[l].returned == s.members[l].returned
  {}

  /** The idp of a round the member has not begun is the last one the root has sent. */
  lemma NothingElseToReceive(s: State, l: nat, r: nat)
    requires Counts(s) && Idps(s) && Lost(s, l) && r in s.created
    ensures r in s.members[l].seen
  {
    assert IdpOk(s, 0) && IdpOk(s, l) && Together(s, 0, l) && CountsOk(s, 0);
    assert r in s.members[0].got;
  }

  lemma LostStays(s: State, i: nat, a: Action, l: nat)
    requires Counts(s) && Idps(s) && Lost(s, l) && Enabled(s, i, a)
    ensures Lost(Apply(s, i, a), l) && Apply(s, i, a).members[l].returned == s.members[l].returned
  {
    if a.ReceiveIdp? {
      NothingElseToReceive(s, l, a.round);
    }
  }

  lemma FailedStays(s: State, s': State, l: nat)
    requires Inv(s) && Next(s, s') && Failed(s, l)
    ensures Failed(s', l) && s'.members[l].returned == s.members[l].returned
  {
    var i, a :| Enabled(s, i, a) && s' == Apply(s, i, a);
    if Over(s, l) {
      OverStays(s, i, a, l);
    } else {
      LostStays(s, i, a, l);
    }
  }

  lemma FailedStaysInRun(r: seq<State>, k: nat, l: nat)
    requires IsRun(r) && 0 < k < |r| && Failed(r[k - 1], l)
    ensures Failed(r[k], l) && r[k].members[l].returned == r[k - 1].members[l].returned
  {
    InvHolds(r, k - 1);
    assert Next(r[k - 1], r[k]);
    FailedStays(r[k - 1], r[k], l);
  }

  /** Whoever has failed never returns again. */
  lemma {:induction false} FailedForEver(r: seq<State>, j: nat, k: nat, i: nat)
    requires IsRun(r) && j <= k < |r| && Failed(r[j], i)
    ensures Failed(r[k], i) && r[k].members[i].returned == r[j].members[i].returned
    decreases k
  {
    if j < k {
      FailedForEver(r, j, k - 1, i);
      FailedStaysInRun(r, k, i);
    }
  }

  // ---- how a failure comes about --------------------------------------------------

  /** A message is counted at a member whose count is complete, before it has left. */
  predicate CountsTooMany(s: State, i: nat, a: Action) {
    && i < |s.members| && (a.Receive? || a.Wake?)
    && s.members[i].started == s.members[i].returned + 1 && CanLeave(s.members[i].group)
  }

  /** A member leaves a round after the join when its pod has handled the next one's idp. */
  predicate ErasesTooMuch(s: State, i: nat, a: Action) {
    && 0 < i < |s.members| && a.Return?
    && s.members[i].returned >= 1
    && s.members[i].returned + 2 in s.collective && s.members[i].returned + 2 in s.members[i].seen
  }

  /** A member that has not begun its next round has at most a complete count. */
  lemma NotOverYet(s: State, i: nat)
    requires Counts(s) && i < |s.members| && s.members[i].started == s.members[i].returned
    ensures s.members[i].group.vars.Some? ==> s.members[i].group.vars.value.first <= |s.members|
  {
    var m, n := s.members[i], |s.members|;
    assert CountsOk(s, i);
    forall l | 0 <= l < n ensures m.counted[l] <= m.returned + 1 {
      assert CountsOk(s, l) && Together(s, l, i);
    }
    SumBound(m.counted, m.returned + 1);
    OneMore(n, m.returned);
  }

  lemma OverExactly(s: State, i: nat, a: Action)
    requires Inv(s) && Enabled(s, i, a) && !Over(s, i)
    ensures Over(Apply(s, i, a), i) <==> CountsTooMany(s, i, a)
  {
    assert CountsOk(s, i) && SleepersOk(s, i);
    if a.Start? {
      NotOverYet(s, i);
    } else if a.Wake? {
      CountsOfWoken(s, i, a.from);
    } else if a.Receive? {
      CountsOfReceiver(s, i, a.from, a.sync);
    }
  }

  lemma LostExactly(s: State, i: nat, a: Action)
    requires Inv(s) && Enabled(s, i, a) && !Lost(s, i)
    ensures Lost(Apply(s, i, a), i) <==> ErasesTooMuch(s, i, a)
  {
    assert CountsOk(s, i) && SleepersOk(s, i) && IdpOk(s, i);
  }

  /** A step makes a member fail exactly if it counts one message too many for it, or erases the
      next round's idp; and it makes nobody else fail. */
  lemma FailsExactly(s: State, i: nat, a: Action, l: nat)
    requires Inv(s) && Enabled(s, i, a) && l < |s.members| && !Failed(s, l)
    ensures Failed(Apply(s, i, a), l) <==> l == i && (CountsTooMany(s, i, a) || ErasesTooMuch(s, i, a))
  {
    if l == i {
      OverExactly(s, i, a);
      LostExactly(s, i, a);
    }
  }

  // ---- at rest --------------------------------------------------------------------

  /** All that is left to do is for members with `rounds` rounds behind them to begin another. */
  ghost predicate AtRest(s: State, rounds: nat) {
    forall i: nat, a :: Enabled(s, i, a) ==>
      s.members[i].returned >= rounds && (a.Start? || a.CreateAtRoot? || a.ReadIdp?)
  }

  lemma AllCounted(s: State, rounds: nat, i: nat, j: nat)
    requires Inv(s) && AtRest(s, rounds) && i < |s.members| && j < |s.members|
    ensures s.members[i].woken == {} && |s.members[i].counted| == |s.members|
    ensures s.members[i].counted[j] + Sleeping(s.members[i], j) == s.members[j].started
  {
    var m := s.members[i];
    assert CountsOk(s, i) && SleepersOk(s, i);
    forall l ensures l !in m.woken {
      assert !Enabled(s, i, Wake(l));
    }
    assert !Enabled(s, i, Receive(j, true)) && !Enabled(s, i, Receive(j, false)) && !Enabled(s, i, Park(j));
  }

  /** The root has begun every round that it could have. */
  lemma RootGoesOn(s: State, rounds: nat)
    requires Inv(s) && AtRest(s, rounds) && s.members[0].returned < rounds
    ensures s.members[0].started == s.members[0].returned + 1
  {
    assert CountsOk(s, 0);
    assert !Enabled(s, 0, CreateAtRoot(0)) && !Enabled(s, 0, Start);
  }

  /** A member that waits to begin its round although the root has begun it is lost. */
  lemma WaitingIsLost(s: State, rounds: nat, i: nat)
    requires Inv(s) && AtRest(s, rounds) && 0 < i < |s.members| && s.members[i].returned < rounds
    requires s.members[i].started == s.members[i].returned < s.members[0].started
    ensures Lost(s, i)
  {
    var round := s.members[i].returned + 1;
    assert IdpOk(s, 0) && IdpOk(s, i) && CountsOk(s, i);
    assert !Enabled(s, i, Start) && !Enabled(s, i, ReadIdp) && !Enabled(s, i, ReceiveIdp(round));
  }

  /** A member that waits inside a round that everybody has begun is over. */
  lemma WaitingIsOver(s: State, rounds: nat, i: nat)
    requires Inv(s) && AtRest(s, rounds) && i < |s.members| && s.members[i].returned < rounds
    requires s.members[i].started == s.members[i].returned + 1
    requires forall j :: 0 <= j < |s.members| ==> s.members[j].started >= s.members[i].started
    ensures Over(s, i)
  {
    var m, n := s.members[i], |s.members|;
    assert CountsOk(s, i) && SleepersOk(s, i);
    forall j | 0 <= j < n ensures m.counted[j] >= m.returned + 1 {
      AllCounted(s, rounds, i, j);
    }
    SumAtLeast(m.counted, m.returned + 1);
    OneMore(n, m.returned);
    assert !Enabled(s, i, Return);
  }

  lemma {:induction false} SumAtLeast(c: seq<nat>, k: nat)
    requires forall l :: 0 <= l < |c| ==> c[l] >= k
    ensures Sum(c) >= |c| * k
  {
    if c != [] {
      var n := |c| - 1;
      SumAtLeast(c[..n], k);
      assert |c| * k == n * k + k;
    }
  }

  lemma {:induction false} Lowest(s: State, n: nat) returns (i: nat)
    requires 0 < n <= |s.members|
    ensures i < n && forall j :: 0 <= j < n ==> s.members[i].returned <= s.members[j].returned
  {
    i := 0;
    if n > 1 {
      i := Lowest(s, n - 1);
      if s.members[n - 1].returned < s.members[i].returned {
        i := n - 1;
      }
    }
  }

  /** Somebody who is furthest behind has failed. */
  lemma LowestHasFailed(s: State, rounds: nat, i: nat)
    requires Inv(s) && AtRest(s, rounds) && i < |s.members| && s.members[i].returned < rounds
    requires forall j :: 0 <= j < |s.members| ==> s.members[i].returned <= s.members[j].returned
    ensures exists j :: 0 <= j < |s.members| && s.members[j].returned < rounds && Failed(s, j)
  {
    if s.members[0].returned < rounds {
      RootGoesOn(s, rounds);
    } else {
      assert CountsOk(s, 0);
    }
    if j :| 0 <= j < |s.members| && s.members[j].started < s.members[i].returned + 1 {
      assert CountsOk(s, j);
      WaitingIsLost(s, rounds, j);
    } else {
      assert CountsOk(s, i);
      WaitingIsOver(s, rounds, i);
    }
  }

  predicate AllDone(s: State, rounds: nat) {
    forall i :: 0 <= i < |s.members| ==> s.members[i].returned >= rounds
  }

  /** No member has failed in one of its first `rounds` rounds. */
  predicate NoneFailed(s: State, rounds: nat) {
    forall i :: 0 <= i < |s.members| && s.members[i].returned < rounds ==> !Failed(s, i)
  }

  lemma RestIsComplete(s: State, rounds: nat)
    requires Inv(s) && AtRest(s, rounds)
    ensures AllDone(s, rounds) <==> NoneFailed(s, rounds)
  {
    if i :| 0 <= i < |s.members| && s.members[i].returned < rounds {
      var low := Lowest(s, |s.members|);
      LowestHasFailed(s, rounds, low);
    }
  }

  lemma RunIsComplete(r: seq<State>, rounds: nat)
    requires IsRun(r) && AtRest(r[|r| - 1], rounds)
    ensures AllDone(r[|r| - 1], rounds) <==> forall k :: 0 <= k < |r| ==> NoneFailed(r[k], rounds)
  {
    var s := r[|r| - 1];
    InvHolds(r, |r| - 1);
    RestIsComplete(s, rounds);
    forall k | 0 <= k < |r| && !NoneFailed(r[k], rounds) ensures !AllDone(s, rounds) {
      var i :| 0 <= i < |r[k].members| && r[k].members[i].returned < rounds && Failed(r[k], i);
      FailedForEver(r, k, |r| - 1, i);
    }
  }

  // ---- over labelled runs ---------------------------------------------------------

  datatype Label = Label(member: nat, action: Action)

  ghost predicate IsLabelledRun(r: seq<State>, steps: seq<Label>) {
    && |r| == |steps| + 1
    && Init(r[0])
    && forall k :: 0 <= k < |steps| ==> StepAt(r, steps, k)
  }

  predicate StepAt(r: seq<State>, steps: seq<Label>, k: nat)
    requires |r| == |steps| + 1 && k < |steps|
  {
    Enabled(r[k], steps[k].member, steps[k].action) && r[k + 1] == Apply(r[k], steps[k].member, steps[k].action)
  }

  lemma LabelledIsRun(r: seq<State>, steps: seq<Label>)
    requires IsLabelledRun(r, steps)
    ensures IsRun(r)
  {
    forall k | 0 < k < |r| ensures Next(r[k - 1], r[k]) {
      assert StepAt(r, steps, k - 1);
    }
  }

  /** A message too many for a member in one of its first `rounds` rounds, or the loss of the idp
      of one of these. */
  predicate Breaks(s: State, l: Label, rounds: nat) {
    || (CountsTooMany(s, l.member, l.action) && s.members[l.member].returned < rounds)
    || (ErasesTooMuch(s, l.member, l.action) && s.members[l.member].returned + 1 < rounds)
  }

  lemma FailsByBreaking(s: State, l: Label, rounds: nat)
    requires Inv(s) && Enabled(s, l.member, l.action) && NoneFailed(s, rounds)
    ensures NoneFailed(Apply(s, l.member, l.action), rounds) <==> !Breaks(s, l, rounds)
  {
    var s', i := Apply(s, l.member, l.action), l.member;
    forall j | 0 <= j < |s.members| && s'.members[j].returned < rounds
      ensures Failed(s', j) <==> j == i && Breaks(s, l, rounds)
    {
      assert s.members[j].returned < rounds;
      FailsExactly(s, i, l.action, j);
    }
    if Breaks(s, l, rounds) {
      assert s'.members[i].returned < rounds;
    }
  }

  lemma {:induction false} NoneFailedUntil(r: seq<State>, steps: seq<Label>, rounds: nat, k: nat)
    requires IsLabelledRun(r, steps) && k < |r|
    requires forall j :: 0 <= j < k ==> !Breaks(r[j], steps[j], rounds)
    ensures NoneFailed(r[k], rounds)
  {
    LabelledIsRun(r, steps);
    if k == 0 {
      forall i | 0 <= i < |r[0].members| ensures !Failed(r[0], i) {
        assert r[0].members[i].started == 0;
      }
    } else {
      NoneFailedUntil(r, steps, rounds, k - 1);
      InvHolds(r, k - 1);
      assert StepAt(r, steps, k - 1);
      FailsByBreaking(r[k - 1], steps[k - 1], rounds);
    }
  }

  /** If members that go through `rounds` rounds each have done all they can, then all of them
      are through exactly if no step on the way counted a message too many or erased the next
      idp. */
  lemma RoundsEndExactly(r: seq<State>, steps: seq<Label>, rounds: nat)
    requires IsLabelledRun(r, steps) && AtRest(r[|steps|], rounds)
    ensures AllDone(r[|steps|], rounds) <==> forall k :: 0 <= k < |steps| ==> !Breaks(r[k], steps[k], rounds)
  {
    LabelledIsRun(r, steps);
    RunIsComplete(r, rounds);
    if forall k :: 0 <= k < |steps| ==> !Breaks(r[k], steps[k], rounds) {
      forall k | 0 <= k < |r| ensures NoneFailed(r[k], rounds) {
        NoneFailedUntil(r, steps, rounds, k);
      }
    } else {
      var k :| 0 <= k < |steps| && Breaks(r[k], steps[k], rounds);
      InvHolds(r, k);
      assert StepAt(r, steps, k);
      if NoneFailed(r[k], rounds) {
        FailsByBreaking(r[k], steps[k], rounds);
      }
      assert !NoneFailed(r[k], rounds) || !NoneFailed(r[k + 1], rounds);
    }
  }

  // ---- they come to rest ----------------------------------------------------------

  /** What a member has done so far, in steps. */
  function Done(m: Member): nat {
    m.started + m.returned + |m.got| + |m.seen| + 2 * Sum(m.counted) + |m.parked| + |m.woken|
  }

  function TotalDone(ms: seq<Member>): nat {
    if ms == [] then 0 else TotalDone(ms[..|ms| - 1]) + Done(ms[|ms| - 1])
  }

  lemma {:induction false} DoneUpdate(ms: seq<Member>, i: nat, m: Member)
    requires i < |ms|
    ensures TotalDone(ms[i := m]) + Done(ms[i]) == TotalDone(ms) + Done(m)
  {
    var n := |ms| - 1;
    if i == n {
      assert ms[i := m][..n] == ms[..n];
    } else {
      assert ms[i := m][..n] == ms[..n][i := m];
      DoneUpdate(ms[..n], i, m);
    }
  }

  lemma NotifiedDone(m: Member)
    requires m.parked !! m.woken
    ensures Done(Notified(m)) == Done(m)
  {
    assert |m.woken + m.parked| == |m.woken| + |m.parked|;
  }

  lemma MessageDone(m: Member, j: nat)
    requires j < |m.counted|
    ensures Done(WithMessage(m, j)) == Done(m) + 2
  {
    SumIncrement(m.counted, j);
  }

  lemma CountedDone(m: Member, j: nat)
    requires j < |m.counted| && m.parked !! m.woken
    ensures Done(Counted(m, j)) == Done(m) + 2
  {
    MessageDone(m, j);
    NotifiedDone(WithMessage(m, j));
  }

  lemma WokenDone(m: Member, j: nat)
    requires j in m.woken && m.parked !! m.woken
    ensures Done(m.(woken := m.woken - {j})) + 1 == Done(m)
  {}

  lemma StepDoes(s: State, i: nat, a: Action)
    requires Inv(s) && Enabled(s, i, a)
    ensures Done(ApplyTo(s, i, a)) > Done(s.members[i])
  {
    var m := s.members[i];
    assert CountsOk(s, i);
    if a.Receive? {
      CountedDone(m, a.from);
    } else if a.Wake? {
      WokenDone(m, a.from);
      CountedDone(m.(woken := m.woken - {a.from}), a.from);
    } else if a.Start? {
      StartDoes(s, i);
    } else if a.ReceiveIdp? {
      ReceiveIdpDoes(s, i, a.round);
    } else {
      OtherStepDoes(s, i, a);
    }
  }

  lemma StartDoes(s: State, i: nat)
    requires Enabled(s, i, Start) && s.members[i].parked !! s.members[i].woken
    ensures Done(ApplyTo(s, i, Start)) > Done(s.members[i])
  {
    var m := s.members[i];
    NotifiedDone(m.(started := m.returned + 1, group := Enter(m.group, |s.members|)));
  }

  lemma OtherStepDoes(s: State, i: nat, a: Action)
    requires Enabled(s, i, a) && (a.CreateAtRoot? || a.ReadIdp? || a.Park? || a.Return?)
    requires s.members[i].parked !! s.members[i].woken
    ensures Done(ApplyTo(s, i, a)) > Done(s.members[i])
  {
    var m := s.members[i];
    match a
    case CreateAtRoot(idp) => NewKey(m.got, m.returned + 1, idp);
    case ReadIdp => NewKey(m.got, m.returned + 1, m.group.cc.value);
    case Park(_) =>
    case Return =>
  }

  lemma ReceiveIdpDoes(s: State, i: nat, r: nat)
    requires Enabled(s, i, ReceiveIdp(r)) && s.members[i].parked !! s.members[i].woken
    ensures Done(ApplyTo(s, i, ReceiveIdp(r))) > Done(s.members[i])
  {
    var m := s.members[i];
    NotifiedDone(m.(group := StoreIdp(m.group, s.created[r]), seen := m.seen + {r}));
  }

  lemma NewKey(m: map<nat, Idp>, k: nat, v: Idp)
    requires k !in m
    ensures |m[k := v]| == |m| + 1
  {
    assert m[k := v].Keys == m.Keys + {k};
    assert |m[k := v].Keys| == |m[k := v]| && |m.Keys| == |m|;
  }

  lemma CountedBound(s: State, i: nat, rounds: nat)
    requires Inv(s) && i < |s.members| && forall l :: 0 <= l < |s.members| ==> s.members[l].started <= rounds
    ensures Sum(s.members[i].counted) <= |s.members| * rounds
  {
    var m := s.members[i];
    assert CountsOk(s, i);
    forall l | 0 <= l < |m.counted| ensures m.counted[l] <= rounds {
      assert CountsOk(s, l);
    }
    SumBound(m.counted, rounds);
  }

  lemma SetsBound(s: State, i: nat, rounds: nat)
    requires Inv(s) && i < |s.members| && forall l :: 0 <= l < |s.members| ==> s.members[l].started <= rounds
    ensures |s.members[i].parked| <= |s.members| && |s.members[i].woken| <= |s.members|
    ensures |s.members[i].got| <= rounds + 2 && |s.members[i].seen| <= rounds + 2
  {
    var m, n := s.members[i], |s.members|;
    assert SleepersOk(s, i) && IdpOk(s, i) && IdpOk(s, 0) && CountsOk(s, 0) && CountsOk(s, i);
    SubsetSize(m.parked, Below(n));
    SubsetSize(m.woken, Below(n));
    SubsetSize(m.got.Keys, Below(rounds + 2));
    SubsetSize(m.seen, Below(rounds + 2));
    assert |m.got.Keys| == |m.got|;
  }

  /** The steps of `n` members that begin at most `rounds` rounds each. */
  function MostSteps(n: nat, rounds: nat): nat { n * (4 * rounds + 4 + 2 * (n * rounds) + 2 * n) }

  lemma {:induction false} TotalBound(ms: seq<Member>, most: nat)
    requires forall i :: 0 <= i < |ms| ==> Done(ms[i]) <= most
    ensures TotalDone(ms) <= |ms| * most
  {
    if ms != [] {
      TotalBound(ms[..|ms| - 1], most);
      assert |ms| * most == (|ms| - 1) * most + most;
    }
  }

  lemma DoneBound(s: State, i: nat, rounds: nat)
    requires Inv(s) && i < |s.members| && forall l :: 0 <= l < |s.members| ==> s.members[l].started <= rounds
    ensures Done(s.members[i]) <= 4 * rounds + 4 + 2 * (|s.members| * rounds) + 2 * |s.members|
  {
    CountedBound(s, i, rounds);
    SetsBound(s, i, rounds);
    assert CountsOk(s, i);
    AddUp(s.members[i], rounds, |s.members|, |s.members| * rounds);
  }

  lemma AddUp(m: Member, rounds: nat, n: nat, messages: nat)
    requires m.returned <= m.started <= rounds && Sum(m.counted) <= messages
    requires |m.parked| <= n && |m.woken| <= n && |m.got| <= rounds + 2 && |m.seen| <= rounds + 2
    ensures Done(m) <= 4 * rounds + 4 + 2 * messages + 2 * n
  {}

  lemma {:induction false} StepsCounted(r: seq<State>, steps: seq<Label>, k: nat)
    requires IsLabelledRun(r, steps) && k < |r|
    ensures k <= TotalDone(r[k].members) && |r[k].members| == |r[0].members|
  {
    if k > 0 {
      StepsCounted(r, steps, k - 1);
      LabelledIsRun(r, steps);
      InvHolds(r, k - 1);
      assert StepAt(r, steps, k - 1);
      var s, i, a := r[k - 1], steps[k - 1].member, steps[k - 1].action;
      StepDoes(s, i, a);
      DoneUpdate(s.members, i, ApplyTo(s, i, a));
    }
  }

  /** Members that begin at most `rounds` rounds each come to rest after so many steps. */
  lemma RoundsAreBounded(r: seq<State>, steps: seq<Label>, rounds: nat)
    requires IsLabelledRun(r, steps)
    requires forall i :: 0 <= i < |r[|steps|].members| ==> r[|steps|].members[i].started <= rounds
    ensures |steps| <= MostSteps(|r[0].members|, rounds)
  {
    var s, n := r[|steps|], |r[0].members|;
    StepsCounted(r, steps, |steps|);
    LabelledIsRun(r, steps);
    InvHolds(r, |steps|);
    forall i | 0 <= i < n ensures Done(s.members[i]) <= 4 * rounds + 4 + 2 * (n * rounds) + 2 * n {
      DoneBound(s, i, rounds);
    }
    TotalBound(s.members, 4 * rounds + 4 + 2 * (n * rounds) + 2 * n);
  }

  // ---- it happens -----------------------------------------------------------------

  function Last(r: seq<State>): State
    requires r != []
  {
    r[|r| - 1]
  }

  lemma Extend(r: seq<State>, ls: seq<Label>, i: nat, a: Action) returns (r': seq<State>, ls': seq<Label>)
    requires IsLabelledRun(r, ls) && Enabled(Last(r), i, a)
    ensures IsLabelledRun(r', ls') && Last(r') == Apply(Last(r), i, a)
  {
    r', ls' := r + [Apply(Last(r), i, a)], ls + [Label(i, a)];
    forall k | 0 <= k < |ls'| ensures StepAt(r', ls', k) {
      if k < |ls| {
        assert StepAt(r, ls, k);
      }
    }
  }

  /** Two members, with a join, a barrier and a collective creation ahead. */
  const FRESH: State := State([
    Member(Group(None, None), 0, 0, [0, 0], {}, {}, map[], {}),
    Member(Group(None, None), 0, 0, [0, 0], {}, {}, map[], {})],
    {3}, map[])

  /** Both have begun the join. */
  const JOIN_BEGUN: State := State([
    Member(Group(Some(Vars(0, 2)), None), 1, 0, [0, 0], {}, {}, map[], {}),
    Member(Group(Some(Vars(0, 2)), None), 1, 0, [0, 0], {}, {}, map[], {})],
    {3}, map[])

  /** Both have counted both messages. */
  const JOIN_COUNTED: State := State([
    Member(Group(Some(Vars(2, 2)), None), 1, 0, [1, 1], {}, {}, map[], {}),
    Member(Group(Some(Vars(2, 2)), None), 1, 0, [1, 1], {}, {}, map[], {})],
    {3}, map[])

  /** Member 1 is in the barrier, and member 0, still in the join, has counted its message. */
  const OVERSHOT: State := State([
    Member(Group(Some(Vars(3, 2)), None), 1, 0, [1, 2], {}, {}, map[], {}),
    Member(Group(Some(Vars(0, 2)), None), 2, 1, [1, 1], {}, {}, map[], {})],
    {3}, map[])

  /** Both have returned. */
  const JOINED: State := State([
    Member(Group(Some(Vars(0, 2)), None), 1, 1, [1, 1], {}, {}, map[], {}),
    Member(Group(Some(Vars(0, 2)), None), 1, 1, [1, 1], {}, {}, map[], {})],
    {3}, map[])

  /** Both have begun the barrier. */
  const BARRIER_BEGUN: State := State([
    Member(Group(Some(Vars(0, 2)), None), 2, 1, [1, 1], {}, {}, map[], {}),
    Member(Group(Some(Vars(0, 2)), None), 2, 1, [1, 1], {}, {}, map[], {})],
    {3}, map[])

  /** Both have counted both messages. */
  const BARRIER_COUNTED: State := State([
    Member(Group(Some(Vars(2, 2)), None), 2, 1, [2, 2], {}, {}, map[], {}),
    Member(Group(Some(Vars(2, 2)), None), 2, 1, [2, 2], {}, {}, map[], {})],
    {3}, map[])

  /** The root has gone on to the creation, and member 1 has left the barrier after its idp came. */
  const ERASED: State := State([
    Member(Group(Some(Vars(0, 2)), None), 2, 2, [2, 2], {}, {}, map[3 := 7], {}),
    Member(Group(Some(Vars(0, 2)), None), 2, 2, [2, 2], {}, {}, map[], {3})],
    {3}, map[3 := 7])

  predicate SameMember(m: Member, m': Member) {
    && m.group == m'.group && m.started == m'.started && m.returned == m'.returned
    && m.counted == m'.counted && m.parked == m'.parked && m.woken == m'.woken
    && m.got == m'.got && m.seen == m'.seen
  }

  lemma JoinBegins(r: seq<State>, ls: seq<Label>) returns (r': seq<State>, ls': seq<Label>)
    requires IsLabelledRun(r, ls) && Last(r) == FRESH
    ensures IsLabelledRun(r', ls') && Last(r') == JOIN_BEGUN
  {
    r', ls' := r, ls;
    r', ls' := Extend(r', ls', 0, Start);
    r', ls' := Extend(r', ls', 1, Start);
    assert SameMember(Last(r').members[0], JOIN_BEGUN.members[0]);
    assert SameMember(Last(r').members[1], JOIN_BEGUN.members[1]);
    assert Last(r').members == JOIN_BEGUN.members;
  }

  lemma JoinIsCounted(r: seq<State>, ls: seq<Label>) returns (r': seq<State>, ls': seq<Label>)
    requires IsLabelledRun(r, ls) && Last(r) == JOIN_BEGUN
    ensures IsLabelledRun(r', ls') && Last(r') == JOIN_COUNTED
  {
    r', ls' := r, ls;
    r', ls' := Extend(r', ls', 0, Receive(0, false));
    r', ls' := Extend(r', ls', 0, Receive(1, false));
    r', ls' := Extend(r', ls', 1, Receive(0, false));
    r', ls' := Extend(r', ls', 1, Receive(1, false));
    assert SameMember(Last(r').members[0], JOIN_COUNTED.members[0]);
    assert SameMember(Last(r').members[1], JOIN_COUNTED.members[1]);
    assert Last(r').members == JOIN_COUNTED.members;
  }

  lemma FastMemberGoesOn(r: seq<State>, ls: seq<Label>) returns (r': seq<State>, ls': seq<Label>)
    requires IsLabelledRun(r, ls) && Last(r) == JOIN_COUNTED
    ensures IsLabelledRun(r', ls') && Last(r') == OVERSHOT
  {
    r', ls' := r, ls;
    r', ls' := Extend(r', ls', 1, Return);
    r', ls' := Extend(r', ls', 1, Start);
    r', ls' := Extend(r', ls', 0, Receive(1, true));
    assert SameMember(Last(r').members[0], OVERSHOT.members[0]);
    assert SameMember(Last(r').members[1], OVERSHOT.members[1]);
    assert Last(r').members == OVERSHOT.members;
  }

  lemma JoinEnds(r: seq<State>, ls: seq<Label>) returns (r': seq<State>, ls': seq<Label>)
    requires IsLabelledRun(r, ls) && Last(r) == JOIN_COUNTED
    ensures IsLabelledRun(r', ls') && Last(r') == JOINED
  {
    r', ls' := r, ls;
    r', ls' := Extend(r', ls', 0, Return);
    r', ls' := Extend(r', ls', 1, Return);
    assert SameMember(Last(r').members[0], JOINED.members[0]);
    assert SameMember(Last(r').members[1], JOINED.members[1]);
    assert Last(r').members == JOINED.members;
  }

  lemma BarrierBegins(r: seq<State>, ls: seq<Label>) returns (r': seq<State>, ls': seq<Label>)
    requires IsLabelledRun(r, ls) && Last(r) == JOINED
    ensures IsLabelledRun(r', ls') && Last(r') == BARRIER_BEGUN
  {
    r', ls' := r, ls;
    r', ls' := Extend(r', ls', 0, Start);
    r', ls' := Extend(r', ls', 1, Start);
    assert SameMember(Last(r').members[0], BARRIER_BEGUN.members[0]);
    assert SameMember(Last(r').members[1], BARRIER_BEGUN.members[1]);
    assert Last(r').members == BARRIER_BEGUN.members;
  }

  lemma BarrierIsCounted(r: seq<State>, ls: seq<Label>) returns (r': seq<State>, ls': seq<Label>)
    requires IsLabelledRun(r, ls) && Last(r) == BARRIER_BEGUN
    ensures IsLabelledRun(r', ls') && Last(r') == BARRIER_COUNTED
  {
    r', ls' := r, ls;
    r', ls' := Extend(r', ls', 0, Receive(0, true));
    r', ls' := Extend(r', ls', 0, Receive(1, true));
    r', ls' := Extend(r', ls', 1, Receive(0, true));
    r', ls' := Extend(r', ls', 1, Receive(1, true));
    assert SameMember(Last(r').members[0], BARRIER_COUNTED.members[0]);
    assert SameMember(Last(r').members[1], BARRIER_COUNTED.members[1]);
    assert Last(r').members == BARRIER_COUNTED.members;
  }

  lemma RootGoesFirst(r: seq<State>, ls: seq<Label>) returns (r': seq<State>, ls': seq<Label>)
    requires IsLabelledRun(r, ls) && Last(r) == BARRIER_COUNTED
    ensures IsLabelledRun(r', ls') && Last(r') == ERASED
  {
    r', ls' := r, ls;
    r', ls' := Extend(r', ls', 0, Return);
    r', ls' := Extend(r', ls', 0, CreateAtRoot(7));
    r', ls' := Extend(r', ls', 1, ReceiveIdp(3));
    r', ls' := Extend(r', ls', 1, Return);
    assert SameMember(Last(r').members[0], ERASED.members[0]);
    assert SameMember(Last(r').members[1], ERASED.members[1]);
    assert Last(r').members == ERASED.members;
  }

  lemma JoinCounted() returns (r: seq<State>, ls: seq<Label>)
    ensures IsLabelledRun(r, ls) && Last(r) == JOIN_COUNTED
  {
    r, ls := [FRESH], [];
    assert FRESH.members[0].counted == seq(2, _ => 0);
    r, ls := JoinBegins(r, ls);
    r, ls := JoinIsCounted(r, ls);
  }

  /** A fast member's message for the next round is counted before a slow one leaves this. */
  lemma OvershootHappens() returns (r: seq<State>, ls: seq<Label>)
    ensures IsLabelledRun(r, ls) && |Last(r).members| == 2 && Over(Last(r), 0)
  {
    r, ls := JoinCounted();
    r, ls := FastMemberGoesOn(r, ls);
  }

  /** The idp of the root's creation comes before a slow member leaves the barrier before it. */
  lemma IdpLossHappens() returns (r: seq<State>, ls: seq<Label>)
    ensures IsLabelledRun(r, ls) && |Last(r).members| == 2 && Lost(Last(r), 1)
  {
    r, ls := JoinCounted();
    r, ls := JoinEnds(r, ls);
    r, ls := BarrierBegins(r, ls);
    r, ls := BarrierIsCounted(r, ls);
    r, ls := RootGoesFirst(r, ls);
  }
}
