/** The message-counting barrier of a closure, shared by join, barrier and collective
    creation, and the rank-based collective creation on top of it. One member per pod, one
    closure whose id is already resolved. */
module ClosureBarrier {
  import opened Basics

  /** The entry of a closure in `_sg_vars`: messages counted and members expected. */
  datatype Vars = Vars(first: nat, second: nat)

  /** What one pod keeps for the closure: its entries in `_sg_vars` and `_sg_cc`. */
  datatype Group = Group(vars: Option<Vars>, cc: Option<Idp>)

  /** `CreateStaticGroup` before it sends. */
  function Enter(g: Group, total: nat): Group {
    if g.vars.None? then g.(vars := Some(Vars(0, total))) else g
  }

  /** `HandleCreateStaticGroup` waits once, without looking again, if there is no entry. */
  predicate CanCountCreate(g: Group) { g.vars.Some? }

  /** `_sg_vars[comm].first += 1`, which makes a zero entry if there is none. */
  function Count(g: Group): Group {
    match g.vars
    case None => g.(vars := Some(Vars(1, 0)))
    case Some(v) => g.(vars := Some(v.(first := v.first + 1)))
  }

  predicate CanLeave(g: Group) {
    g.vars.None? || g.vars.value.first == g.vars.value.second
  }

  /** The end of `CreateStaticGroup`, or of `SynchronizeStaticGroup`, which also erases the
      collective idp. */
  function Leave(g: Group, synchronize: bool): Group {
    var second := if g.vars.Some? then g.vars.value.second else 0;
    Group(Some(Vars(0, second)), if synchronize then None else g.cc)
  }

  function StoreIdp(g: Group, idp: Idp): Group { g.(cc := Some(idp)) }

  // ---- all members -------------------------------------------------------------------
  // Round 1 is the join; every later round is a barrier or, if it is in `collective`, a
  // collective creation with member 0 as the root. Messages are handled once by each pod,
  // in any order.

  /** `started` and `returned` count the synchronizations the member has begun and left;
      `counted[j]` how many messages of member `j` its pod has counted; `parked` holds the
      members whose create message found no entry and sleeps, `woken` those whose message
      has been notified since and will be counted without another look; `got` the resource
      that each collective call of the member refers to; `seen` the collective rounds whose
      idp message its pod has handled. */
  datatype Member = Member(
    group: Group,
    started: nat, returned: nat,
    counted: seq<nat>,
    parked: set<nat>, woken: set<nat>,
    got: map<nat, Idp>,
    seen: set<nat>)

  /** `created[r]` is the resource that the root created in collective round `r`. */
  datatype State = State(members: seq<Member>, collective: set<nat>, created: map<nat, Idp>)

  datatype Action =
    | CreateAtRoot(idp: Idp)           // root: create the resource and send its idp
    | ReadIdp                          // other member: GetStaticGroupCCIdp
    | Start                            // send the round's message
    | Receive(from: nat, sync: bool)   // count a message of member `from`
    | Park(from: nat)                  // its create message finds no entry
    | Wake(from: nat)                  // and goes on after a notification
    | ReceiveIdp(round: nat)           // handle the idp message of a collective round
    | Return                           // leave the round

  predicate Init(s: State) {
    && |s.members| > 0
    && 1 !in s.collective && 0 !in s.collective
    && s.created == map[]
    && forall i :: 0 <= i < |s.members| ==>
         s.members[i] == Member(Group(None, None), 0, 0, seq(|s.members|, _ => 0), {}, {}, map[], {})
  }

  /** Messages of member `j` that have been handed to a handler but are not counted. */
  function Sleeping(m: Member, j: nat): nat { if j in m.parked || j in m.woken then 1 else 0 }

  /** The condition of the closure is notified. */
  function Notified(m: Member): Member { m.(woken := m.woken + m.parked, parked := {}) }

  function WithMessage(m: Member, j: nat): Member
    requires j < |m.counted|
  {
    m.(group := Count(m.group), counted := m.counted[j := m.counted[j] + 1])
  }

  /** A message of member `j` is counted; the last one notifies. */
  function Counted(m: Member, j: nat): Member
    requires j < |m.counted|
  {
    var m' := WithMessage(m, j);
    if CanLeave(m'.group) then Notified(m') else m'
  }

  predicate Enabled(s: State, i: nat, a: Action) {
    && i < |s.members|
    && var m := s.members[i];
       var round := m.returned + 1;
       match a
       case CreateAtRoot(_) => i == 0 && m.started == m.returned && round in s.collective && round !in m.got
       case ReadIdp =>
         i != 0 && m.started == m.returned && round in s.collective && round !in m.got && m.group.cc.Some?
       case Start => m.started == m.returned && (round in s.collective ==> round in m.got)
       case Receive(j, sync) =>
         && j < |s.members| && j < |m.counted|
         && m.counted[j] + Sleeping(m, j) < s.members[j].started
         && (if sync then s.members[j].started >= 2 else CanCountCreate(m.group))
       case Park(j) =>
         && j < |s.members| && j < |m.counted|
         && Sleeping(m, j) == 0 && m.counted[j] < s.members[j].started
         && !CanCountCreate(m.group)
       case Wake(j) => j in m.woken && j < |m.counted|
       case ReceiveIdp(r) => r in s.created && r !in m.seen
       case Return => m.started == round && CanLeave(m.group)
  }

  function ApplyTo(s: State, i: nat, a: Action): Member
    requires Enabled(s, i, a)
  {
    var m := s.members[i];
    var round := m.returned + 1;
    match a
    case CreateAtRoot(idp) => m.(got := m.got[round := idp])
    case ReadIdp => m.(got := m.got[round := m.group.cc.value])
    case Start =>
      if round == 1 then Notified(m.(started := round, group := Enter(m.group, |s.members|)))
      else m.(started := round)
    case Receive(j, _) => Counted(m, j)
    case Park(j) => m.(parked := m.parked + {j})
    case Wake(j) => Counted(m.(woken := m.woken - {j}), j)
    case ReceiveIdp(r) => Notified(m.(group := StoreIdp(m.group, s.created[r]), seen := m.seen + {r}))
    case Return => m.(returned := round, group := Leave(m.group, round > 1))
  }

  function Apply(s: State, i: nat, a: Action): State
    requires Enabled(s, i, a)
  {
    var s1 := s.(members := s.members[i := ApplyTo(s, i, a)]);
    if a.CreateAtRoot? then s1.(created := s.created[s.members[i].returned + 1 := a.idp]) else s1
  }

  ghost predicate Next(s: State, s': State) {
    exists i, a :: Enabled(s, i, a) && s' == Apply(s, i, a)
  }

  ghost predicate IsRun(r: seq<State>) {
    && |r| > 0
    && Init(r[0])
    && forall k :: 0 < k < |r| ==> Next(r[k - 1], r[k])
  }

  // ---- the counting argument ------------------------------------------------------

  function Sum(c: seq<nat>): nat {
    if c == [] then 0 else Sum(c[..|c| - 1]) + c[|c| - 1]
  }

  lemma {:induction false} SumIncrement(c: seq<nat>, j: nat)
    requires j < |c|
    ensures Sum(c[j := c[j] + 1]) == Sum(c) + 1
  {
    var d := c[j := c[j] + 1];
    var n := |c| - 1;
    if j == n {
      assert d[..n] == c[..n];
    } else {
      SumIncrement(c[..n], j);
      assert d[..n] == c[..n][j := c[..n][j] + 1];
    }
  }

  /** Counts bounded by `k` reach `k` each only if they sum up to it. */
  lemma {:induction false} SumBound(c: seq<nat>, k: nat)
    requires forall l :: 0 <= l < |c| ==> c[l] <= k
    ensures Sum(c) <= |c| * k
    ensures Sum(c) == |c| * k ==> forall l :: 0 <= l < |c| ==> c[l] == k
  {
    if c != [] {
      var n := |c| - 1;
      SumBound(c[..n], k);
      assert |c| * k == n * k + k;
      assert forall l :: 0 <= l < n ==> c[l] == c[..n][l];
    }
  }

  lemma {:induction false} SumZero(n: nat)
    ensures Sum(seq(n, _ => 0)) == 0
  {
    if n > 0 {
      SumZero(n - 1);
      assert seq(n, _ => 0)[..n - 1] == seq(n - 1, _ => 0);
    }
  }

  ghost predicate CountsOk(s: State, i: nat)
    requires i < |s.members|
  {
    var m, n := s.members[i], |s.members|;
    && m.returned <= m.started <= m.returned + 1
    && |m.counted| == n
    && (forall j :: 0 <= j < n ==> m.counted[j] + Sleeping(m, j) <= s.members[j].started)
    && m.parked !! m.woken
    && (m.woken != {} ==> m.group.vars.Some?)
    && (m.started >= 1 <==> m.group.vars.Some?)
    && (m.started >= 1 ==> m.group.vars.value.second == n)
    && Sum(m.counted) == n * m.returned + (if m.group.vars.Some? then m.group.vars.value.first else 0)
  }

  ghost predicate Together(s: State, i: nat, j: nat)
    requires i < |s.members| && j < |s.members|
  {
    s.members[i].returned <= s.members[j].started
  }

  ghost predicate Counts(s: State) {
    && |s.members| > 0
    && 0 !in s.collective && 1 !in s.collective
    && (s.created != map[] ==> s.members[0].returned >= 1)
    && (forall i :: 0 <= i < |s.members| ==> CountsOk(s, i))
    && (forall i, j :: 0 <= i < |s.members| && 0 <= j < |s.members| ==> Together(s, i, j))
  }

  lemma OneMore(n: nat, k: nat)
    ensures n * (k + 1) == n * k + n
  {}

  /** A member can leave only when every member has started the round. */
  lemma LeaveMeansAllStarted(s: State, i: nat, j: nat)
    requires Counts(s) && Enabled(s, i, Return) && j < |s.members|
    ensures s.members[j].started >= s.members[i].returned + 1
  {
    var m, n := s.members[i], |s.members|;
    var k := m.returned + 1;
    assert CountsOk(s, i) && CountsOk(s, j) && Together(s, i, j);
    OneMore(n, m.returned);
    forall l | 0 <= l < n && s.members[j].started == m.returned ensures m.counted[l] <= k {
      assert CountsOk(s, l) && Together(s, l, j);
    }
    if s.members[j].started == m.returned {
      SumBound(m.counted, k);
    }
  }

  lemma CountsOfStarter(s: State, i: nat)
    requires Enabled(s, i, Start) && CountsOk(s, i)
    ensures CountsOk(Apply(s, i, Start), i)
  {
    var m', m, n := ApplyTo(s, i, Start), s.members[i], |s.members|;
    assert m'.counted == m.counted && m'.returned == m.returned;
    if m.started == 0 {
      assert m'.group.vars == Some(Vars(0, n));
    }
  }

  lemma CountedShape(m: Member, j: nat)
    requires j < |m.counted|
    ensures var m' := Counted(m, j);
      && m'.group == Count(m.group) && m'.started == m.started && m'.returned == m.returned
      && m'.counted == m.counted[j := m.counted[j] + 1] && Sum(m'.counted) == Sum(m.counted) + 1
      && m'.parked + m'.woken == m.parked + m.woken && (m.parked !! m.woken ==> m'.parked !! m'.woken)
  {
    SumIncrement(m.counted, j);
  }

  lemma CountsOfReceiver(s: State, i: nat, j: nat, sync: bool)
    requires Counts(s) && Enabled(s, i, Receive(j, sync))
    ensures CountsOk(Apply(s, i, Receive(j, sync)), i)
  {
    var m', m := ApplyTo(s, i, Receive(j, sync)), s.members[i];
    assert CountsOk(s, i) && CountsOk(s, j) && Together(s, j, i);
    CountedShape(m, j);
    forall l ensures Sleeping(m', l) == Sleeping(m, l) {
      assert l in m'.parked + m'.woken <==> l in m.parked + m.woken;
    }
  }

  /** A create message that was notified finds the entry, although it does not look again. */
  lemma CountsOfWoken(s: State, i: nat, j: nat)
    requires Counts(s) && Enabled(s, i, Wake(j))
    ensures CountsOk(Apply(s, i, Wake(j)), i) && s.members[i].group.vars.Some?
  {
    var m', m := ApplyTo(s, i, Wake(j)), s.members[i];
    var awake := m.(woken := m.woken - {j});
    assert CountsOk(s, i);
    CountedShape(awake, j);
    forall l ensures Sleeping(m', l) == Sleeping(awake, l) {
      assert l in m'.parked + m'.woken <==> l in awake.parked + awake.woken;
    }
  }

  /** A collective's idp comes after its root has joined, and so after every entry is made. */
  lemma CountsOfIdpReceiver(s: State, i: nat, r: nat)
    requires Counts(s) && Enabled(s, i, ReceiveIdp(r))
    ensures CountsOk(Apply(s, i, ReceiveIdp(r)), i) && s.members[i].group.vars.Some?
  {
    assert CountsOk(s, i) && Together(s, 0, i);
    assert ApplyTo(s, i, ReceiveIdp(r)).counted == s.members[i].counted;
  }

  lemma CountsOfLeaver(s: State, i: nat)
    requires Enabled(s, i, Return) && CountsOk(s, i)
    ensures CountsOk(Apply(s, i, Return), i)
  {
    var m', m := ApplyTo(s, i, Return), s.members[i];
    OneMore(|s.members|, m.returned);
    assert m'.counted == m.counted && m'.returned == m.returned + 1;
  }

  lemma CountsOfActor(s: State, i: nat, a: Action)
    requires Counts(s) && Enabled(s, i, a)
    ensures CountsOk(Apply(s, i, a), i)
  {
    assert CountsOk(s, i);
    match a
    case Start => CountsOfStarter(s, i);
    case Receive(j, sync) => CountsOfReceiver(s, i, j, sync);
    case Wake(j) => CountsOfWoken(s, i, j);
    case ReceiveIdp(r) => CountsOfIdpReceiver(s, i, r);
    case Return => CountsOfLeaver(s, i);
    case _ =>
      var m', m := ApplyTo(s, i, a), s.members[i];
      assert m'.counted == m.counted && m'.returned == m.returned && m'.group.vars == m.group.vars;
  }

  lemma CountsOfOther(s: State, i: nat, a: Action, l: nat)
    requires Enabled(s, i, a) && CountsOk(s, i) && l < |s.members| && l != i && CountsOk(s, l)
    ensures CountsOk(Apply(s, i, a), l)
  {
    var s' := Apply(s, i, a);
    assert s'.members[l] == s.members[l];
    assert s'.members[i].started >= s.members[i].started;
  }

  lemma CountsStep(s: State, i: nat, a: Action)
    requires Counts(s) && Enabled(s, i, a)
    ensures Counts(Apply(s, i, a))
  {
    var s', n := Apply(s, i, a), |s.members|;
    CountsOfActor(s, i, a);
    assert CountsOk(s, i);
    forall l | 0 <= l < n ensures CountsOk(s', l) {
      assert CountsOk(s, l);
      if l != i {
        CountsOfOther(s, i, a, l);
      }
    }
    forall l, j | 0 <= l < n && 0 <= j < n ensures Together(s', l, j) {
      TogetherStep(s, i, a, l, j);
    }
  }

  lemma TogetherStep(s: State, i: nat, a: Action, l: nat, j: nat)
    requires Counts(s) && Enabled(s, i, a) && l < |s.members| && j < |s.members|
    ensures Together(Apply(s, i, a), l, j)
  {
    assert Together(s, l, j);
    if a.Return? && l == i {
      LeaveMeansAllStarted(s, i, j);
    }
  }

  lemma CountsInit(s: State)
    requires Init(s)
    ensures Counts(s)
  {
    SumZero(|s.members|);
    forall i | 0 <= i < |s.members| ensures CountsOk(s, i) {
      assert s.members[i].counted == seq(|s.members|, _ => 0);
    }
  }

  lemma {:induction false} CountsHold(r: seq<State>, k: nat)
    requires IsRun(r) && k < |r|
    ensures Counts(r[k])
  {
    if k == 0 {
      CountsInit(r[0]);
    } else {
      CountsHold(r, k - 1);
      assert Next(r[k - 1], r[k]);
      var i, a :| Enabled(r[k - 1], i, a) && r[k] == Apply(r[k - 1], i, a);
      CountsStep(r[k - 1], i, a);
    }
  }

  /** No member returns from its n-th synchronization before every member has started its
      n-th. */
  lemma NobodyReturnsEarly(r: seq<State>, k: nat, i: nat, j: nat)
    requires IsRun(r) && k < |r| && i < |r[k].members| && j < |r[k].members|
    ensures r[k].members[i].returned <= r[k].members[j].started
  {
    CountsHold(r, k);
    assert Together(r[k], i, j);
  }

  /** A create message that found no entry and went to sleep never counts on an entry that does
      not exist, although it looks only once: whatever wakes it comes after the entry. */
  lemma WokenFindEntry(r: seq<State>, k: nat, i: nat, j: nat)
    requires IsRun(r) && k < |r| && i < |r[k].members| && Enabled(r[k], i, Wake(j))
    ensures CanCountCreate(r[k].members[i].group)
  {
    CountsHold(r, k);
    CountsOfWoken(r[k], i, j);
  }

  /** The counter never exceeds twice the number of members, so it does not wrap for any closure
      whose double size fits its 32 bits. */
  lemma CounterBounded(r: seq<State>, k: nat, i: nat)
    requires IsRun(r) && k < |r| && i < |r[k].members| && r[k].members[i].group.vars.Some?
    ensures r[k].members[i].group.vars.value.first <= 2 * |r[k].members|
    ensures r[k].members[i].group.vars.value.second == |r[k].members|
  {
    CountsHold(r, k);
    var s := r[k];
    var m, n := s.members[i], |s.members|;
    assert CountsOk(s, i);
    forall l | 0 <= l < n ensures m.counted[l] <= m.returned + 2 {
      assert CountsOk(s, l) && Together(s, l, i);
    }
    SumBound(m.counted, m.returned + 2);
    OneMore(n, m.returned);
    OneMore(n, m.returned + 1);
  }

  // ---- collective creation --------------------------------------------------------

  ghost predicate IdpOk(s: State, i: nat)
    requires i < |s.members|
  {
    var m := s.members[i];
    && (forall r :: r in m.got ==>
          r in s.created && m.got[r] == s.created[r] && r <= m.returned + 1 && r in s.collective)
    && (forall r :: r in s.collective && r <= m.started ==> r in m.got)
    && (forall r :: r in m.seen ==> r in s.created)
    && (i != 0 ==> forall r :: r in m.got ==> r in m.seen)
    && (i != 0 && m.group.cc.Some? ==>
          exists r :: r in m.seen && r in s.created && m.group.cc.value == s.created[r] && r > m.returned)
  }

  ghost predicate Idps(s: State) {
    && 0 !in s.collective && 1 !in s.collective
    && (forall i :: 0 <= i < |s.members| ==> IdpOk(s, i))
    && |s.members| > 0
    && (forall r :: r in s.created ==> r in s.members[0].got)
  }

  /** The idp that a member finds is that of the round it is in: the ones of earlier rounds
      have been erased, and the root cannot be in a later round. */
  lemma CurrentIdp(s: State, i: nat)
    requires Counts(s) && Idps(s) && Enabled(s, i, ReadIdp)
    ensures s.members[i].returned + 1 in s.created
    ensures s.members[i].group.cc.value == s.created[s.members[i].returned + 1]
    ensures s.members[i].returned + 1 in s.members[i].seen
  {
    var m := s.members[i];
    assert IdpOk(s, i) && IdpOk(s, 0) && Together(s, 0, i) && CountsOk(s, 0);
    var r :| r in m.seen && r in s.created && m.group.cc.value == s.created[r] && r > m.returned;
    assert r in s.members[0].got;
  }

  lemma IdpOfReceiver(s: State, i: nat, r: nat)
    requires Counts(s) && Idps(s) && Enabled(s, i, ReceiveIdp(r))
    ensures IdpOk(Apply(s, i, ReceiveIdp(r)), i)
  {
    var s', m := Apply(s, i, ReceiveIdp(r)), s.members[i];
    assert IdpOk(s, i) && IdpOk(s, 0) && CountsOk(s, i);
    assert r in s.members[0].got;
    assert s'.members[i].group.cc == Some(s.created[r]);
  }

  lemma IdpOfLeaver(s: State, i: nat)
    requires Counts(s) && Idps(s) && Enabled(s, i, Return)
    ensures IdpOk(Apply(s, i, Return), i)
  {
    var s', m := Apply(s, i, Return), s.members[i];
    assert IdpOk(s, i) && IdpOk(s, 0) && CountsOk(s, i);
    assert s'.members[i].group.cc == if m.returned + 1 > 1 then None else m.group.cc;
    if i != 0 && s'.members[i].group.cc.Some? {
      var r :| r in m.seen && r in s.created && m.group.cc.value == s.created[r] && r > m.returned;
      assert r in s.members[0].got;
    }
  }

  lemma IdpOfCreator(s: State, i: nat, idp: Idp)
    requires Counts(s) && Idps(s) && Enabled(s, i, CreateAtRoot(idp))
    ensures IdpOk(Apply(s, i, CreateAtRoot(idp)), i)
  {
    assert IdpOk(s, 0) && CountsOk(s, 0);
    assert s.members[0].returned + 1 !in s.created;
  }

  lemma IdpOfReader(s: State, i: nat)
    requires Counts(s) && Idps(s) && Enabled(s, i, ReadIdp)
    ensures IdpOk(Apply(s, i, ReadIdp), i)
  {
    assert IdpOk(s, i) && CountsOk(s, i);
    CurrentIdp(s, i);
  }

  /** The other steps touch neither the collective idp nor what is known of it. */
  lemma IdpUntouched(s: State, i: nat, a: Action)
    requires Counts(s) && Idps(s) && Enabled(s, i, a) && (a.Start? || a.Receive? || a.Park? || a.Wake?)
    ensures IdpOk(Apply(s, i, a), i)
  {
    assert IdpOk(s, i) && CountsOk(s, i);
    var m', m := ApplyTo(s, i, a), s.members[i];
    assert m'.got == m.got && m'.seen == m.seen && m'.returned == m.returned && m'.group.cc == m.group.cc;
  }

  lemma IdpOfActor(s: State, i: nat, a: Action)
    requires Counts(s) && Idps(s) && Enabled(s, i, a)
    ensures IdpOk(Apply(s, i, a), i)
  {
    match a
    case CreateAtRoot(idp) => IdpOfCreator(s, i, idp);
    case ReadIdp => IdpOfReader(s, i);
    case ReceiveIdp(r) => IdpOfReceiver(s, i, r);
    case Return => IdpOfLeaver(s, i);
    case _ => IdpUntouched(s, i, a);
  }

  lemma IdpOfOther(s: State, i: nat, a: Action, l: nat)
    requires Idps(s) && Enabled(s, i, a) && l < |s.members| && l != i
    ensures IdpOk(Apply(s, i, a), l)
  {
    assert IdpOk(s, l);
    var s' := Apply(s, i, a);
    assert forall r :: r in s.created ==> r in s'.created && s'.created[r] == s.created[r];
  }

  lemma IdpsStep(s: State, i: nat, a: Action)
    requires Counts(s) && Idps(s) && Enabled(s, i, a)
    ensures Idps(Apply(s, i, a))
  {
    var s' := Apply(s, i, a);
    forall l | 0 <= l < |s'.members| ensures IdpOk(s', l) {
      if l == i {
        IdpOfActor(s, i, a);
      } else {
        IdpOfOther(s, i, a, l);
      }
    }
  }

  lemma {:induction false} IdpsHold(r: seq<State>, k: nat)
    requires IsRun(r) && k < |r|
    ensures Idps(r[k])
  {
    if k > 0 {
      IdpsHold(r, k - 1);
      CountsHold(r, k - 1);
      assert Next(r[k - 1], r[k]);
      var i, a :| Enabled(r[k - 1], i, a) && r[k] == Apply(r[k - 1], i, a);
      IdpsStep(r[k - 1], i, a);
    }
  }

  /** In the step from `s` to `s'` the root has created `idp` for this round. */
  ghost predicate Creates(s: State, s': State, round: nat, idp: Idp) {
    && Enabled(s, 0, CreateAtRoot(idp)) && s' == Apply(s, 0, CreateAtRoot(idp))
    && s.members[0].returned + 1 == round
  }

  lemma {:induction false} RootCreated(r: seq<State>, k: nat, round: nat) returns (j: nat, idp: Idp)
    requires IsRun(r) && k < |r| && |r[k].members| > 0 && round in r[k].members[0].got
    ensures j < k && Creates(r[j], r[j + 1], round, idp) && r[k].members[0].got[round] == idp
  {
    assert k > 0;
    assert Next(r[k - 1], r[k]);
    RootGets(r[k - 1], r[k], round);
    if round in r[k - 1].members[0].got {
      j, idp := RootCreated(r, k - 1, round);
    } else {
      idp :| Creates(r[k - 1], r[k], round, idp);
      j := k - 1;
    }
  }

  /** The root gets what a round refers to by creating it, and never changes it. */
  lemma RootGets(s: State, s': State, round: nat)
    requires Next(s, s') && |s'.members| > 0 && round in s'.members[0].got
    ensures |s.members| == |s'.members|
    ensures round in s.members[0].got ==> s'.members[0].got[round] == s.members[0].got[round]
    ensures round !in s.members[0].got ==> Creates(s, s', round, s'.members[0].got[round])
  {
    var i, a :| Enabled(s, i, a) && s' == Apply(s, i, a);
    if i != 0 {
      assert s'.members[0] == s.members[0];
    } else if !a.CreateAtRoot? {
      assert s'.members[0].got == s.members[0].got;
    }
  }

  /** In every collective round, each member that has left the round refers to the resource
      that the root created in that same round. */
  lemma CollectiveRefersToRoot(r: seq<State>, k: nat, i: nat, round: nat) returns (j: nat, idp: Idp)
    requires IsRun(r) && k < |r| && i < |r[k].members|
    requires round in r[k].collective && round <= r[k].members[i].returned
    ensures j < k && Creates(r[j], r[j + 1], round, idp)
    ensures round in r[k].members[i].got && r[k].members[i].got[round] == idp
    ensures round in r[k].members[0].got && r[k].members[0].got[round] == idp
  {
    IdpsHold(r, k);
    CountsHold(r, k);
    assert IdpOk(r[k], i) && IdpOk(r[k], 0) && CountsOk(r[k], i);
    j, idp := RootCreated(r, k, round);
  }
}
