/** Why a reader must run before its pod's next delivery: one that is overtaken by another
    pod's invalidation is never served again. */
module ProtocolStranding {
  import opened Consistency
  import opened Protocol
  import opened ProtocolInvariant
  import opened ProtocolValues
  import opened ProtocolTheorems

  /** States that follow each other by steps under A2. */
  ghost predicate Continues(c: seq<State>) {
    |c| > 0 && forall j :: 0 < j < |c| ==> Next(c[j - 1], c[j])
  }

  /** The client of `p` waits, and whatever the pods do under A2, it never becomes ready and
      no reply is ever sent to it. */
  ghost predicate Stranded(s: State, p: PodId) {
    forall c, j :: Continues(c) && c[0] == s && 0 <= j < |c| ==> LeftWaiting(s, c[j], p)
  }

  ghost predicate LeftWaiting(s: State, s': State, p: PodId) {
    && p < |s.pods| && p < |s'.pods|
    && Waiting(s'.pods[p].client) && s'.pods[p].client == s.pods[p].client && !Ready(s'.pods[p])
    && forall i :: 0 <= i < |s'.log| && IsReply(s'.log[i]) && s'.log[i].to == p ==>
         i < s'.pods[p].cursor && i < |s.log|
  }

  // ---- the run in which the reader had gone on ------------------------------------

  /** `t` is `s` but for the reader on `p`, which is inside its read section instead of
      waiting for its update. */
  ghost predicate Twin(s: State, t: State, p: PodId) {
    && p < |s.pods| == |t.pods| && t.owner == s.owner && t.log == s.log
    && (forall r :: 0 <= r < |s.pods| && r != p ==> t.pods[r] == s.pods[r])
    && s.pods[p].client.AwaitUpdate? && t.pods[p].client.Reading?
    && s.pods[p] == t.pods[p].(client := s.pods[p].client, obj := t.pods[p].obj.(wupdate := s.pods[p].obj.wupdate))
    && !s.pods[p].obj.validity
  }

  /** No reply is on its way to a pod whose client is inside a section. */
  lemma NothingForReader(t: State, p: PodId, i: nat)
    requires Inv(t) && p < |t.pods| && t.pods[p].client.Reading?
    ensures !FliesTo(t, i, p)
  {
    if i < |t.log| {
      assert ReplyAt(t, i);
    }
  }

  /** No ticket looks at the flag for a pending update. */
  lemma TicketIgnoresFlag(o: Obj, u: bool, m: Message)
    requires IsRequest(m)
    ensures RunTicketSends(o.(wupdate := u), m) == RunTicketSends(o, m)
    ensures RunTicket(o.(wupdate := u), m).(wupdate := u) == RunTicket(o, m).(wupdate := u)
  {}

  lemma TwinQuiescent(s: State, t: State, p: PodId)
    requires Twin(s, t, p) && Quiescent(s.log, s.pods[p])
    ensures Quiescent(t.log, t.pods[p])
  {
    forall n | 0 <= n < |t.pods[p].tickets| ensures !TicketReady(t.log, t.pods[p], n) {
      assert !TicketReady(s.log, s.pods[p], n);
    }
  }

  lemma TwinHandles(s: State, t: State, p: PodId)
    requires Twin(s, t, p) && Possible(s, p, Deliver) && Addressed(s.log[s.pods[p].cursor], p)
    requires s.log[s.pods[p].cursor].Invalidate? || s.log[s.pods[p].cursor].TokenAck?
    ensures Twin(Delivered(s, p), Delivered(t, p), p)
  {
    Handled(s, p);
    Handled(t, p);
  }

  lemma Handled(s: State, p: PodId)
    requires Possible(s, p, Deliver) && Addressed(s.log[s.pods[p].cursor], p)
    requires s.log[s.pods[p].cursor].Invalidate? || s.log[s.pods[p].cursor].TokenAck?
    ensures var q, ack := s.pods[p], s.log[s.pods[p].cursor].TokenAck?;
      var o := q.obj.(validity := q.obj.validity && ack, wtokenAck := q.obj.wtokenAck && !ack);
      Delivered(s, p) == State(s.owner, s.pods[p := q.(cursor := q.cursor + 1, obj := o)], s.log)
  {
    assert s.log + [] == s.log;
  }

  lemma TwinDrawsTicket(s: State, t: State, p: PodId)
    requires Twin(s, t, p) && Possible(s, p, Deliver) && IsRequest(s.log[s.pods[p].cursor])
    ensures Twin(Delivered(s, p), Delivered(t, p), p)
  {}

  lemma TwinSkips(s: State, t: State, p: PodId)
    requires Twin(s, t, p) && Possible(s, p, Deliver) && !Addressed(s.log[s.pods[p].cursor], p)
    ensures Twin(Delivered(s, p), Delivered(t, p), p)
  {}

  lemma TwinDelivers(s: State, t: State, p: PodId)
    requires Inv(t) && Twin(s, t, p) && Possible(s, p, Deliver)
    ensures Possible(t, p, Deliver) && Twin(Delivered(s, p), Delivered(t, p), p)
  {
    var m := s.log[s.pods[p].cursor];
    NothingForReader(t, p, s.pods[p].cursor);
    assert IsReply(m) ==> m.to != p;
    if IsRequest(m) {
      TwinDrawsTicket(s, t, p);
    } else if !Addressed(m, p) {
      TwinSkips(s, t, p);
    } else {
      TwinHandles(s, t, p);
    }
  }

  lemma TwinRuns(s: State, t: State, p: PodId, n: nat)
    requires Twin(s, t, p) && Possible(s, p, Run(n))
    ensures Possible(t, p, Run(n)) && Twin(TicketRun(s, p, n), TicketRun(t, p, n), p)
  {
    var m := s.log[s.pods[p].tickets[n].pos];
    TicketKeepsValue(s.pods[p].obj, m);
    TicketIgnoresFlag(t.pods[p].obj, s.pods[p].obj.wupdate, m);
  }

  /** A step depends on the log and on the state of its own pod only. */
  lemma StepIsLocal(s: State, t: State, r: PodId, a: Action)
    requires Enabled(s, r, a) && r < |t.pods| && t.pods[r] == s.pods[r] && t.log == s.log
    ensures Enabled(t, r, a)
    ensures Apply(t, r, a) == State(t.owner, t.pods[r := Apply(s, r, a).pods[r]], Apply(s, r, a).log)
  {
    match a
    case Join =>
    case AcquireRead =>
    case ReleaseRead =>
    case AcquireWrite =>
    case Mutate(_) =>
    case ReleaseWrite =>
    case Resume =>
    case Deliver =>
    case Run(_) =>
  }

  lemma OthersUntouched(s: State, r: PodId, a: Action)
    requires Possible(s, r, a)
    ensures Apply(s, r, a) == State(s.owner, s.pods[r := Apply(s, r, a).pods[r]], Apply(s, r, a).log)
  {}

  /** What the overtaken pod can do, its twin can do too, with the same effect. */
  lemma TwinSteps(s: State, t: State, p: PodId, r: PodId, a: Action)
    requires Inv(t) && Twin(s, t, p) && Enabled(s, r, a)
    ensures Enabled(t, r, a) && Twin(Apply(s, r, a), Apply(t, r, a), p)
  {
    if r != p {
      StepIsLocal(s, t, r, a);
      OthersUntouched(s, r, a);
    } else if a.Deliver? {
      TwinQuiescent(s, t, p);
      TwinDelivers(s, t, p);
    } else {
      assert a.Run?;
      TwinRuns(s, t, p, a.t);
    }
  }

  lemma NoneSent(t: State, p: PodId)
    requires Inv(t) && p < |t.pods| && t.pods[p].client.Reading?
    ensures forall i :: 0 <= i < |t.log| && IsReply(t.log[i]) && t.log[i].to == p ==> i < t.pods[p].cursor
  {
    forall i | 0 <= i < |t.log| && IsReply(t.log[i]) && t.log[i].to == p ensures i < t.pods[p].cursor {
      NothingForReader(t, p, i);
    }
  }

  lemma TwinNext(s0: State, s: State, s': State, t: State, p: PodId) returns (t': State)
    requires Inv(t) && Twin(s, t, p) && LeftWaiting(s0, s, p) && Next(s, s')
    ensures Inv(t') && Twin(s', t', p) && LeftWaiting(s0, s', p)
  {
    var r, a :| Enabled(s, r, a) && s' == Apply(s, r, a);
    t' := Apply(t, r, a);
    TwinSteps(s, t, p, r, a);
    InvStep(t, r, a);
    assert PodShape(t, p);
    StepOnWaiting(s, r, a, p);
    StaysWaiting(s0, s, s', t, t', p);
  }

  lemma {:induction false} TwinOf(c: seq<State>, j: nat, t0: State, p: PodId) returns (t: State)
    requires Continues(c) && j < |c| && Inv(t0) && Twin(c[0], t0, p) && LeftWaiting(c[0], c[0], p)
    ensures Inv(t) && Twin(c[j], t, p) && LeftWaiting(c[0], c[j], p)
  {
    t := t0;
    if j > 0 {
      t := TwinOf(c, j - 1, t0, p);
      t := TwinNext(c[0], c[j - 1], c[j], t, p);
    }
  }

  lemma StepOnWaiting(s: State, r: PodId, a: Action, p: PodId)
    requires Possible(s, r, a) && p < |s.pods| && s.pods[p].client.AwaitUpdate? && !Ready(s.pods[p])
    requires s.pods[p].cursor <= |s.log|
    ensures var s' := Apply(s, r, a);
      s.log <= s'.log && s'.pods[p].client == s.pods[p].client && s'.pods[p].cursor <= |s.log|
  {
    match a
    case Join =>
    case AcquireRead =>
    case ReleaseRead =>
    case AcquireWrite =>
    case Mutate(_) =>
    case ReleaseWrite =>
    case Resume =>
    case Deliver =>
    case Run(_) =>
  }

  lemma StaysWaiting(s0: State, s: State, s': State, t: State, t': State, p: PodId)
    requires Inv(t) && Twin(s, t, p) && LeftWaiting(s0, s, p)
    requires Inv(t') && Twin(s', t', p) && s.log <= s'.log
    requires s'.pods[p].client == s.pods[p].client
    requires s'.pods[p].cursor <= |s.log|
    ensures LeftWaiting(s0, s', p)
  {
    NoneSent(t', p);
    forall i | 0 <= i < |s'.log| && IsReply(s'.log[i]) && s'.log[i].to == p ensures i < |s0.log| {
      assert s'.log[i] == s.log[i];
    }
  }

  // ---- overtaken readers ----------------------------------------------------------

  /** Had the reader gone on first, its pod could have delivered the invalidation all the same. */
  lemma OvertakenTwin(s: State, p: PodId) returns (t: State)
    requires Inv(s) && p < |s.pods| && s.pods[p].client.AwaitUpdate? && Ready(s.pods[p])
    requires s.pods[p].cursor < |s.log| && s.log[s.pods[p].cursor].Invalidate? && s.log[s.pods[p].cursor].from != p
    ensures Inv(t) && Twin(Delivered(s, p), t, p) && LeftWaiting(Delivered(s, p), Delivered(s, p), p)
  {
    var t1 := Resumed(s, p);
    InvStep(s, p, Resume);
    InvDeliver(t1, p);
    t := Delivered(t1, p);
    NoneSent(t, p);
    assert PodShape(s, p);
  }

  /** A reader whose update has come, and whose pod delivers its next message before the reader
      runs, is stranded exactly if that message is another pod's invalidation. */
  lemma OvertakenReaderIsStranded(r: seq<State>, k: nat, p: PodId)
    requires IsRun(r) && k < |r| && p < |r[k].pods|
    requires r[k].pods[p].client.AwaitUpdate? && Ready(r[k].pods[p]) && r[k].pods[p].cursor < |r[k].log|
    ensures var m := r[k].log[r[k].pods[p].cursor];
      Stranded(Delivered(r[k], p), p) <==> (m.Invalidate? && m.from != p)
  {
    var s := r[k];
    var s', m := Delivered(s, p), s.log[s.pods[p].cursor];
    InvHolds(r, k);
    if m.Invalidate? && m.from != p {
      var t0 := OvertakenTwin(s, p);
      forall c, j | Continues(c) && c[0] == s' && 0 <= j < |c| ensures LeftWaiting(s', c[j], p) {
        var t := TwinOf(c, j, t0, p);
      }
    } else {
      assert PodShape(s, p);
      StillReady(s, p);
      assert Continues([s']);
      assert Stranded(s', p) ==> LeftWaiting(s', [s'][0], p);
    }
  }

  lemma StillReady(s: State, p: PodId)
    requires Possible(s, p, Deliver) && s.pods[p].client.AwaitUpdate? && Ready(s.pods[p]) && s.pods[p].obj.self == p
    requires var m := s.log[s.pods[p].cursor]; !(m.Invalidate? && m.from != p)
    ensures Ready(Delivered(s, p).pods[p])
  {}

  // ---- it happens -----------------------------------------------------------------

  function Last(r: seq<State>): State
    requires r != []
  {
    r[|r| - 1]
  }

  lemma Extend(r: seq<State>, p: PodId, a: Action) returns (r': seq<State>)
    requires IsRun(r) && Enabled(Last(r), p, a)
    ensures IsRun(r') && Last(r') == Apply(Last(r), p, a)
  {
    r' := r + [Apply(Last(r), p, a)];
    forall k | 0 < k < |r'| ensures Next(r'[k - 1], r'[k]) {
      if k < |r| {
        assert Next(r[k - 1], r[k]);
      }
    }
  }

  const NEW0: Obj := NewObj(0, true)
  const NEW1: Obj := NewObj(1, false)

  const START: State := State(0, [
    Pod(NEW0, Idle, [], 0, 0),
    Pod(NEW1, Absent, [], 0, 0)],
    [])

  /** Pod 1 has asked for its replica, and pod 0 has answered. */
  const REPLICA_SENT: State := State(0, [
    Pod(NEW0.(totalReq := 1, nextReq := 1), Idle, [], 1, 1),
    Pod(NEW1, Joining(0), [], 0, 0)],
    [JoinGroup(1), CreateReplica(0, 1, [])])

  /** Pod 1 has got its replica. */
  const REPLICA_THERE: State := State(0, [
    Pod(NEW0.(totalReq := 1, nextReq := 1), Idle, [], 1, 1),
    Pod(NEW1.(hasRsc := true, totalReq := 1, nextReq := 1), Joining(0), [], 2, 1)],
    [JoinGroup(1), CreateReplica(0, 1, [])])

  /** Pod 1 has asked for an update. */
  const UPDATE_ASKED: State := State(0, [
    Pod(NEW0.(totalReq := 1, nextReq := 1), Idle, [], 1, 1),
    Pod(NEW1.(hasRsc := true, reading := 1, totalReq := 1, nextReq := 1), AwaitUpdate(2), [], 2, 1)],
    [JoinGroup(1), CreateReplica(0, 1, []), UpdateRequest(1)])

  /** Pod 0 has answered. */
  const UPDATE_SENT: State := State(0, [
    Pod(NEW0.(totalReq := 2, nextReq := 2), Idle, [], 3, 3),
    Pod(NEW1.(hasRsc := true, reading := 1, totalReq := 1, nextReq := 1), AwaitUpdate(2), [], 2, 1)],
    [JoinGroup(1), CreateReplica(0, 1, []), UpdateRequest(1), UpdateReply(0, 1, [])])

  /** Pod 0 writes again. */
  const OWNER_WRITING: State := State(0, [
    Pod(NEW0.(writing := 1, totalReq := 2, nextReq := 2), Writing, [], 3, 3),
    Pod(NEW1.(hasRsc := true, reading := 1, totalReq := 1, nextReq := 1), AwaitUpdate(2), [], 2, 1)],
    [JoinGroup(1), CreateReplica(0, 1, []), UpdateRequest(1), UpdateReply(0, 1, [])])

  /** Pod 0 has released its write. */
  const INVALIDATED: State := State(0, [
    Pod(NEW0.(totalReq := 2, nextReq := 2), Idle, [], 3, 3),
    Pod(NEW1.(hasRsc := true, reading := 1, totalReq := 1, nextReq := 1), AwaitUpdate(2), [], 2, 1)],
    [JoinGroup(1), CreateReplica(0, 1, []), UpdateRequest(1), UpdateReply(0, 1, []), Invalidate(0, [])])

  /** Pod 1 has got its update, and the invalidation is next. */
  const OVERTAKEN: State := State(0, [
    Pod(NEW0.(totalReq := 2, nextReq := 2), Idle, [], 3, 3),
    Pod(NEW1.(hasRsc := true, validity := true, reading := 1, totalReq := 2, nextReq := 2, wupdate := true),
        AwaitUpdate(2), [], 4, 3)],
    [JoinGroup(1), CreateReplica(0, 1, []), UpdateRequest(1), UpdateReply(0, 1, []), Invalidate(0, [])])

  lemma ReplicaIsSent(r: seq<State>) returns (r': seq<State>)
    requires IsRun(r) && Last(r) == START
    ensures IsRun(r') && Last(r') == REPLICA_SENT
  {
    r' := r;
    r' := Extend(r', 1, Join);
    r' := Extend(r', 0, Deliver);
    assert Last(r').pods[0].tickets == [Ticket(0, 0)];
    r' := Extend(r', 0, Run(0));
    assert Last(r').pods[0].tickets == [];
    assert Last(r').log == REPLICA_SENT.log && Last(r').pods == REPLICA_SENT.pods;
  }

  lemma ReplicaArrives(r: seq<State>) returns (r': seq<State>)
    requires IsRun(r) && Last(r) == REPLICA_SENT
    ensures IsRun(r') && Last(r') == REPLICA_THERE
  {
    r' := r;
    r' := Extend(r', 1, Deliver);
    assert Last(r').pods[1].tickets == [Ticket(0, 0)];
    r' := Extend(r', 1, Run(0));
    assert Last(r').pods[1].tickets == [];
    r' := Extend(r', 1, Deliver);
    assert Last(r').log == REPLICA_THERE.log && Last(r').pods == REPLICA_THERE.pods;
  }

  lemma UpdateIsAsked(r: seq<State>) returns (r': seq<State>)
    requires IsRun(r) && Last(r) == REPLICA_THERE
    ensures IsRun(r') && Last(r') == UPDATE_ASKED
  {
    r' := r;
    r' := Extend(r', 1, Resume);
    r' := Extend(r', 1, AcquireRead);
    assert Last(r').log == UPDATE_ASKED.log && Last(r').pods == UPDATE_ASKED.pods;
  }

  lemma UpdateIsSent(r: seq<State>) returns (r': seq<State>)
    requires IsRun(r) && Last(r) == UPDATE_ASKED
    ensures IsRun(r') && Last(r') == UPDATE_SENT
  {
    r' := r;
    r' := Extend(r', 0, Deliver);
    r' := Extend(r', 0, Deliver);
    assert Last(r').pods[0].tickets == [Ticket(1, 2)];
    r' := Extend(r', 0, Run(0));
    assert Last(r').pods[0].tickets == [];
    assert Last(r').log == UPDATE_SENT.log && Last(r').pods == UPDATE_SENT.pods;
  }

  lemma OwnerWrites(r: seq<State>) returns (r': seq<State>)
    requires IsRun(r) && Last(r) == UPDATE_SENT
    ensures IsRun(r') && Last(r') == OWNER_WRITING
  {
    r' := r;
    r' := Extend(r', 0, AcquireWrite);
    assert Last(r').log == OWNER_WRITING.log && Last(r').pods == OWNER_WRITING.pods;
  }

  lemma OwnerReleases(r: seq<State>) returns (r': seq<State>)
    requires IsRun(r) && Last(r) == OWNER_WRITING
    ensures IsRun(r') && Last(r') == INVALIDATED
  {
    r' := r;
    r' := Extend(r', 0, ReleaseWrite);
    assert Last(r').log == INVALIDATED.log && Last(r').pods == INVALIDATED.pods;
  }

  lemma UpdateArrives(r: seq<State>) returns (r': seq<State>)
    requires IsRun(r) && Last(r) == INVALIDATED
    ensures IsRun(r') && Last(r') == OVERTAKEN
  {
    r' := r;
    r' := Extend(r', 1, Deliver);
    assert Last(r').pods[1].tickets == [Ticket(1, 2)];
    r' := Extend(r', 1, Run(0));
    assert Last(r').pods[1].tickets == [];
    r' := Extend(r', 1, Deliver);
    assert Last(r').log == OVERTAKEN.log && Last(r').pods == OVERTAKEN.pods;
  }

  /** Two pods suffice: pod 0 writes again while its update is on its way to pod 1. */
  lemma StrandingHappens() returns (r: seq<State>)
    ensures IsRun(r) && |Last(r).pods| == 2 && Last(r).pods[1].client.AwaitUpdate? && Ready(Last(r).pods[1])
    ensures Last(r).pods[1].cursor < |Last(r).log| && Stranded(Delivered(Last(r), 1), 1)
  {
    r := [START];
    r := ReplicaIsSent(r);
    r := ReplicaArrives(r);
    r := UpdateIsAsked(r);
    r := UpdateIsSent(r);
    r := OwnerWrites(r);
    r := OwnerReleases(r);
    r := UpdateArrives(r);
    OvertakenReaderIsStranded(r, |r| - 1, 1);
  }
}
