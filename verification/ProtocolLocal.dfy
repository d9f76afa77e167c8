/** The protocol refines the monitors: what the steps of all pods do to one pod is a run of its
    readers/writer monitor with one application thread. */
module ProtocolLocal {
  import opened Consistency
  import opened Protocol
  import L = LocalMonitor
  import TokenSafety

  function One(b: bool): nat { if b then 1 else 0 }

  /** The monitor of a pod, with its thread where the client stands. */
  function MonitorOf(q: Pod): L.Monitor {
    L.Monitor(q.obj, One(q.client.AwaitUpdate?), One(q.client.Reading?), 0,
              One(q.client.AwaitToken?), One(q.client.Writing?))
  }

  /** The sections of the monitor that a step of the pod runs through. */
  function Sections(s: State, p: PodId, a: Action): seq<L.Step>
    requires Possible(s, p, a)
  {
    var q := s.pods[p];
    match a
    case Join => []
    case AcquireRead => [L.EnterRead]
    case ReleaseRead => [L.LeaveRead]
    case AcquireWrite => [L.EnqueueWriter, L.PassWriter]
    case Mutate(op) => [L.Mutate(op)]
    case ReleaseWrite => [L.LeaveWrite]
    case Resume =>
      if q.client.AwaitUpdate? then [L.FinishRead] else if q.client.AwaitToken? then [L.FinishWrite] else []
    case Deliver =>
      if IsRequest(s.log[q.cursor]) then [L.DrawTicket]
      else if Addressed(s.log[q.cursor], p) then [L.Handler(s.log[q.cursor])]
      else []
    case Run(t) => [L.Ticket(q.tickets[t].no, s.log[q.tickets[t].pos])]
  }

  ghost predicate Leads(m: L.Monitor, acts: seq<L.Step>, m': L.Monitor)
    decreases |acts|
  {
    if acts == [] then m' == m
    else L.Enabled(m, acts[0]) && Leads(L.Apply(m, acts[0]), acts[1..], m')
  }

  /** What these sections send. */
  function SentBy(m: L.Monitor, acts: seq<L.Step>): seq<Message>
    decreases |acts|
  {
    if acts == [] || !L.Enabled(m, acts[0]) then []
    else TokenSafety.StepSends(m, acts[0]) + SentBy(L.Apply(m, acts[0]), acts[1..])
  }

  /** A step moves its own pod through these sections, appends to the log what they send, and
      leaves every other pod alone. */
  lemma StepIsLocal(s: State, p: PodId, a: Action)
    requires Possible(s, p, a)
    ensures var s' := Apply(s, p, a);
      && |s'.pods| == |s.pods| && s'.owner == s.owner
      && s'.log == s.log + (if a.Join? then [JoinGroup(s.pods[p].obj.self)]
                            else SentBy(MonitorOf(s.pods[p]), Sections(s, p, a)))
      && Leads(MonitorOf(s.pods[p]), Sections(s, p, a), MonitorOf(s'.pods[p]))
      && forall r :: 0 <= r < |s.pods| && r != p ==> s'.pods[r] == s.pods[r]
  {
    var m, m', acts := MonitorOf(s.pods[p]), MonitorOf(Apply(s, p, a).pods[p]), Sections(s, p, a);
    if a.AcquireWrite? {
      TwoSections(m, L.EnqueueWriter, L.PassWriter);
    } else if acts != [] {
      OneSection(m, acts[0]);
    }
  }

  lemma OneSection(m: L.Monitor, a: L.Step)
    requires L.Enabled(m, a)
    ensures Leads(m, [a], L.Apply(m, a)) && SentBy(m, [a]) == TokenSafety.StepSends(m, a)
  {}

  lemma TwoSections(m: L.Monitor, a: L.Step, b: L.Step)
    requires L.Enabled(m, a) && L.Enabled(L.Apply(m, a), b)
    ensures Leads(m, [a, b], L.Apply(L.Apply(m, a), b))
    ensures SentBy(m, [a, b]) == TokenSafety.StepSends(m, a) + TokenSafety.StepSends(L.Apply(m, a), b)
  {
    OneSection(L.Apply(m, a), b);
    assert [a, b][1..] == [b];
  }

  lemma {:induction false} Continue(ms: seq<L.Monitor>, acts: seq<L.Step>, more: seq<L.Step>, m: L.Monitor)
    returns (ms': seq<L.Monitor>, acts': seq<L.Step>)
    requires L.IsRun(ms, acts) && Leads(L.Last(ms), more, m)
    ensures L.IsRun(ms', acts') && L.Last(ms') == m
    decreases |more|
  {
    ms', acts' := ms, acts;
    if more != [] {
      ms', acts' := L.Extend(ms, acts, more[0]);
      ms', acts' := Continue(ms', acts', more[1..], m);
    }
  }

  lemma NextIsLocal(s: State, s': State, p: PodId) returns (acts: seq<L.Step>)
    requires FreeNext(s, s') && p < |s'.pods|
    ensures p < |s.pods| && Leads(MonitorOf(s.pods[p]), acts, MonitorOf(s'.pods[p]))
  {
    var p', a :| Possible(s, p', a) && s' == Apply(s, p', a);
    StepIsLocal(s, p', a);
    acts := if p == p' then Sections(s, p, a) else [];
  }

  lemma StartsItsMonitor(s: State, p: PodId) returns (ms: seq<L.Monitor>, acts: seq<L.Step>)
    requires Init(s) && p < |s.pods|
    ensures L.IsRun(ms, acts) && L.Last(ms) == MonitorOf(s.pods[p])
  {
    ms, acts := [L.Initial(p, p == s.owner)], [];
    assert s.pods[p].obj == NewObj(p, p == s.owner);
  }

  /** Whatever the pods do and however handlers lag behind, each pod goes through a run of its
      monitor: what holds of the monitor's runs holds of every pod. */
  lemma {:induction false} PodRunsItsMonitor(r: seq<State>, k: nat, p: PodId)
    returns (ms: seq<L.Monitor>, acts: seq<L.Step>)
    requires IsFreeRun(r) && k < |r| && p < |r[k].pods|
    ensures L.IsRun(ms, acts) && L.Last(ms) == MonitorOf(r[k].pods[p])
  {
    if k == 0 {
      ms, acts := StartsItsMonitor(r[0], p);
    } else {
      assert FreeNext(r[k - 1], r[k]);
      var more := NextIsLocal(r[k - 1], r[k], p);
      ms, acts := PodRunsItsMonitor(r, k - 1, p);
      ms, acts := Continue(ms, acts, more, MonitorOf(r[k].pods[p]));
    }
  }
}
