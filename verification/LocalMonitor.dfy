/** The readers/writer monitor of one pod, with any number of local threads.

    The state adds to the object how many threads stand at each wait and inside each
    section. Message handlers may run between any two thread steps, in any order. */
module LocalMonitor {
  import opened Consistency

  datatype Monitor = Monitor(
    obj: Obj,
    awaitUpdate: nat,   // in AcquireRead, waiting for the replica to become valid
    readers: nat,       // inside a read section
    awaitTurn: nat,     // in AcquireWrite, before the first wait has let them pass
    awaitToken: nat,    // in AcquireWrite, waiting for the token
    writers: nat)       // inside a write section

  datatype Step =
    | EnterRead | FinishRead | LeaveRead
    | EnqueueWriter | PassWriter | FinishWrite | LeaveWrite
    | Mutate(op: int)
    | DrawTicket
    | Ticket(no: nat, req: Message)
    | Handler(msg: Message)

  predicate Enabled(m: Monitor, a: Step) {
    match a
    case EnterRead => CanEnterRead(m.obj)
    case FinishRead => m.awaitUpdate > 0 && CanFinishRead(m.obj)
    case LeaveRead => m.readers > 0
    case EnqueueWriter => true
    case PassWriter => m.awaitTurn > 0 && CanPassWriter(m.obj)
    case FinishWrite => m.awaitToken > 0 && CanFinishWrite(m.obj)
    case LeaveWrite => m.writers > 0
    case Mutate(_) => m.writers > 0
    case DrawTicket => true
    case Ticket(no, req) => IsRequest(req) && CanRunTicket(m.obj, no, req)
    case Handler(msg) => !IsRequest(msg)
  }

  function Apply(m: Monitor, a: Step): Monitor
    requires Enabled(m, a)
  {
    match a
    case EnterRead =>
      var m1 := m.(obj := Consistency.EnterRead(m.obj));
      if m.obj.validity then m1.(readers := m.readers + 1) else m1.(awaitUpdate := m.awaitUpdate + 1)
    case FinishRead =>
      m.(obj := Consistency.FinishRead(m.obj), awaitUpdate := m.awaitUpdate - 1, readers := m.readers + 1)
    case LeaveRead => m.(obj := Consistency.LeaveRead(m.obj), readers := m.readers - 1)
    case EnqueueWriter => m.(obj := Consistency.EnqueueWriter(m.obj), awaitTurn := m.awaitTurn + 1)
    case PassWriter =>
      var m1 := m.(obj := Consistency.PassWriter(m.obj), awaitTurn := m.awaitTurn - 1);
      if m.obj.token then m1.(writers := m.writers + 1) else m1.(awaitToken := m.awaitToken + 1)
    case FinishWrite =>
      m.(obj := Consistency.FinishWrite(m.obj), awaitToken := m.awaitToken - 1, writers := m.writers + 1)
    case LeaveWrite => m.(obj := Consistency.LeaveWrite(m.obj), writers := m.writers - 1)
    case Mutate(op) => m.(obj := Consistency.Mutate(m.obj, op))
    case DrawTicket => m.(obj := TakeTicket(m.obj))
    case Ticket(_, req) => m.(obj := RunTicket(m.obj, req))
    case Handler(msg) => m.(obj := Handle(m.obj, msg))
  }

  function Initial(self: PodId, owner: bool): Monitor {
    Monitor(NewObj(self, owner), 0, 0, 0, 0, 0)
  }

  /** `ms` is a run: it starts with a fresh object and `acts[k]` leads from `ms[k]` to `ms[k + 1]`. */
  ghost predicate IsRun(ms: seq<Monitor>, acts: seq<Step>) {
    && |ms| == |acts| + 1
    && (exists self, owner :: ms[0] == Initial(self, owner))
    && forall k :: 0 <= k < |acts| ==> Enabled(ms[k], acts[k]) && ms[k + 1] == Apply(ms[k], acts[k])
  }

  /** The counters of the object agree with where the threads stand, and nobody reads
      while a writer is active or has passed its first wait. */
  ghost predicate Inv(m: Monitor) {
    && m.obj.reading == m.awaitUpdate + m.readers
    && m.obj.writing == m.writers
    && m.obj.wwriters == m.awaitTurn + m.awaitToken
    && (m.writers + m.awaitToken > 0 ==> m.obj.reading == 0)
  }

  /** Message handlers and tickets move neither threads nor counters. */
  lemma HandlersKeepCounters(m: Monitor, a: Step)
    requires Enabled(m, a) && (a.Ticket? || a.Handler?)
    ensures Apply(m, a) == m.(obj := Apply(m, a).obj) && SameThreads(m.obj, Apply(m, a).obj)
  {
    if a.Ticket? {
      TicketKeepsThreads(m.obj, a.req);
    } else {
      HandlerKeepsThreads(m.obj, a.msg);
    }
  }

  lemma ThreadsKeepInv(m: Monitor, a: Step)
    requires Inv(m) && Enabled(m, a) && !a.Ticket? && !a.Handler?
    ensures Inv(Apply(m, a))
  {}

  lemma InvStep(m: Monitor, a: Step)
    requires Inv(m) && Enabled(m, a)
    ensures Inv(Apply(m, a))
  {
    if a.Ticket? || a.Handler? {
      HandlersKeepCounters(m, a);
    } else {
      ThreadsKeepInv(m, a);
    }
  }

  lemma {:induction false} InvHolds(ms: seq<Monitor>, acts: seq<Step>, k: nat)
    requires IsRun(ms, acts) && k < |ms|
    ensures Inv(ms[k])
  {
    if k > 0 {
      InvHolds(ms, acts, k - 1);
      InvStep(ms[k - 1], acts[k - 1]);
    }
  }

  /** A reader and a writer are never active together on one pod, and no reader is inside
      AcquireRead's second wait while a writer is active or waits for the token. */
  lemma ReadersAndWritersExclude(ms: seq<Monitor>, acts: seq<Step>, k: nat)
    requires IsRun(ms, acts) && k < |ms|
    ensures ms[k].writers > 0 ==> ms[k].readers == 0 && ms[k].awaitUpdate == 0
    ensures ms[k].awaitToken > 0 ==> ms[k].readers == 0 && ms[k].awaitUpdate == 0
  {
    InvHolds(ms, acts, k);
  }

  /** Where the threads go: a reader gets into its section exactly on a valid replica, a writer
      exactly with the token, at once or after its wait; one that came too early waits. */
  lemma ThreadsMove(m: Monitor, a: Step)
    requires Inv(m) && Enabled(m, a)
    ensures var m', o := Apply(m, a), m.obj;
      && (m'.readers == m.readers + 1 <==> (a.EnterRead? && o.validity) || a.FinishRead?)
      && (m'.readers < m.readers <==> a.LeaveRead?) && m.readers - 1 <= m'.readers <= m.readers + 1
      && m'.readers + m'.awaitUpdate == m.readers + m.awaitUpdate + Came(a.EnterRead?) - Came(a.LeaveRead?)
      && (m'.writers == m.writers + 1 <==> (a.PassWriter? && o.token) || a.FinishWrite?)
      && (m'.writers < m.writers <==> a.LeaveWrite?) && m.writers - 1 <= m'.writers <= m.writers + 1
      && m'.writers + m'.awaitToken == m.writers + m.awaitToken + Came(a.PassWriter?) - Came(a.LeaveWrite?)
      && m'.awaitTurn == m.awaitTurn + Came(a.EnqueueWriter?) - Came(a.PassWriter?)
    ensures a.FinishRead? ==> m.obj.validity
    ensures a.FinishWrite? ==> m.obj.token && m.obj.validity
  {
    if a.Ticket? || a.Handler? {
      HandlersKeepCounters(m, a);
    }
  }

  function Came(b: bool): nat { if b then 1 else 0 }

  // ---- two local writers ----------------------------------------------------------

  /** The steps after which the writers already past the first wait hold the section. */
  predicate TokenArrivesOrWriterResumes(a: Step) {
    a.FinishWrite? || (a.Handler? && a.msg.TokenUpdateReply?)
  }

  ghost predicate IsResumption(ms: seq<Monitor>, acts: seq<Step>) {
    && |ms| == |acts| + 1
    && forall k :: 0 <= k < |acts| ==>
         && TokenArrivesOrWriterResumes(acts[k])
         && Enabled(ms[k], acts[k])
         && ms[k + 1] == Apply(ms[k], acts[k])
  }

  /** From `m`, without any further acquire, two writers can be active at once. */
  ghost predicate TwoWritersFrom(m: Monitor) {
    exists ms: seq<Monitor>, acts: seq<Step> ::
      IsResumption(ms, acts) && ms[0] == m && ms[|acts|].writers >= 2
  }

  lemma ResumptionStep(m: Monitor, a: Step)
    requires TokenArrivesOrWriterResumes(a) && Enabled(m, a)
    ensures Apply(m, a).writers + Apply(m, a).awaitToken == m.writers + m.awaitToken
  {}

  lemma {:induction false} ResumptionKeepsPassed(ms: seq<Monitor>, acts: seq<Step>, k: nat)
    requires IsResumption(ms, acts) && k <= |acts|
    ensures ms[k].writers + ms[k].awaitToken == ms[0].writers + ms[0].awaitToken
  {
    if k > 0 {
      ResumptionKeepsPassed(ms, acts, k - 1);
      ResumptionStep(ms[k - 1], acts[k - 1]);
    }
  }

  lemma ResumeAll(m: Monitor)
    requires m.writers + m.awaitToken >= 2 && m.obj.token && m.obj.validity
    ensures TwoWritersFrom(m)
    decreases m.awaitToken
  {
    if m.writers >= 2 {
      assert IsResumption([m], []);
    } else {
      var m1 := Apply(m, FinishWrite);
      ResumeAll(m1);
      var ms: seq<Monitor>, acts: seq<Step> :| IsResumption(ms, acts) && ms[0] == m1 && ms[|acts|].writers >= 2;
      Prepend(m, FinishWrite, ms, acts);
    }
  }

  lemma Prepend(m: Monitor, a: Step, ms: seq<Monitor>, acts: seq<Step>)
    requires IsResumption(ms, acts) && TokenArrivesOrWriterResumes(a) && Enabled(m, a) && ms[0] == Apply(m, a)
    requires ms[|acts|].writers >= 2
    ensures TwoWritersFrom(m)
  {
    var ms1, acts1 := [m] + ms, [a] + acts;
    forall k | 0 <= k < |acts1|
      ensures TokenArrivesOrWriterResumes(acts1[k]) && Enabled(ms1[k], acts1[k])
      ensures ms1[k + 1] == Apply(ms1[k], acts1[k])
    {
      if k > 0 {
        assert ms1[k] == ms[k - 1] && acts1[k] == acts[k - 1] && ms1[k + 1] == ms[k - 1 + 1];
      }
    }
    assert IsResumption(ms1, acts1);
    assert ms1[|acts1|] == ms[|acts|];
  }

  /** Mutual exclusion of local writers is lost exactly at a writer that passes the first
      wait while another one is waiting for the token: `_writing` is not checked again. */
  lemma TwoWritersExactlyWhenOvertaking(m: Monitor)
    requires Inv(m) && Enabled(m, PassWriter) && m.writers + m.awaitToken <= 1
    ensures TwoWritersFrom(Apply(m, PassWriter)) <==> m.awaitToken > 0
  {
    var m1 := Apply(m, PassWriter);
    if m.awaitToken > 0 {
      var arrive := Handler(TokenUpdateReply(0, m.obj.self, []));
      var m2 := Apply(m1, arrive);
      ResumptionStep(m1, arrive);
      ResumeAll(m2);
      var ms: seq<Monitor>, acts: seq<Step> :| IsResumption(ms, acts) && ms[0] == m2 && ms[|acts|].writers >= 2;
      Prepend(m1, arrive, ms, acts);
    } else if TwoWritersFrom(m1) {
      var ms: seq<Monitor>, acts: seq<Step> :| IsResumption(ms, acts) && ms[0] == m1 && ms[|acts|].writers >= 2;
      ResumptionKeepsPassed(ms, acts, |acts|);
    }
  }

  /** At step `i` a writer passes the first wait while another one waits for the token. */
  predicate Overtakes(ms: seq<Monitor>, acts: seq<Step>, i: nat)
    requires |ms| == |acts| + 1 && i < |acts|
  {
    acts[i] == PassWriter && ms[i].awaitToken > 0
  }

  lemma {:induction false} OneWriterUntilOvertaken(ms: seq<Monitor>, acts: seq<Step>, k: nat)
    requires IsRun(ms, acts) && k < |ms|
    requires forall i :: 0 <= i < k ==> !Overtakes(ms, acts, i)
    ensures ms[k].writers + ms[k].awaitToken <= 1
  {
    if k > 0 {
      OneWriterUntilOvertaken(ms, acts, k - 1);
      InvHolds(ms, acts, k - 1);
      assert !Overtakes(ms, acts, k - 1);
      OneWriterAfter(ms[k - 1], acts[k - 1]);
    }
  }

  lemma OneWriterAfter(m: Monitor, a: Step)
    requires Inv(m) && Enabled(m, a) && m.writers + m.awaitToken <= 1 && !(a == PassWriter && m.awaitToken > 0)
    ensures Apply(m, a).writers + Apply(m, a).awaitToken <= 1
  {
    if a.Ticket? || a.Handler? {
      HandlersKeepCounters(m, a);
    }
  }

  /** Over a whole run two local writers get past the first wait exactly if one overtakes. */
  lemma OvertakingExactly(ms: seq<Monitor>, acts: seq<Step>)
    requires IsRun(ms, acts)
    ensures (exists k :: 0 <= k < |ms| && ms[k].writers + ms[k].awaitToken > 1)
            <==> exists i :: 0 <= i < |acts| && Overtakes(ms, acts, i)
  {
    if i :| 0 <= i < |acts| && Overtakes(ms, acts, i) {
      assert ms[i + 1] == Apply(ms[i], acts[i]);
      assert ms[i + 1].writers + ms[i + 1].awaitToken > 1;
    } else {
      forall k | 0 <= k < |ms| ensures ms[k].writers + ms[k].awaitToken <= 1 {
        OneWriterUntilOvertaken(ms, acts, k);
      }
    }
  }

  /** It does happen: a fresh replica, two threads that enter AcquireWrite, one that passes. */
  lemma OvertakingHappens(self: PodId) returns (ms: seq<Monitor>, acts: seq<Step>)
    ensures IsRun(ms, acts)
    ensures Inv(ms[|acts|]) && Enabled(ms[|acts|], PassWriter) && ms[|acts|].awaitToken == 1
    ensures TwoWritersFrom(Apply(ms[|acts|], PassWriter))
  {
    var m0 := Initial(self, false);
    var m1 := Apply(m0, EnqueueWriter);
    var m2 := Apply(m1, EnqueueWriter);
    var m3 := Apply(m2, PassWriter);
    ms, acts := [m0, m1, m2, m3], [EnqueueWriter, EnqueueWriter, PassWriter];
    TwoWritersExactlyWhenOvertaking(m3);
  }

  /** No other thread is inside AcquireWrite when one enters it. */
  ghost predicate WritersComeAlone(ms: seq<Monitor>, acts: seq<Step>)
    requires |ms| == |acts| + 1
  {
    forall i :: 0 <= i < |acts| && acts[i] == EnqueueWriter ==> ms[i].obj.wwriters == 0
  }

  ghost predicate OneWriter(m: Monitor) {
    && m.writers <= 1
    && m.awaitTurn + m.awaitToken <= 1
    && (m.awaitToken > 0 ==> m.writers == 0)
  }

  lemma OneWriterStep(m: Monitor, a: Step)
    requires Inv(m) && OneWriter(m) && Enabled(m, a) && (a == EnqueueWriter ==> m.obj.wwriters == 0)
    ensures OneWriter(Apply(m, a))
  {
    if a.Ticket? || a.Handler? {
      HandlersKeepCounters(m, a);
    }
  }

  /** If every AcquireWrite is called while no other thread is inside AcquireWrite, no two
      local writers are ever active together. */
  lemma {:induction false} LoneWritersExclude(ms: seq<Monitor>, acts: seq<Step>, k: nat)
    requires IsRun(ms, acts) && WritersComeAlone(ms, acts) && k < |ms|
    ensures OneWriter(ms[k])
  {
    if k > 0 {
      LoneWritersExclude(ms, acts, k - 1);
      InvHolds(ms, acts, k - 1);
      OneWriterStep(ms[k - 1], acts[k - 1]);
    }
  }

  // ---- a pod that answers nobody --------------------------------------------------

  /** The pod has the token and counts itself as waiting for it, but no thread waits. */
  predicate Deaf(m: Monitor) { m.obj.token && m.obj.wtoken && m.awaitToken == 0 }

  /** The own ticket of a token request runs when its writer has already gone on with the token,
      or a token arrives that no writer waits for any more. */
  predicate Deafens(m: Monitor, a: Step) {
    && m.awaitToken == 0
    && ((a.Ticket? && a.req == TokenUpdateRequest(m.obj.self) && m.obj.token)
        || (a.Handler? && a.msg.TokenUpdateReply? && m.obj.wtoken))
  }

  /** A deaf pod stays deaf, and runs no other pod's ticket any more: it keeps the token. */
  lemma DeafStays(m: Monitor, a: Step)
    requires Deaf(m) && Enabled(m, a)
    ensures Deaf(Apply(m, a)) && (a.Ticket? ==> a.req.from == m.obj.self)
  {
    match a
    case Ticket(_, req) => TicketMovesToken(m.obj, req);
    case _ =>
  }

  lemma DeafensExactly(m: Monitor, a: Step)
    requires !Deaf(m) && Enabled(m, a)
    ensures Deaf(Apply(m, a)) <==> Deafens(m, a)
  {
    match a
    case Ticket(_, req) => TicketMovesToken(m.obj, req);
    case _ =>
  }

  lemma {:induction false} NotDeafUntil(ms: seq<Monitor>, acts: seq<Step>, k: nat)
    requires IsRun(ms, acts) && k < |ms|
    requires forall i :: 0 <= i < k ==> !Deafens(ms[i], acts[i])
    ensures !Deaf(ms[k])
  {
    if k > 0 {
      NotDeafUntil(ms, acts, k - 1);
      DeafensExactly(ms[k - 1], acts[k - 1]);
    }
  }

  /** A run makes the pod deaf exactly if such a step happens. */
  lemma DeafExactly(ms: seq<Monitor>, acts: seq<Step>)
    requires IsRun(ms, acts)
    ensures (exists k :: 0 <= k < |ms| && Deaf(ms[k])) <==> exists i :: 0 <= i < |acts| && Deafens(ms[i], acts[i])
  {
    if i :| 0 <= i < |acts| && Deafens(ms[i], acts[i]) {
      if !Deaf(ms[i]) {
        DeafensExactly(ms[i], acts[i]);
        assert Deaf(ms[i + 1]);
      }
    } else {
      forall k | 0 <= k < |ms| ensures !Deaf(ms[k]) {
        NotDeafUntil(ms, acts, k);
      }
    }
  }

  function Last(ms: seq<Monitor>): Monitor
    requires ms != []
  {
    ms[|ms| - 1]
  }

  lemma Extend(ms: seq<Monitor>, acts: seq<Step>, a: Step) returns (ms': seq<Monitor>, acts': seq<Step>)
    requires IsRun(ms, acts) && Enabled(Last(ms), a)
    ensures IsRun(ms', acts') && Last(ms') == Apply(Last(ms), a)
  {
    ms', acts' := ms + [Apply(Last(ms), a)], acts + [a];
  }

  /** Two writers have asked for the token, and the ticket of the first request has run. */
  lemma TwoWritersAsk(self: PodId) returns (ms: seq<Monitor>, acts: seq<Step>)
    ensures IsRun(ms, acts)
    ensures Last(ms).obj == NewObj(self, false).(wwriters := 2, totalReq := 1, nextReq := 1, wtoken := true)
    ensures Last(ms) == Monitor(Last(ms).obj, 0, 0, 0, 2, 0)
  {
    ms, acts := [Initial(self, false)], [];
    ms, acts := Extend(ms, acts, EnqueueWriter);
    ms, acts := Extend(ms, acts, PassWriter);
    ms, acts := Extend(ms, acts, EnqueueWriter);
    ms, acts := Extend(ms, acts, PassWriter);
    ms, acts := Extend(ms, acts, DrawTicket);
    ms, acts := Extend(ms, acts, Ticket(0, TokenUpdateRequest(self)));
  }

  /** Two local writers bring it about: both ask for the token, one token serves both, and the
      ticket of the second request runs after them. */
  lemma DeafnessHappens(self: PodId, other: PodId) returns (ms: seq<Monitor>, acts: seq<Step>)
    ensures IsRun(ms, acts) && Deaf(Last(ms))
  {
    ms, acts := TwoWritersAsk(self);
    ms, acts := Extend(ms, acts, Handler(TokenUpdateReply(other, self, [])));
    ms, acts := Extend(ms, acts, FinishWrite);
    ms, acts := Extend(ms, acts, FinishWrite);
    ms, acts := Extend(ms, acts, DrawTicket);
    ms, acts := Extend(ms, acts, Ticket(1, TokenUpdateRequest(self)));
  }
}
