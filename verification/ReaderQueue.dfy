/** Notifications of the readers' wait queue of one pod: which readers in the first wait of
    `AcquireRead` are asleep, and who wakes them. */
module ReaderQueue {
  import opened Consistency
  import opened LocalMonitor

  /** `awake` readers are about to look at the condition of the first wait, `asleep` ones have
      found it true and sleep until the queue is notified. */
  datatype Queue = Queue(monitor: Monitor, awake: nat, asleep: nat)

  datatype Event =
    | Come                  // a thread calls AcquireRead
    | Look                  // a reader looks at the condition
    | Local(step: Step)     // any other step on this pod

  /** The steps that notify the readers' queue. */
  predicate Notifies(m: Monitor, a: Step) {
    || a.FinishRead?
    || (a.LeaveWrite? && m.obj.wwriters <= 0)
    || (a.Handler? && a.msg.UpdateReply?)
  }

  predicate Possible(q: Queue, e: Event) {
    match e
    case Come => true
    case Look => q.awake > 0
    case Local(a) => a != EnterRead && Enabled(q.monitor, a)
  }

  function Next(q: Queue, e: Event): Queue
    requires Possible(q, e)
  {
    match e
    case Come => q.(awake := q.awake + 1)
    case Look =>
      if CanEnterRead(q.monitor.obj) then q.(monitor := Apply(q.monitor, EnterRead), awake := q.awake - 1)
      else q.(awake := q.awake - 1, asleep := q.asleep + 1)
    case Local(a) =>
      var woken := if Notifies(q.monitor, a) then q.asleep else 0;
      Queue(Apply(q.monitor, a), q.awake + woken, q.asleep - woken)
  }

  /** A reader sleeps although nothing keeps it from reading any more. */
  predicate Forgotten(q: Queue) { q.asleep > 0 && CanEnterRead(q.monitor.obj) }

  /** All that holds up the sleeping readers is one other reader of an invalid replica. */
  predicate BehindOneReader(q: Queue) {
    var o := q.monitor.obj;
    q.asleep > 0 && o.reading == 1 && !o.validity && o.writing <= 0 && o.wwriters <= 0
  }

  /** The last reader leaves without a word, or the token brings a valid replica nobody on this
      pod waits for. */
  predicate Forgets(q: Queue, e: Event) {
    BehindOneReader(q) && e.Local? && (e.step.LeaveRead? || (e.step.Handler? && e.step.msg.TokenUpdateReply?))
  }

  /** Which steps wake: all sleepers look again when a reader goes on with its update, when a
      writer leaves and none waits, and when an update arrives; no other step wakes anybody.
      One that looks goes in or falls asleep, and nobody is lost. */
  lemma WhoWakes(q: Queue, e: Event)
    requires LocalMonitor.Inv(q.monitor) && Possible(q, e)
    ensures var q', m := Next(q, e), q.monitor;
      && (e == Come ==> q' == Queue(m, q.awake + 1, q.asleep))
      && (e.Look? ==>
            && q'.awake == q.awake - 1
            && q'.asleep == q.asleep + Came(!CanEnterRead(m.obj))
            && q'.monitor.obj.reading == m.obj.reading + Came(CanEnterRead(m.obj)))
      && (e.Look? && !CanEnterRead(m.obj) ==> q'.monitor == m)
      && (e.Local? ==> q'.monitor == Apply(m, e.step) && q'.awake + q'.asleep == q.awake + q.asleep)
      && (e.Local? && q.asleep > 0 ==>
            (q'.asleep == 0 <==> e.step.FinishRead? || (e.step.LeaveWrite? && m.awaitTurn + m.awaitToken == 0)
                                 || (e.step.Handler? && e.step.msg.UpdateReply?)))
      && (e.Local? && q'.asleep > 0 ==> q'.asleep == q.asleep)
  {}

  lemma MonitorKept(q: Queue, e: Event)
    requires LocalMonitor.Inv(q.monitor) && Possible(q, e)
    ensures LocalMonitor.Inv(Next(q, e).monitor)
  {
    match e
    case Come =>
    case Look =>
      if CanEnterRead(q.monitor.obj) {
        LocalMonitor.InvStep(q.monitor, EnterRead);
      }
    case Local(a) => LocalMonitor.InvStep(q.monitor, a);
  }

  /** A step leaves readers forgotten exactly in these two cases. */
  lemma ForgetsExactly(q: Queue, e: Event)
    requires LocalMonitor.Inv(q.monitor) && Possible(q, e) && !Forgotten(q)
    ensures Forgotten(Next(q, e)) <==> Forgets(q, e)
  {
    if e.Local? {
      LocalForgets(q, e.step);
    }
  }

  lemma LocalForgets(q: Queue, a: Step)
    requires LocalMonitor.Inv(q.monitor) && Possible(q, Local(a)) && !Forgotten(q)
    ensures Forgotten(Next(q, Local(a))) <==> Forgets(q, Local(a))
  {
    match a
    case EnterRead =>
    case FinishRead =>
    case LeaveRead =>
    case EnqueueWriter =>
    case PassWriter =>
    case FinishWrite =>
    case LeaveWrite =>
    case Mutate(_) =>
    case DrawTicket =>
    case Ticket(_, req) => TicketKeepsThreads(q.monitor.obj, req);
    case Handler(msg) => HandlerKeepsThreads(q.monitor.obj, msg);
  }

  ghost predicate IsQueueRun(qs: seq<Queue>, es: seq<Event>) {
    && |qs| == |es| + 1
    && (exists self, owner :: qs[0] == Queue(Initial(self, owner), 0, 0))
    && forall k :: 0 <= k < |es| ==> EventAt(qs, es, k)
  }

  predicate EventAt(qs: seq<Queue>, es: seq<Event>, k: nat)
    requires |qs| == |es| + 1 && k < |es|
  {
    Possible(qs[k], es[k]) && qs[k + 1] == Next(qs[k], es[k])
  }

  lemma FreshMonitor(q: Queue)
    requires exists self, owner :: q == Queue(Initial(self, owner), 0, 0)
    ensures LocalMonitor.Inv(q.monitor)
  {}

  lemma {:induction false} MonitorHolds(qs: seq<Queue>, es: seq<Event>, k: nat)
    requires IsQueueRun(qs, es) && k < |qs|
    ensures LocalMonitor.Inv(qs[k].monitor)
  {
    if k > 0 {
      MonitorHolds(qs, es, k - 1);
      assert EventAt(qs, es, k - 1);
      MonitorKept(qs[k - 1], es[k - 1]);
    } else {
      FreshMonitor(qs[0]);
    }
  }

  lemma {:induction false} NoneForgottenUntil(qs: seq<Queue>, es: seq<Event>, k: nat)
    requires IsQueueRun(qs, es) && k < |qs|
    requires forall i :: 0 <= i < k ==> !Forgets(qs[i], es[i])
    ensures !Forgotten(qs[k])
  {
    if k > 0 {
      NoneForgottenUntil(qs, es, k - 1);
      MonitorHolds(qs, es, k - 1);
      assert EventAt(qs, es, k - 1);
      ForgetsExactly(qs[k - 1], es[k - 1]);
    }
  }

  lemma {:induction false} SomeStepForgets(qs: seq<Queue>, es: seq<Event>, k: nat) returns (i: nat)
    requires IsQueueRun(qs, es) && k < |qs| && Forgotten(qs[k])
    ensures i < k && Forgets(qs[i], es[i])
  {
    if i' :| 0 <= i' < k && Forgets(qs[i'], es[i']) {
      i := i';
    } else {
      NoneForgottenUntil(qs, es, k);
      assert false;
    }
  }

  /** In a run a reader is ever forgotten exactly if such a step happens. */
  lemma ReadersForgottenExactly(qs: seq<Queue>, es: seq<Event>)
    requires IsQueueRun(qs, es)
    ensures (exists k :: 0 <= k < |qs| && Forgotten(qs[k])) <==> exists i :: 0 <= i < |es| && Forgets(qs[i], es[i])
  {
    if k :| 0 <= k < |qs| && Forgotten(qs[k]) {
      var i := SomeStepForgets(qs, es, k);
    }
    if i :| 0 <= i < |es| && Forgets(qs[i], es[i]) {
      MonitorHolds(qs, es, i);
      assert EventAt(qs, es, i);
      ForgetsExactly(qs[i], es[i]);
      assert Forgotten(qs[i + 1]);
    }
  }

  /** A forgotten reader sleeps on until the queue is notified, whatever else happens. */
  lemma {:induction false} SleepsUntilNotified(qs: seq<Queue>, es: seq<Event>, j: nat, k: nat)
    requires IsQueueRun(qs, es) && j <= k < |qs|
    requires forall i :: j <= i < k && es[i].Local? ==> !Notifies(qs[i].monitor, es[i].step)
    ensures qs[j].asleep <= qs[k].asleep
    decreases k
  {
    if j < k {
      SleepsUntilNotified(qs, es, j, k - 1);
      assert EventAt(qs, es, k - 1);
    }
  }

  /** It happens: a reader asks for an update and gets it, an invalidation follows, a second
      reader comes, and the first leaves. */
  lemma ForgettingHappens(self: PodId, other: PodId) returns (qs: seq<Queue>, es: seq<Event>)
    ensures IsQueueRun(qs, es) && Forgotten(qs[|es|]) && qs[|es|].awake == 0
    ensures |es| == 8 && EnterReadSends(qs[1].monitor.obj) == [UpdateRequest(self)] && es[1] == Look
    ensures es[2] == Local(Handler(UpdateReply(other, self, [])))
  {
    var update := Local(Handler(UpdateReply(other, self, [])));
    var invalidate := Local(Handler(Invalidate(other, [])));
    var q0 := Queue(Initial(self, false), 0, 0);
    var q1 := Next(q0, Come);
    var q2 := Next(q1, Look);
    var q3 := Next(q2, update);
    var q4 := Next(q3, Local(FinishRead));
    var q5 := Next(q4, invalidate);
    var q6 := Next(q5, Come);
    var q7 := Next(q6, Look);
    var q8 := Next(q7, Local(LeaveRead));
    qs := [q0, q1, q2, q3, q4, q5, q6, q7, q8];
    es := [Come, Look, update, Local(FinishRead), invalidate, Come, Look, Local(LeaveRead)];
    assert forall k :: 0 <= k < |es| ==> EventAt(qs, es, k);
  }
}
