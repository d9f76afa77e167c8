/** The pool of agents: a reusable barrier whose phase is one flipping bit, the dispatcher that
    hands out one task per phase, and the shutdown. */
module Pool {
  // ---- the barrier ----------------------------------------------------------------

  /** The fields of `Pool::Barrier`, all read and written under its mutex. */
  datatype Gate = Gate(nthreads: nat, counter: nat, status: bool, isIdle: bool)

  function NewGate(count: nat): Gate { Gate(count, 0, true, false) }

  /** What a thread does when it enters `Wait`; it remembers the status it saw. */
  function Arrive(g: Gate): Gate {
    if g.counter + 1 == g.nthreads then g.(counter := 0, isIdle := true) else g.(counter := g.counter + 1)
  }

  function Release(g: Gate): Gate { g.(isIdle := false, status := !g.status) }

  /** The condition under which a thread leaves `Wait`. */
  predicate CanPass(g: Gate, lstatus: bool) { lstatus != g.status }

  /** `releases` counts the calls of `ReleaseThreads`, `arrived` the threads that have entered
      `Wait` since the last one. */
  class Barrier {
    const nthreads: nat
    var counter: nat
    var status: bool
    var isIdle: bool
    ghost var releases: nat
    ghost var arrived: nat

    function Abs(): Gate reads this { Gate(nthreads, counter, status, isIdle) }

    ghost predicate Valid()
      reads this
    {
      && status == Phase(releases)
      && arrived <= nthreads
      && isIdle == (arrived == nthreads > 0)
      && counter == if arrived == nthreads then 0 else arrived
    }

    constructor (count: nat)
      ensures Valid() && releases == 0 && arrived == 0 && Abs() == NewGate(count)
      ensures nthreads == count && counter == 0 && status && !isIdle
    {
      nthreads, counter, status, isIdle := count, 0, true, false;
      releases, arrived := 0, 0;
    }

    /** `Wait` up to its loop. */
    method WaitArrive() returns (lstatus: bool, ghost phase: nat)
      modifies this`counter, this`isIdle, this`arrived
      ensures counter == if old(counter) + 1 == nthreads then 0 else old(counter) + 1
      ensures isIdle == (old(isIdle) || old(counter) + 1 == nthreads)
      ensures lstatus == status && Abs() == Arrive(old(Abs()))
      ensures phase == releases
      ensures old(Valid() && arrived < nthreads) ==> Valid() && arrived == old(arrived) + 1 && lstatus == Phase(phase)
    {
      lstatus, phase := status, releases;
      counter, arrived := counter + 1, arrived + 1;
      if counter == nthreads {
        counter := 0;
        isIdle := true;
      }
    }

    /** One look at the loop condition of `Wait`, by a thread that arrived in `phase` and has
        been passed over by at most one release: it passes exactly after that release. */
    method WaitPasses(lstatus: bool, ghost phase: nat) returns (passes: bool)
      ensures passes <==> lstatus != status
      ensures passes <==> CanPass(Abs(), lstatus)
      ensures Valid() && lstatus == Phase(phase) && phase <= releases <= phase + 1 ==> (passes <==> releases > phase)
    {
      passes := lstatus != status;
    }

    /** One look at the loop condition of `WaitForIdle`: it passes exactly when all threads have
        arrived since the last release. */
    method IdlePasses() returns (passes: bool)
      ensures passes <==> isIdle
      ensures Valid() ==> (passes <==> arrived == nthreads > 0)
    {
      passes := isIdle;
    }

    method ReleaseThreads()
      modifies this`isIdle, this`status, this`releases, this`arrived
      ensures !isIdle && status != old(status)
      ensures Abs() == Release(old(Abs())) && releases == old(releases) + 1 && arrived == 0
      ensures old(Valid() && isIdle) ==> Valid()
    {
      isIdle := false;
      status := !status;
      releases, arrived := releases + 1, 0;
    }
  }

  /** The status after this many releases. */
  function Phase(releases: nat): bool { releases % 2 == 0 }

  // ---- the whole pool -------------------------------------------------------------

  datatype Task = Task(fct: int, arg: int)

  /** Where an agent stands in the loop of `PeerAgent`. */
  datatype Place =
    | Outside                   // about to enter the barrier
    | Waiting(lstatus: bool)    // in the loop of `Wait`
    | Woken                     // out of the barrier, `_shut` not yet read
    | Going                     // read `_shut` as false
    | Fetched(fct: int)         // has read `_fct`
    | Running(task: Task)       // has read `_arg`: the call is under way
    | Ended

  /** `passed` counts the returns from `Wait`, `done` lists the finished calls. */
  datatype Agent = Agent(at: Place, passed: nat, done: seq<Task>)

  /** The single thread that calls `Dispatch`, `WaitForIdle` and, at the end, `JoinAgents`. */
  datatype Caller =
    | Ready
    | Filling(task: Task)       // `Dispatch`, past `WaitForIdle`
    | Filled                    // `_fct` and `_arg` written
    | Closing                   // `JoinAgents`: `_shut` set
    | Opening                   // past `WaitForIdle`
    | Joining                   // threads released, waiting for the agents
    | Over

  /** `tasks` lists the tasks written so far and `releases` counts the calls of
      `ReleaseThreads`. */
  datatype World = World(gate: Gate, task: Task, shut: bool, caller: Caller, agents: seq<Agent>,
                         tasks: seq<Task>, releases: nat)

  function Start(n: nat): World {
    World(NewGate(n), Task(0, 0), false, Ready, seq(n, i => Agent(Outside, 0, [])), [], 0)
  }

  datatype Step =
    | Enter(i: nat) | Pass(i: nat) | ReadShut(i: nat) | FetchFct(i: nat) | FetchArg(i: nat) | Finish(i: nat)
    | Dispatch(task: Task) | Fill | Go
    | Shut | PassIdle | GoLast | Join

  predicate Internal(e: Step) { e.Enter? || e.Pass? || e.ReadShut? || e.FetchFct? || e.FetchArg? || e.Finish? }

  predicate Enabled(w: World, e: Step) {
    match e
    case Enter(i) => i < |w.agents| && w.agents[i].at.Outside?
    case Pass(i) => i < |w.agents| && w.agents[i].at.Waiting? && CanPass(w.gate, w.agents[i].at.lstatus)
    case ReadShut(i) => i < |w.agents| && w.agents[i].at.Woken?
    case FetchFct(i) => i < |w.agents| && w.agents[i].at.Going?
    case FetchArg(i) => i < |w.agents| && w.agents[i].at.Fetched?
    case Finish(i) => i < |w.agents| && w.agents[i].at.Running?
    case Dispatch(t) => w.caller.Ready? && w.gate.isIdle
    case Fill => w.caller.Filling?
    case Go => w.caller.Filled?
    case Shut => w.caller.Ready?
    case PassIdle => w.caller.Closing? && w.gate.isIdle
    case GoLast => w.caller.Opening?
    case Join => w.caller.Joining? && forall i :: 0 <= i < |w.agents| ==> w.agents[i].at.Ended?
  }

  function Moved(w: World, a: Agent, e: Step): Agent
    requires Internal(e)
  {
    match e
    case Enter(_) => a.(at := Waiting(w.gate.status))
    case Pass(_) => a.(at := Woken, passed := a.passed + 1)
    case ReadShut(_) => a.(at := if w.shut then Ended else Going)
    case FetchFct(_) => a.(at := Fetched(w.task.fct))
    case FetchArg(_) => if a.at.Fetched? then a.(at := Running(Task(a.at.fct, w.task.arg))) else a
    case Finish(_) => if a.at.Running? then a.(at := Outside, done := a.done + [a.at.task]) else a
  }

  function Next(w: World, e: Step): World
    requires Enabled(w, e)
  {
    match e
    case Dispatch(t) => w.(caller := Filling(t))
    case Fill => w.(task := w.caller.task, tasks := w.tasks + [w.caller.task], caller := Filled)
    case Go => w.(gate := Release(w.gate), releases := w.releases + 1, caller := Ready)
    case Shut => w.(shut := true, caller := Closing)
    case PassIdle => w.(caller := Opening)
    case GoLast => w.(gate := Release(w.gate), releases := w.releases + 1, caller := Joining)
    case Join => w.(caller := Over)
    case _ => w.(gate := if e.Enter? then Arrive(w.gate) else w.gate,
                 agents := w.agents[e.i := Moved(w, w.agents[e.i], e)])
  }

  // ---- the invariant --------------------------------------------------------------

  predicate Blocked(a: Agent, status: bool) { a.at == Waiting(status) }

  /** Agents that wait for the next release. */
  function CountBlocked(agents: seq<Agent>, status: bool): (n: nat)
    ensures n <= |agents|
  {
    if agents == [] then 0
    else (if Blocked(agents[0], status) then 1 else 0) + CountBlocked(agents[1..], status)
  }

  lemma {:induction false} CountUpdate(agents: seq<Agent>, status: bool, i: nat, a: Agent)
    requires i < |agents|
    ensures CountBlocked(agents[i := a], status) + (if Blocked(agents[i], status) then 1 else 0)
         == CountBlocked(agents, status) + (if Blocked(a, status) then 1 else 0)
  {
    if i == 0 {
      assert agents[i := a][1..] == agents[1..];
    } else {
      assert agents[i := a][1..] == agents[1..][i - 1 := a];
      CountUpdate(agents[1..], status, i - 1, a);
    }
  }

  lemma {:induction false} CountFull(agents: seq<Agent>, status: bool)
    ensures CountBlocked(agents, status) == |agents| <==> forall i :: 0 <= i < |agents| ==> Blocked(agents[i], status)
  {
    if agents != [] {
      CountFull(agents[1..], status);
      assert forall i :: 0 < i < |agents| ==> agents[i] == agents[1..][i - 1];
    }
  }

  lemma {:induction false} CountNone(agents: seq<Agent>, status: bool)
    requires forall i :: 0 <= i < |agents| ==> !Blocked(agents[i], status)
    ensures CountBlocked(agents, status) == 0
  {
    if agents != [] {
      CountNone(agents[1..], status);
    }
  }

  predicate InStep(a: Agent) { !a.at.Waiting? }

  /** An agent is in the current phase, or it sleeps through a release it has not noticed yet;
      its finished calls are the tasks of all phases it has completed. */
  predicate AgentOk(a: Agent, status: bool, releases: nat, tasks: seq<Task>) {
    match a.at
    case Waiting(l) =>
      && a.passed == (if l == status then releases else releases - 1)
      && a.passed <= |tasks| && a.done == tasks[..a.passed]
    case Outside => a.passed == releases && a.passed <= |tasks| && a.done == tasks[..a.passed]
    case Woken => PastBarrier(a, releases, tasks)
    case Ended => PastBarrier(a, releases, tasks)
    case Going => PastBarrier(a, releases, tasks) && releases <= |tasks|
    case Fetched(f) => PastBarrier(a, releases, tasks) && releases <= |tasks| && f == tasks[releases - 1].fct
    case Running(t) => PastBarrier(a, releases, tasks) && releases <= |tasks| && t == tasks[releases - 1]
  }

  predicate PastBarrier(a: Agent, releases: nat, tasks: seq<Task>) {
    0 < a.passed == releases && releases - 1 <= |tasks| && a.done == tasks[..releases - 1]
  }

  predicate AgentsOk(w: World) {
    forall i :: 0 <= i < |w.agents| ==> AgentOk(w.agents[i], w.gate.status, w.releases, w.tasks)
  }

  /** Nobody blocked is forgotten: idle is exactly when all are. */
  predicate GateOk(w: World) {
    var blocked := CountBlocked(w.agents, w.gate.status);
    && |w.agents| == w.gate.nthreads > 0
    && w.gate.isIdle == (blocked == |w.agents|)
    && w.gate.counter == (if w.gate.isIdle then 0 else blocked)
  }

  predicate LastTask(w: World) { w.tasks != [] ==> w.task == w.tasks[|w.tasks| - 1] }

  /** Once the last release has been made, all that is left for an agent is to end. */
  predicate Leaving(a: Agent, status: bool) { a.at == Waiting(!status) || a.at.Woken? || a.at.Ended? }

  predicate CallerOk(w: World) {
    && (w.shut <==> w.caller.Closing? || w.caller.Opening? || w.caller.Joining? || w.caller.Over?)
    && (w.caller.Filling? || w.caller.Filled? || w.caller.Opening? ==> w.gate.isIdle)
    && |w.tasks| == (if w.caller.Filled? then w.releases + 1
                     else if w.caller.Joining? || w.caller.Over? then w.releases - 1
                     else w.releases)
  }

  predicate EndOk(w: World) {
    && (w.caller.Joining? || w.caller.Over? ==>
          forall i :: 0 <= i < |w.agents| ==> Leaving(w.agents[i], w.gate.status))
    && (w.caller.Over? ==> forall i :: 0 <= i < |w.agents| ==> w.agents[i].at.Ended?)
    && (!w.shut ==> forall i :: 0 <= i < |w.agents| ==> !w.agents[i].at.Ended?)
  }

  predicate Inv(w: World) { AgentsOk(w) && GateOk(w) && LastTask(w) && CallerOk(w) && EndOk(w) }

  lemma StartOk(n: nat)
    requires n > 0
    ensures Inv(Start(n))
  {
    CountNone(Start(n).agents, true);
  }

  /** While the pool is idle nobody is past the barrier. */
  lemma IdleMeansBlocked(w: World)
    requires Inv(w) && w.gate.isIdle
    ensures forall i :: 0 <= i < |w.agents| ==> Blocked(w.agents[i], w.gate.status)
  {
    CountFull(w.agents, w.gate.status);
  }

  lemma MovedOk(w: World, e: Step)
    requires Inv(w) && Internal(e) && Enabled(w, e)
    ensures AgentOk(Moved(w, w.agents[e.i], e), w.gate.status, w.releases, w.tasks)
  {
    var a := w.agents[e.i];
    assert AgentOk(a, w.gate.status, w.releases, w.tasks);
    if !InStep(a) {
      assert a.at == Waiting(!w.gate.status);
    } else if e.Enter? || e.ReadShut? {
    } else {
      assert w.releases <= |w.tasks|;
      NotFilled(w, e.i);
    }
  }

  /** An agent out of the barrier keeps the caller from writing the next task. */
  lemma NotFilled(w: World, i: nat)
    requires Inv(w) && i < |w.agents| && InStep(w.agents[i])
    ensures !w.gate.isIdle && !w.caller.Filled?
  {
    if w.gate.isIdle {
      IdleMeansBlocked(w);
      assert false;
    }
  }

  lemma InternalKeeps(w: World, e: Step)
    requires Inv(w) && Internal(e) && Enabled(w, e)
    ensures Inv(Next(w, e))
  {
    MovedOk(w, e);
    MovedGate(w, e);
    MovedEnd(w, e);
  }

  lemma MovedGate(w: World, e: Step)
    requires Inv(w) && Internal(e) && Enabled(w, e)
    ensures GateOk(Next(w, e))
  {
    var a' := Moved(w, w.agents[e.i], e);
    CountUpdate(w.agents, w.gate.status, e.i, a');
    assert !Blocked(w.agents[e.i], w.gate.status);
    assert Blocked(a', w.gate.status) <==> e.Enter?;
    if InStep(w.agents[e.i]) {
      NotFilled(w, e.i);
    }
  }

  lemma MovedEnd(w: World, e: Step)
    requires Inv(w) && Internal(e) && Enabled(w, e)
    ensures EndOk(Next(w, e))
  {
  }

  lemma ReleaseKeeps(w: World, e: Step)
    requires Inv(w) && (e.Go? || e.GoLast?) && Enabled(w, e)
    ensures Inv(Next(w, e))
  {
    IdleMeansBlocked(w);
    CountNone(w.agents, !w.gate.status);
    var w' := Next(w, e);
    forall i | 0 <= i < |w'.agents| ensures AgentOk(w'.agents[i], w'.gate.status, w'.releases, w'.tasks) {
      assert AgentOk(w.agents[i], w.gate.status, w.releases, w.tasks);
    }
  }

  lemma CallerKeeps(w: World, e: Step)
    requires Inv(w) && !Internal(e) && !e.Go? && !e.GoLast? && Enabled(w, e)
    ensures Inv(Next(w, e))
  {
    if e.Fill? {
      IdleMeansBlocked(w);
    }
  }

  lemma StepKeeps(w: World, e: Step)
    requires Inv(w) && Enabled(w, e)
    ensures Inv(Next(w, e))
  {
    if Internal(e) {
      InternalKeeps(w, e);
    } else if e.Go? || e.GoLast? {
      ReleaseKeeps(w, e);
    } else {
      CallerKeeps(w, e);
    }
  }

  ghost predicate IsRun(ws: seq<World>, es: seq<Step>, n: nat) {
    && |ws| == |es| + 1
    && ws[0] == Start(n)
    && forall k :: 0 <= k < |es| ==> StepAt(ws, es, k)
  }

  predicate StepAt(ws: seq<World>, es: seq<Step>, k: nat)
    requires |ws| == |es| + 1 && k < |es|
  {
    Enabled(ws[k], es[k]) && ws[k + 1] == Next(ws[k], es[k])
  }

  lemma {:induction false} RunOk(ws: seq<World>, es: seq<Step>, n: nat, k: nat)
    requires n > 0 && IsRun(ws, es, n) && k < |ws|
    ensures Inv(ws[k]) && |ws[k].agents| == n
  {
    if k == 0 {
      StartOk(n);
    } else {
      RunOk(ws, es, n, k - 1);
      assert StepAt(ws, es, k - 1);
      StepKeeps(ws[k - 1], es[k - 1]);
    }
  }

  // ---- what a run guarantees ------------------------------------------------------

  /** Every agent runs the dispatched tasks once each, in order, and the call under way is the
      first one it has not finished; it is at most one finished task behind the releases. */
  lemma EveryTaskOnceInOrder(ws: seq<World>, es: seq<Step>, n: nat, k: nat, i: nat)
    requires n > 0 && IsRun(ws, es, n) && k < |ws| && i < n
    ensures |ws[k].agents| == n
    ensures var w, a := ws[k], ws[k].agents[i];
      && a.done <= w.tasks
      && w.releases <= |a.done| + 1
      && (a.at.Running? ==> |a.done| < |w.tasks| && a.at.task == w.tasks[|a.done|])
  {
    RunOk(ws, es, n, k);
    assert AgentOk(ws[k].agents[i], ws[k].gate.status, ws[k].releases, ws[k].tasks);
  }

  /** The tasks are those dispatched, in the order of their dispatch: the one dispatched at
      step `j` is on its way until it is written as the next one, and then stays in its place. */
  lemma {:induction false} DispatchIsNextTask(ws: seq<World>, es: seq<Step>, n: nat, j: nat, k: nat)
    requires IsRun(ws, es, n) && j < k < |ws| && es[j].Dispatch?
    ensures var m := |ws[j].tasks|;
      || (ws[k].tasks == ws[j].tasks && ws[k].caller == Filling(es[j].task))
      || (|ws[k].tasks| > m && ws[k].tasks[..m] == ws[j].tasks && ws[k].tasks[m] == es[j].task)
    decreases k
  {
    assert StepAt(ws, es, k - 1);
    if j + 1 < k {
      DispatchIsNextTask(ws, es, n, j, k - 1);
    }
  }

  /** And there are no others. */
  lemma {:induction false} TaskWasDispatched(ws: seq<World>, es: seq<Step>, n: nat, k: nat, i: nat) returns (j: nat)
    requires IsRun(ws, es, n) && k < |ws|
    requires i < |ws[k].tasks| || (i == |ws[k].tasks| && ws[k].caller.Filling?)
    ensures j < k && es[j] == Dispatch(if i < |ws[k].tasks| then ws[k].tasks[i] else ws[k].caller.task)
    ensures |ws[j].tasks| == i
    decreases k
  {
    assert k > 0;
    assert StepAt(ws, es, k - 1);
    if es[k - 1].Dispatch? && i == |ws[k].tasks| {
      j := k - 1;
    } else {
      j := TaskWasDispatched(ws, es, n, k - 1, i);
    }
  }

  /** An agent's finished calls are as many as the steps at which it finished one. */
  lemma {:induction false} CallsFinished(ws: seq<World>, es: seq<Step>, n: nat, k: nat, i: nat)
    requires IsRun(ws, es, n) && k < |ws| && i < n
    ensures |ws[k].agents| == n && |ws[k].agents[i].done| == |FinishSteps(es, k, i)|
  {
    if k == 0 {
      assert FinishSteps(es, k, i) == {};
    } else {
      CallsFinished(ws, es, n, k - 1, i);
      assert StepAt(ws, es, k - 1);
      var before := FinishSteps(es, k - 1, i);
      assert FinishSteps(es, k, i) == if es[k - 1] == Finish(i) then before + {k - 1} else before;
    }
  }

  ghost function FinishSteps(es: seq<Step>, k: nat, i: nat): (steps: set<nat>)
    requires k <= |es|
    ensures forall j :: j in steps <==> 0 <= j < k && es[j] == Finish(i)
  {
    set j: nat | j < k && es[j] == Finish(i)
  }

  /** When the caller sees the pool idle, every agent has finished every task dispatched. */
  lemma IdleMeansFinished(ws: seq<World>, es: seq<Step>, n: nat, k: nat)
    requires n > 0 && IsRun(ws, es, n) && k < |ws|
    requires ws[k].caller.Ready? && ws[k].gate.isIdle
    ensures |ws[k].agents| == n && forall i :: 0 <= i < n ==> ws[k].agents[i].done == ws[k].tasks
  {
    var w := ws[k];
    RunOk(ws, es, n, k);
    IdleMeansBlocked(w);
    forall i | 0 <= i < n ensures w.agents[i].done == w.tasks {
      assert AgentOk(w.agents[i], w.gate.status, w.releases, w.tasks);
    }
  }

  /** From entering the barrier until it passes, agent `i` can pass exactly if there has been
      a release since it entered, and then there has been exactly one: the bit it remembers is
      never taken for that of an older or a later phase. */
  lemma StatusNeverMistaken(ws: seq<World>, es: seq<Step>, n: nat, i: nat, j: nat, k: nat)
    requires n > 0 && IsRun(ws, es, n) && i < n && j < k < |ws|
    requires es[j] == Enter(i) && forall m :: j < m < k ==> es[m] != Pass(i)
    ensures Enabled(ws[k], Pass(i)) <==> ws[k].releases > ws[j].releases
    ensures ws[k].releases <= ws[j].releases + 1
  {
    Sleeps(ws, es, n, i, j, k);
    RunOk(ws, es, n, j);
    assert StepAt(ws, es, j);
    RunOk(ws, es, n, k);
    assert AgentOk(ws[j].agents[i], ws[j].gate.status, ws[j].releases, ws[j].tasks);
    assert AgentOk(ws[k].agents[i], ws[k].gate.status, ws[k].releases, ws[k].tasks);
  }

  lemma {:induction false} Sleeps(ws: seq<World>, es: seq<Step>, n: nat, i: nat, j: nat, k: nat)
    requires n > 0 && IsRun(ws, es, n) && i < n && j < k < |ws|
    requires es[j] == Enter(i) && forall m :: j < m < k ==> es[m] != Pass(i)
    ensures |ws[k].agents| == n == |ws[j].agents|
    ensures ws[k].agents[i] == ws[j].agents[i].(at := Waiting(ws[j].gate.status))
    decreases k
  {
    RunOk(ws, es, n, j);
    RunOk(ws, es, n, k - 1);
    assert StepAt(ws, es, k - 1);
    if j + 1 < k {
      Sleeps(ws, es, n, i, j, k - 1);
    }
  }

  // ---- progress and the shutdown --------------------------------------------------

  /** Steps an agent can still make before it blocks or ends. */
  function Weight(a: Agent, status: bool): nat {
    match a.at
    case Waiting(l) => if l == status then 0 else 6
    case Woken => 5
    case Going => 4
    case Fetched(_) => 3
    case Running(_) => 2
    case Outside => 1
    case Ended => 0
  }

  function TotalWeight(agents: seq<Agent>, status: bool): nat {
    if agents == [] then 0 else Weight(agents[0], status) + TotalWeight(agents[1..], status)
  }

  lemma {:induction false} WeightUpdate(agents: seq<Agent>, status: bool, i: nat, a: Agent)
    requires i < |agents|
    ensures TotalWeight(agents[i := a], status) + Weight(agents[i], status)
         == TotalWeight(agents, status) + Weight(a, status)
  {
    if i == 0 {
      assert agents[i := a][1..] == agents[1..];
    } else {
      assert agents[i := a][1..] == agents[1..][i - 1 := a];
      WeightUpdate(agents[1..], status, i - 1, a);
    }
  }

  lemma {:induction false} WeightBound(agents: seq<Agent>, status: bool)
    ensures TotalWeight(agents, status) <= 6 * |agents|
  {
    if agents != [] {
      WeightBound(agents[1..], status);
    }
  }

  /** Calls that return never keep the agents moving for ever. */
  lemma InternalStepsEnd(w: World, e: Step)
    requires Internal(e) && Enabled(w, e)
    ensures var w' := Next(w, e); TotalWeight(w'.agents, w'.gate.status) < TotalWeight(w.agents, w.gate.status)
  {
    WeightUpdate(w.agents, w.gate.status, e.i, Moved(w, w.agents[e.i], e));
  }

  ghost predicate AgentsAtRest(w: World) { forall e :: Internal(e) ==> !Enabled(w, e) }

  lemma AtRestPlaces(w: World, i: nat)
    requires AgentsAtRest(w) && i < |w.agents|
    ensures Blocked(w.agents[i], w.gate.status) || w.agents[i].at.Ended?
  {
    assert !Enabled(w, Enter(i)) && !Enabled(w, Pass(i)) && !Enabled(w, ReadShut(i));
    assert !Enabled(w, FetchFct(i)) && !Enabled(w, FetchArg(i)) && !Enabled(w, Finish(i));
  }

  /** Before the shutdown, agents that have come to rest leave the pool idle: no wait of
      `Dispatch` or `WaitForIdle` lasts for ever. */
  lemma RestMeansIdle(ws: seq<World>, es: seq<Step>, n: nat, k: nat)
    requires n > 0 && IsRun(ws, es, n) && k < |ws|
    requires AgentsAtRest(ws[k]) && !ws[k].shut
    ensures ws[k].gate.isIdle
  {
    var w := ws[k];
    RunOk(ws, es, n, k);
    forall i | 0 <= i < n ensures Blocked(w.agents[i], w.gate.status) {
      AtRestPlaces(w, i);
    }
    CountFull(w.agents, w.gate.status);
  }

  /** This agent has been released but not read `_shut` since. */
  predicate Unread(a: Agent, status: bool) { a.at.Woken? || a.at == Waiting(!status) }

  ghost predicate SomeUnread(w: World) {
    exists i :: 0 <= i < |w.agents| && Unread(w.agents[i], w.gate.status)
  }

  /** `_shut` was set while this agent had yet to read it: it ends without its last task. */
  ghost predicate Strays(w: World, i: nat) {
    && i < |w.agents| && w.shut && w.caller.Closing?
    && Leaving(w.agents[i], w.gate.status)
  }

  ghost predicate Orderly(w: World) {
    && w.shut
    && (w.caller.Closing? || w.caller.Opening? ==>
          forall i :: 0 <= i < |w.agents| ==> !Leaving(w.agents[i], w.gate.status))
  }

  lemma StraySteps(w: World, e: Step, i: nat)
    requires Inv(w) && Enabled(w, e) && Strays(w, i)
    ensures Strays(Next(w, e), i)
  {
    if w.gate.isIdle {
      IdleMeansBlocked(w);
      assert false;
    }
  }

  lemma OrderlySteps(w: World, e: Step)
    requires Inv(w) && Enabled(w, e) && Orderly(w)
    ensures Orderly(Next(w, e))
  {
    if Internal(e) {
      assert AgentOk(w.agents[e.i], w.gate.status, w.releases, w.tasks);
    }
  }

  lemma ShutStep(w: World)
    requires Inv(w) && Enabled(w, Shut)
    ensures forall i :: 0 <= i < |w.agents| && Unread(w.agents[i], w.gate.status) ==> Strays(Next(w, Shut), i)
    ensures !SomeUnread(w) ==> Orderly(Next(w, Shut))
  {}

  lemma {:induction false} StraysFrom(ws: seq<World>, es: seq<Step>, n: nat, j: nat, k: nat, i: nat)
    requires n > 0 && IsRun(ws, es, n) && j < k < |ws| && es[j] == Shut
    requires i < |ws[j].agents| && Unread(ws[j].agents[i], ws[j].gate.status)
    ensures Strays(ws[k], i)
    decreases k
  {
    RunOk(ws, es, n, k - 1);
    assert StepAt(ws, es, k - 1);
    if j + 1 < k {
      StraysFrom(ws, es, n, j, k - 1, i);
      StraySteps(ws[k - 1], es[k - 1], i);
    } else {
      ShutStep(ws[j]);
    }
  }

  lemma {:induction false} OrderlyFrom(ws: seq<World>, es: seq<Step>, n: nat, j: nat, k: nat)
    requires n > 0 && IsRun(ws, es, n) && j < k < |ws| && es[j] == Shut
    requires !SomeUnread(ws[j])
    ensures Orderly(ws[k])
    decreases k
  {
    RunOk(ws, es, n, k - 1);
    assert StepAt(ws, es, k - 1);
    if j + 1 < k {
      OrderlyFrom(ws, es, n, j, k - 1);
      OrderlySteps(ws[k - 1], es[k - 1]);
    } else {
      ShutStep(ws[j]);
    }
  }

  ghost predicate Stuck(w: World) { forall e :: !Enabled(w, e) }

  /** A run that shuts the pool down and goes as far as it can ends with all agents joined,
      each having run every task, exactly if at the shutdown no agent had been released
      without having read `_shut` yet. Otherwise `JoinAgents` never returns. */
  lemma ShutdownEndsExactly(ws: seq<World>, es: seq<Step>, n: nat, j: nat)
    requires n > 0 && IsRun(ws, es, n) && j < |es| && es[j] == Shut && Stuck(ws[|es|])
    ensures ws[|es|].caller.Over? <==> !SomeUnread(ws[j])
    ensures ws[|es|].caller.Over? ==> forall i :: 0 <= i < |ws[|es|].agents| ==>
      ws[|es|].agents[i].at.Ended? && ws[|es|].agents[i].done == ws[|es|].tasks
  {
    var w := ws[|es|];
    RunOk(ws, es, n, |es|);
    if SomeUnread(ws[j]) {
      var i :| 0 <= i < |ws[j].agents| && Unread(ws[j].agents[i], ws[j].gate.status);
      StraysFrom(ws, es, n, j, |es|, i);
    } else {
      OrderlyFrom(ws, es, n, j, |es|);
      OrderlyStuck(w);
      EndedDone(w);
    }
  }

  lemma OrderlyStuck(w: World)
    requires Inv(w) && Orderly(w) && Stuck(w)
    ensures w.caller.Over?
  {
    forall i | 0 <= i < |w.agents| ensures Blocked(w.agents[i], w.gate.status) || w.agents[i].at.Ended? {
      AtRestPlaces(w, i);
    }
    CountFull(w.agents, w.gate.status);
    assert !Enabled(w, PassIdle) && !Enabled(w, GoLast) && !Enabled(w, Join);
  }

  lemma EndedDone(w: World)
    requires Inv(w) && w.caller.Over?
    ensures forall i :: 0 <= i < |w.agents| ==> w.agents[i].at.Ended? && w.agents[i].done == w.tasks
  {
    forall i | 0 <= i < |w.agents| ensures w.agents[i].done == w.tasks {
      assert AgentOk(w.agents[i], w.gate.status, w.releases, w.tasks);
    }
  }

  /** In particular a shutdown begun while the pool is idle ends every agent. */
  lemma IdleShutdownEnds(ws: seq<World>, es: seq<Step>, n: nat, j: nat)
    requires n > 0 && IsRun(ws, es, n) && j < |es| && es[j] == Shut && Stuck(ws[|es|])
    requires ws[j].gate.isIdle
    ensures ws[|es|].caller.Over?
    ensures forall i :: 0 <= i < |ws[|es|].agents| ==>
      ws[|es|].agents[i].at.Ended? && ws[|es|].agents[i].done == ws[j].tasks
  {
    RunOk(ws, es, n, j);
    IdleMeansBlocked(ws[j]);
    ShutdownEndsExactly(ws, es, n, j);
    TasksAfterShut(ws, es, n, j, |es|);
  }

  lemma {:induction false} TasksAfterShut(ws: seq<World>, es: seq<Step>, n: nat, j: nat, k: nat)
    requires n > 0 && IsRun(ws, es, n) && j < k < |ws| && es[j] == Shut
    ensures ws[k].tasks == ws[j].tasks && ws[k].shut
    decreases k
  {
    if j + 1 < k {
      TasksAfterShut(ws, es, n, j, k - 1);
    }
    RunOk(ws, es, n, k - 1);
    assert StepAt(ws, es, k - 1);
  }

  function CallerWeight(c: Caller): nat {
    match c
    case Closing => 3
    case Opening => 2
    case Joining => 1
    case _ => 0
  }

  function ShutWork(w: World): nat {
    CallerWeight(w.caller) * (6 * |w.agents| + 1) + TotalWeight(w.agents, w.gate.status)
  }

  lemma ShutWorkFalls(w: World, e: Step)
    requires Inv(w) && w.shut && Enabled(w, e)
    ensures ShutWork(Next(w, e)) < ShutWork(w)
  {
    if Internal(e) {
      InternalStepsEnd(w, e);
    } else {
      WeightBound(w.agents, Next(w, e).gate.status);
    }
  }

  /** Every run comes to its end within this many steps of the shutdown. */
  lemma {:induction false} ShutdownIsBounded(ws: seq<World>, es: seq<Step>, n: nat, j: nat, k: nat)
    requires n > 0 && IsRun(ws, es, n) && j < k < |ws| && es[j] == Shut
    ensures k - j - 1 + ShutWork(ws[k]) <= 24 * n + 3
    decreases k
  {
    RunOk(ws, es, n, k - 1);
    RunOk(ws, es, n, k);
    TasksAfterShut(ws, es, n, j, k);
    assert StepAt(ws, es, k - 1);
    if j + 1 < k {
      ShutdownIsBounded(ws, es, n, j, k - 1);
      TasksAfterShut(ws, es, n, j, k - 1);
      ShutWorkFalls(ws[k - 1], es[k - 1]);
    } else {
      WeightBound(ws[k].agents, ws[k].gate.status);
    }
  }

  /** One task for one agent, and a shutdown right after the release: the agent ends without
      running the task and the caller waits for ever. */
  lemma BusyShutdownHangs() returns (ws: seq<World>, es: seq<Step>)
    ensures IsRun(ws, es, 1) && Shut in es && Stuck(ws[|es|])
    ensures ws[|es|].caller.Closing? && ws[|es|].tasks == [Task(1, 2)]
    ensures |ws[|es|].agents| == 1 && ws[|es|].agents[0].at.Ended? && ws[|es|].agents[0].done == []
  {
    var w0 := Start(1);
    var w1 := Next(w0, Enter(0));
    var w2 := Next(w1, Dispatch(Task(1, 2)));
    var w3 := Next(w2, Fill);
    var w4 := Next(w3, Go);
    assert w4 == World(Gate(1, 0, false, false), Task(1, 2), false, Ready,
                       [Agent(Waiting(true), 0, [])], [Task(1, 2)], 1);
    var w5 := Next(w4, Shut);
    var w6 := Next(w5, Pass(0));
    var w7 := Next(w6, ReadShut(0));
    ws := [w0, w1, w2, w3, w4, w5, w6, w7];
    es := [Enter(0), Dispatch(Task(1, 2)), Fill, Go, Shut, Pass(0), ReadShut(0)];
    assert forall k :: 0 <= k < |es| ==> StepAt(ws, es, k);
    assert es[4] == Shut;
  }
}
