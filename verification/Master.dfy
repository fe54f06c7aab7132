/**
 * The MapReduce master (labs/src/mr/master.go): tasks leased for ten seconds,
 * one timer goroutine per lease, and counters of what remains. The handlers are
 * methods of a class proved against functions on values, and the theorems are
 * about every run of handlers and timers. Each handler is one atomic step.
 */
module Master {
  import opened Common

  const SECOND := 1_000_000_000  // in nanoseconds
  const LEASE := 10 * SECOND

  datatype Kind = MapKind | ReduceKind

  datatype TaskState = Idle | InProgress | Completed

  /** A task; `timers` are the instants after which its waiting timer goroutines may wake. */
  datatype Task = Task(state: TaskState, timestamp: Option<int>, timers: multiset<int>)

  datatype State = State(mapRemain: int, reduceRemain: int, mtasks: seq<Task>, rtasks: seq<Task>)

  datatype Reply = NoTask | MapTask(index: nat, nReduce: nat) | ReduceTask(index: nat, splits: nat)

  function InitState(files: nat, nReduce: nat): State {
    State(files, nReduce,
          seq(files, _ => Task(Idle, None, multiset{})), seq(nReduce, _ => Task(Idle, None, multiset{})))
  }

  /** The first idle task; |tasks| when there is none. */
  function FirstIdle(tasks: seq<Task>): (i: nat)
    ensures i <= |tasks|
    ensures i < |tasks| ==> tasks[i].state == Idle
    ensures forall k :: 0 <= k < i ==> tasks[k].state != Idle
  {
    if tasks == [] || tasks[0].state == Idle then 0 else 1 + FirstIdle(tasks[1..])
  }

  /** Hand the task out: it is in progress from now on, and a timer starts. */
  function Leased(task: Task, now: int): Task {
    Task(InProgress, Some(now), task.timers + multiset{now + LEASE})
  }

  function OnAsk(s: State, now: int): (State, Reply) {
    if s.mapRemain != 0 then
      var i := FirstIdle(s.mtasks);
      if i == |s.mtasks| then (s, NoTask)
      else (s.(mtasks := s.mtasks[i := Leased(s.mtasks[i], now)]), MapTask(i, |s.rtasks|))
    else
      var i := FirstIdle(s.rtasks);
      if i == |s.rtasks| then (s, NoTask)
      else (s.(rtasks := s.rtasks[i := Leased(s.rtasks[i], now)]), ReduceTask(i, |s.mtasks|))
  }

  /** A response counts if it comes within ten seconds of the task's last lease. */
  predicate InTime(task: Task, now: int) {
    task.timestamp.Some? && now < task.timestamp.value + LEASE
  }

  function Tasks(s: State, kind: Kind): seq<Task> {
    if kind == MapKind then s.mtasks else s.rtasks
  }

  function SetTask(s: State, kind: Kind, i: nat, task: Task): State
    requires i < |Tasks(s, kind)|
  {
    if kind == MapKind then s.(mtasks := s.mtasks[i := task]) else s.(rtasks := s.rtasks[i := task])
  }

  function OnResponse(s: State, kind: Kind, i: nat, now: int): State
    requires i < |Tasks(s, kind)|
  {
    var task := Tasks(s, kind)[i];
    if !InTime(task, now) then s else
    var t := SetTask(s, kind, i, task.(state := Completed));
    if kind == MapKind then t.(mapRemain := t.mapRemain - 1) else t.(reduceRemain := t.reduceRemain - 1)
  }

  /** A timer of the task wakes: unless it is completed, the task is up for grabs again. */
  function OnTimer(task: Task, deadline: int): Task {
    Task(if task.state == Completed then Completed else Idle, task.timestamp, task.timers - multiset{deadline})
  }

  predicate IsDone(s: State) {
    s.reduceRemain == 0
  }

  /** The first idle task was leased at `now` for ten seconds, and no other task changed. */
  ghost predicate HandedOut(before: seq<Task>, after: seq<Task>, i: nat, now: int) {
    && i < |before| && before[i].state == Idle && (forall k :: 0 <= k < i ==> before[k].state != Idle)
    && after == before[i := Task(InProgress, Some(now), before[i].timers + multiset{now + 10 * SECOND})]
  }

  // ---- the same, as the master does it ----

  class MasterServer {
    var mapRemain: int
    var reduceRemain: int
    var mtasks: seq<Task>
    var rtasks: seq<Task>

    ghost function View(): State
      reads this
    {
      State(mapRemain, reduceRemain, mtasks, rtasks)
    }

    constructor (files: seq<string>, nReduce: nat)
      ensures View() == InitState(|files|, nReduce)
      ensures mapRemain == |mtasks| == |files| && reduceRemain == |rtasks| == nReduce
      ensures forall t :: t in mtasks || t in rtasks ==> t == Task(Idle, None, multiset{})
    {
      mapRemain, reduceRemain := |files|, nReduce;
      mtasks := seq(|files|, _ => Task(Idle, None, multiset{}));
      rtasks := seq(nReduce, _ => Task(Idle, None, multiset{}));
    }

    static method FindIdle(tasks: seq<Task>) returns (i: nat)
      ensures i == FirstIdle(tasks)
    {
      i := 0;
      while i < |tasks| && tasks[i].state != Idle
        invariant i <= |tasks| && forall k :: 0 <= k < i ==> tasks[k].state != Idle
      {
        i := i + 1;
      }
    }

    /** A task is handed out while one of the current phase is idle, with the number of tasks of the other phase. */
    method HandleAsk(now: int) returns (reply: Reply)
      modifies this
      ensures (View(), reply) == OnAsk(old(View()), now)
      ensures reply.NoTask? <==>
        forall t :: t in (if old(mapRemain) != 0 then old(mtasks) else old(rtasks)) ==> t.state != Idle
      ensures reply.NoTask? ==> View() == old(View())
      ensures reply.MapTask? ==>
        && old(mapRemain) != 0 && reply.nReduce == |rtasks| && rtasks == old(rtasks)
        && HandedOut(old(mtasks), mtasks, reply.index, now)
      ensures reply.ReduceTask? ==>
        && old(mapRemain) == 0 && reply.splits == |mtasks| && mtasks == old(mtasks)
        && HandedOut(old(rtasks), rtasks, reply.index, now)
      ensures mapRemain == old(mapRemain) && reduceRemain == old(reduceRemain)
    {
      reply := NoTask;
      if mapRemain != 0 {
        var i := FindIdle(mtasks);
        if i < |mtasks| {
          reply := MapTask(i, |rtasks|);
          mtasks := mtasks[i := Task(InProgress, Some(now), mtasks[i].timers + multiset{now + LEASE})];
        }
      } else {
        var i := FindIdle(rtasks);
        if i < |rtasks| {
          reply := ReduceTask(i, |mtasks|);
          rtasks := rtasks[i := Task(InProgress, Some(now), rtasks[i].timers + multiset{now + LEASE})];
        }
      }
    }

    method HandleResponse(kind: Kind, i: nat, now: int)
      requires i < |Tasks(View(), kind)|
      modifies this
      ensures View() == OnResponse(old(View()), kind, i, now)
      ensures var before, after := Tasks(old(View()), kind), Tasks(View(), kind);
        var counted := before[i].timestamp.Some? && now - before[i].timestamp.value < 10 * SECOND;
        && after == (if counted then before[i := before[i].(state := Completed)] else before)
        && mapRemain == old(mapRemain) - (if counted && kind == MapKind then 1 else 0)
        && reduceRemain == old(reduceRemain) - (if counted && kind == ReduceKind then 1 else 0)
      ensures if kind == MapKind then rtasks == old(rtasks) else mtasks == old(mtasks)
    {
      var task := if kind == MapKind then mtasks[i] else rtasks[i];
      if InTime(task, now) {
        if kind == MapKind {
          mtasks := mtasks[i := task.(state := Completed)];
          mapRemain := mapRemain - 1;
        } else {
          rtasks := rtasks[i := task.(state := Completed)];
          reduceRemain := reduceRemain - 1;
        }
      }
    }

    /** The body of a timer goroutine once its sleep is over. */
    method Wait(kind: Kind, i: nat, deadline: int)
      requires i < |Tasks(View(), kind)|
      modifies this
      ensures View() == SetTask(old(View()), kind, i, OnTimer(Tasks(old(View()), kind)[i], deadline))
      ensures var before, after := Tasks(old(View()), kind), Tasks(View(), kind);
        && i < |after| && after == before[i := after[i]]
        && after[i].state == (if before[i].state == Completed then Completed else Idle)
        && after[i].timestamp == before[i].timestamp && after[i].timers == before[i].timers - multiset{deadline}
      ensures mapRemain == old(mapRemain) && reduceRemain == old(reduceRemain)
      ensures if kind == MapKind then rtasks == old(rtasks) else mtasks == old(mtasks)
    {
      var task := if kind == MapKind then mtasks[i] else rtasks[i];
      if task.state != Completed {
        task := task.(state := Idle);
      }
      task := task.(timers := task.timers - multiset{deadline});
      if kind == MapKind {
        mtasks := mtasks[i := task];
      } else {
        rtasks := rtasks[i := task];
      }
    }

    method Done() returns (ret: bool)
      ensures ret <==> reduceRemain == 0
      ensures ret <==> IsDone(View())
    {
      ret := false;
      if reduceRemain == 0 {
        ret := true;
      }
    }
  }

  // ---- runs ----

  /** The master, the clock, and how many responses were accepted for each task. */
  datatype System = System(s: State, now: int, mapAccepted: seq<nat>, reduceAccepted: seq<nat>)

  datatype Step =
    | Tick(now: int)
    | Ask
    | Respond(kind: Kind, index: nat)
    | Wake(kind: Kind, index: nat, deadline: int)

  function Accepted(y: System, kind: Kind): seq<nat> {
    if kind == MapKind then y.mapAccepted else y.reduceAccepted
  }

  function InitSystem(files: nat, nReduce: nat, now: int): System {
    System(InitState(files, nReduce), now, seq(files, _ => 0), seq(nReduce, _ => 0))
  }

  predicate Enabled(y: System, step: Step) {
    match step
    case Tick(now) => now >= y.now
    case Ask => true
    case Respond(kind, i) => i < |Tasks(y.s, kind)| && i < |Accepted(y, kind)|
    case Wake(kind, i, deadline) =>
      i < |Tasks(y.s, kind)| && deadline in Tasks(y.s, kind)[i].timers && y.now >= deadline
  }

  function After(y: System, step: Step): System
    requires Enabled(y, step)
  {
    match step
    case Tick(now) => y.(now := now)
    case Ask => y.(s := OnAsk(y.s, y.now).0)
    case Respond(kind, i) =>
      var z := y.(s := OnResponse(y.s, kind, i, y.now));
      if !InTime(Tasks(y.s, kind)[i], y.now) then z
      else if kind == MapKind then z.(mapAccepted := y.mapAccepted[i := y.mapAccepted[i] + 1])
      else z.(reduceAccepted := y.reduceAccepted[i := y.reduceAccepted[i] + 1])
    case Wake(kind, i, deadline) => y.(s := SetTask(y.s, kind, i, OnTimer(Tasks(y.s, kind)[i], deadline)))
  }

  // ---- what every step keeps ----

  /** Leases and timers of one task, and whether a response was accepted for it. */
  ghost predicate TaskOk(task: Task, accepted: nat, now: int) {
    && (task.timestamp.Some? ==> task.timestamp.value <= now)
    && (task.state == Completed <==> accepted > 0)
    && match task.state
       case Idle => task.timers == multiset{} && !InTime(task, now)
       case InProgress => task.timestamp.Some? && task.timers == multiset{task.timestamp.value + LEASE}
       case Completed => task.timestamp.Some? && task.timers <= multiset{task.timestamp.value + LEASE}
  }

  ghost function Sum(a: seq<nat>): nat {
    if a == [] then 0 else Sum(a[..|a| - 1]) + a[|a| - 1]
  }

  ghost predicate KindOk(tasks: seq<Task>, accepted: seq<nat>, remain: int, now: int) {
    && |accepted| == |tasks|
    && remain + Sum(accepted) == |tasks|
    && AllOk(tasks, accepted, now)
  }

  ghost predicate TaskAt(tasks: seq<Task>, accepted: seq<nat>, now: int, i: nat)
    requires i < |tasks| == |accepted|
  {
    TaskOk(tasks[i], accepted[i], now)
  }

  ghost predicate AllOk(tasks: seq<Task>, accepted: seq<nat>, now: int)
    requires |tasks| == |accepted|
  {
    forall i: nat {:trigger TaskAt(tasks, accepted, now, i)} :: i < |tasks| ==> TaskAt(tasks, accepted, now, i)
  }

  ghost predicate Inv(y: System) {
    && KindOk(y.s.mtasks, y.mapAccepted, y.s.mapRemain, y.now)
    && KindOk(y.s.rtasks, y.reduceAccepted, y.s.reduceRemain, y.now)
  }

  lemma {:induction false} SumUpdate(a: seq<nat>, i: nat, v: nat)
    requires i < |a|
    ensures Sum(a[i := v]) == Sum(a) - a[i] + v
  {
    var k := |a| - 1;
    if i < k {
      SumUpdate(a[..k], i, v);
      assert a[i := v][..k] == a[..k][i := v];
    } else {
      assert a[i := v][..k] == a[..k];
    }
  }

  lemma {:induction false} SumZero(a: seq<nat>)
    requires forall i :: 0 <= i < |a| ==> a[i] == 0
    ensures Sum(a) == 0
  {
    if a != [] {
      SumZero(a[..|a| - 1]);
    }
  }

  lemma InitInv(files: nat, nReduce: nat, now: int)
    ensures Inv(InitSystem(files, nReduce, now))
  {
    SumZero(seq(files, _ => 0));
    SumZero(seq(nReduce, _ => 0));
    var y := InitSystem(files, nReduce, now);
    forall i: nat | i < files
      ensures TaskAt(y.s.mtasks, y.mapAccepted, now, i)
    {
    }
    forall i: nat | i < nReduce
      ensures TaskAt(y.s.rtasks, y.reduceAccepted, now, i)
    {
    }
  }

  lemma RespondKind(tasks: seq<Task>, accepted: seq<nat>, remain: int, now: int, i: nat)
    requires KindOk(tasks, accepted, remain, now) && i < |tasks| && InTime(tasks[i], now)
    ensures KindOk(tasks[i := tasks[i].(state := Completed)], accepted[i := accepted[i] + 1], remain - 1, now)
  {
    SumUpdate(accepted, i, accepted[i] + 1);
    var tasks', accepted' := tasks[i := tasks[i].(state := Completed)], accepted[i := accepted[i] + 1];
    forall k: nat | k < |tasks|
      ensures TaskAt(tasks', accepted', now, k)
    {
      assert TaskAt(tasks, accepted, now, k);
    }
  }

  /** Changing one task, and not the number of its accepted responses. */
  lemma ChangeKind(tasks: seq<Task>, accepted: seq<nat>, remain: int, now: int, i: nat, task: Task)
    requires KindOk(tasks, accepted, remain, now) && i < |tasks| && TaskOk(task, accepted[i], now)
    ensures KindOk(tasks[i := task], accepted, remain, now)
  {
    var tasks' := tasks[i := task];
    forall k: nat | k < |tasks|
      ensures TaskAt(tasks', accepted, now, k)
    {
      assert TaskAt(tasks, accepted, now, k);
    }
  }

  lemma TimePasses(tasks: seq<Task>, accepted: seq<nat>, remain: int, now: int, later: int)
    requires KindOk(tasks, accepted, remain, now) && now <= later
    ensures KindOk(tasks, accepted, remain, later)
  {
    forall i: nat | i < |tasks|
      ensures TaskAt(tasks, accepted, later, i)
    {
      assert TaskAt(tasks, accepted, now, i);
    }
  }

  lemma LeaseOk(task: Task, accepted: nat, now: int)
    requires TaskOk(task, accepted, now) && task.state == Idle
    ensures TaskOk(Leased(task, now), accepted, now)
  {
  }

  lemma TimerOk(task: Task, accepted: nat, now: int, deadline: int)
    requires TaskOk(task, accepted, now) && deadline in task.timers && now >= deadline
    ensures TaskOk(OnTimer(task, deadline), accepted, now)
  {
  }

  lemma AskInv(y: System)
    requires Inv(y)
    ensures Inv(After(y, Ask))
  {
    if y.s.mapRemain != 0 {
      var i := FirstIdle(y.s.mtasks);
      if i < |y.s.mtasks| {
        assert TaskAt(y.s.mtasks, y.mapAccepted, y.now, i);
        LeaseOk(y.s.mtasks[i], y.mapAccepted[i], y.now);
        ChangeKind(y.s.mtasks, y.mapAccepted, y.s.mapRemain, y.now, i, Leased(y.s.mtasks[i], y.now));
      }
    } else {
      var i := FirstIdle(y.s.rtasks);
      if i < |y.s.rtasks| {
        assert TaskAt(y.s.rtasks, y.reduceAccepted, y.now, i);
        LeaseOk(y.s.rtasks[i], y.reduceAccepted[i], y.now);
        ChangeKind(y.s.rtasks, y.reduceAccepted, y.s.reduceRemain, y.now, i, Leased(y.s.rtasks[i], y.now));
      }
    }
  }

  lemma WakeInv(y: System, kind: Kind, i: nat, deadline: int)
    requires Inv(y) && Enabled(y, Wake(kind, i, deadline))
    ensures Inv(After(y, Wake(kind, i, deadline)))
  {
    var task := Tasks(y.s, kind)[i];
    assert TaskAt(Tasks(y.s, kind), Accepted(y, kind), y.now, i);
    TimerOk(task, Accepted(y, kind)[i], y.now, deadline);
    if kind == MapKind {
      ChangeKind(y.s.mtasks, y.mapAccepted, y.s.mapRemain, y.now, i, OnTimer(task, deadline));
    } else {
      ChangeKind(y.s.rtasks, y.reduceAccepted, y.s.reduceRemain, y.now, i, OnTimer(task, deadline));
    }
  }

  lemma RespondInv(y: System, kind: Kind, i: nat)
    requires Inv(y) && Enabled(y, Respond(kind, i))
    ensures Inv(After(y, Respond(kind, i)))
  {
    var z := After(y, Respond(kind, i));
    if !InTime(Tasks(y.s, kind)[i], y.now) {
      assert z == y;
    } else if kind == MapKind {
      RespondKind(y.s.mtasks, y.mapAccepted, y.s.mapRemain, y.now, i);
      assert KindOk(z.s.mtasks, z.mapAccepted, z.s.mapRemain, z.now);
    } else {
      RespondKind(y.s.rtasks, y.reduceAccepted, y.s.reduceRemain, y.now, i);
      assert KindOk(z.s.rtasks, z.reduceAccepted, z.s.reduceRemain, z.now);
    }
  }

  lemma StepInv(y: System, step: Step)
    requires Inv(y) && Enabled(y, step)
    ensures Inv(After(y, step))
  {
    match step
    case Tick(now) =>
      TimePasses(y.s.mtasks, y.mapAccepted, y.s.mapRemain, y.now, now);
      TimePasses(y.s.rtasks, y.reduceAccepted, y.s.reduceRemain, y.now, now);
    case Ask => AskInv(y);
    case Respond(kind, i) => RespondInv(y, kind, i);
    case Wake(kind, i, deadline) => WakeInv(y, kind, i, deadline);
  }

  // ---- runs ----

  /** The state after running steps from the start; None if one of them was not possible. */
  ghost function Run(files: nat, nReduce: nat, now: int, steps: seq<Step>): Option<System> {
    if steps == [] then Some(InitSystem(files, nReduce, now)) else
    var k := |steps| - 1;
    match Run(files, nReduce, now, steps[..k])
    case None => None
    case Some(y) => if Enabled(y, steps[k]) then Some(After(y, steps[k])) else None
  }

  lemma {:induction false} RunInv(files: nat, nReduce: nat, now: int, steps: seq<Step>)
    requires Run(files, nReduce, now, steps).Some?
    ensures var y := Run(files, nReduce, now, steps).value;
            Inv(y) && |y.s.mtasks| == files && |y.s.rtasks| == nReduce
  {
    if steps == [] {
      InitInv(files, nReduce, now);
    } else {
      var k := |steps| - 1;
      RunInv(files, nReduce, now, steps[..k]);
      StepInv(Run(files, nReduce, now, steps[..k]).value, steps[k]);
    }
  }

  lemma CompletedStep(y: System, step: Step, kind: Kind, i: nat)
    requires Enabled(y, step) && i < |Tasks(y.s, kind)| && Tasks(y.s, kind)[i].state == Completed
    ensures i < |Tasks(After(y, step).s, kind)| && Tasks(After(y, step).s, kind)[i].state == Completed
  {
  }

  /** A completed task stays completed, whatever follows. */
  lemma {:induction false} CompletedIsPermanent(files: nat, nReduce: nat, now: int, steps: seq<Step>, more: seq<Step>,
                                                kind: Kind, i: nat)
    requires Run(files, nReduce, now, steps + more).Some? && Run(files, nReduce, now, steps).Some?
    requires var y := Run(files, nReduce, now, steps).value;
             i < |Tasks(y.s, kind)| && Tasks(y.s, kind)[i].state == Completed
    ensures var z := Run(files, nReduce, now, steps + more).value;
            i < |Tasks(z.s, kind)| && Tasks(z.s, kind)[i].state == Completed
  {
    if more == [] {
      assert steps + more == steps;
    } else {
      var k := |more| - 1;
      assert (steps + more)[..|steps + more| - 1] == steps + more[..k];
      CompletedIsPermanent(files, nReduce, now, steps, more[..k], kind, i);
      CompletedStep(Run(files, nReduce, now, steps + more[..k]).value, more[k], kind, i);
    }
  }

  /**
   * In every run: an idle task has no timer waiting, one in progress has exactly
   * one, and what remains plus what was accepted is the number of tasks.
   */
  lemma LeasesAndCounters(files: nat, nReduce: nat, now: int, steps: seq<Step>)
    requires Run(files, nReduce, now, steps).Some?
    ensures var y := Run(files, nReduce, now, steps).value;
            && (forall kind, i :: 0 <= i < |Tasks(y.s, kind)| ==>
                  && (Tasks(y.s, kind)[i].state == Idle ==> |Tasks(y.s, kind)[i].timers| == 0)
                  && (Tasks(y.s, kind)[i].state == InProgress ==> |Tasks(y.s, kind)[i].timers| == 1)
                  && |Tasks(y.s, kind)[i].timers| <= 1)
            && y.s.mapRemain + Sum(y.mapAccepted) == files
            && y.s.reduceRemain + Sum(y.reduceAccepted) == nReduce
  {
    RunInv(files, nReduce, now, steps);
    var y := Run(files, nReduce, now, steps).value;
    forall kind, i | 0 <= i < |Tasks(y.s, kind)|
      ensures && (Tasks(y.s, kind)[i].state == Idle ==> |Tasks(y.s, kind)[i].timers| == 0)
              && (Tasks(y.s, kind)[i].state == InProgress ==> |Tasks(y.s, kind)[i].timers| == 1)
              && |Tasks(y.s, kind)[i].timers| <= 1
    {
      assert TaskAt(Tasks(y.s, kind), Accepted(y, kind), y.now, i);
      TimersOf(Tasks(y.s, kind)[i], Accepted(y, kind)[i], y.now);
    }
  }

  lemma TimersOf(task: Task, accepted: nat, now: int)
    requires TaskOk(task, accepted, now)
    ensures task.state == Idle ==> |task.timers| == 0
    ensures task.state == InProgress ==> |task.timers| == 1
    ensures |task.timers| <= 1
  {
    if task.state == Completed {
      var one := multiset{task.timestamp.value + LEASE};
      assert |one| == |task.timers| + |one - task.timers| by { assert one == task.timers + (one - task.timers); }
    }
  }

  /**
   * In every run: a task in progress is given up no earlier than ten seconds
   * after its lease, and completed by no response later than that.
   */
  lemma LeasesAreKept(files: nat, nReduce: nat, now: int, steps: seq<Step>, step: Step, kind: Kind, i: nat)
    requires Run(files, nReduce, now, steps).Some? && Enabled(Run(files, nReduce, now, steps).value, step)
    requires i < |Tasks(Run(files, nReduce, now, steps).value.s, kind)|
    ensures var y := Run(files, nReduce, now, steps).value;
            && i < |Tasks(After(y, step).s, kind)|
            && LeaseKept(Tasks(y.s, kind)[i], Tasks(After(y, step).s, kind)[i], y.now)
  {
    RunInv(files, nReduce, now, steps);
    LeaseStep(Run(files, nReduce, now, steps).value, step, kind, i);
  }

  /** From `before` to `after` a lease was kept, by the clock. */
  ghost predicate LeaseKept(before: Task, after: Task, now: int) {
    && (before.state == InProgress ==> before.timestamp.Some?)
    && (before.state == InProgress && after.state == Idle ==> now >= before.timestamp.value + 10 * SECOND)
    && (before.state == InProgress && after.state == Completed ==> now < before.timestamp.value + 10 * SECOND)
    && (before.state == Idle ==> after.state != Completed)
  }

  /** What a step can do to one task. */
  ghost predicate TaskStep(task: Task, task': Task, now: int) {
    || task' == task
    || (task.state == Idle && task' == Leased(task, now))
    || (InTime(task, now) && task' == task.(state := Completed))
    || exists deadline :: deadline in task.timers && now >= deadline && task' == OnTimer(task, deadline)
  }

  lemma StepOfTask(y: System, step: Step, kind: Kind, i: nat)
    requires Enabled(y, step) && i < |Tasks(y.s, kind)|
    ensures i < |Tasks(After(y, step).s, kind)|
    ensures TaskStep(Tasks(y.s, kind)[i], Tasks(After(y, step).s, kind)[i], y.now)
  {
  }

  lemma TaskStepKeeps(task: Task, task': Task, accepted: nat, now: int)
    requires TaskOk(task, accepted, now) && TaskStep(task, task', now)
    ensures LeaseKept(task, task', now)
  {
  }

  lemma LeaseStep(y: System, step: Step, kind: Kind, i: nat)
    requires Inv(y) && Enabled(y, step) && i < |Tasks(y.s, kind)|
    ensures i < |Tasks(After(y, step).s, kind)|
    ensures LeaseKept(Tasks(y.s, kind)[i], Tasks(After(y, step).s, kind)[i], y.now)
  {
    assert TaskAt(Tasks(y.s, kind), Accepted(y, kind), y.now, i);
    StepOfTask(y, step, kind, i);
    TaskStepKeeps(Tasks(y.s, kind)[i], Tasks(After(y, step).s, kind)[i], Accepted(y, kind)[i], y.now);
  }

  // ---- when the counters can be trusted ----

  ghost function Incomplete(tasks: seq<Task>): nat {
    if tasks == [] then 0
    else Incomplete(tasks[..|tasks| - 1]) + if tasks[|tasks| - 1].state == Completed then 0 else 1
  }

  ghost predicate NoneTwice(accepted: seq<nat>) {
    forall i :: 0 <= i < |accepted| ==> accepted[i] <= 1
  }

  lemma {:induction false} RemainIsIncomplete(tasks: seq<Task>, accepted: seq<nat>, now: int)
    requires |accepted| == |tasks| && AllOk(tasks, accepted, now)
    ensures |tasks| - Sum(accepted) <= Incomplete(tasks)
    ensures |tasks| - Sum(accepted) == Incomplete(tasks) <==> NoneTwice(accepted)
  {
    if tasks != [] {
      var k := |tasks| - 1;
      forall i: nat | i < k
        ensures TaskAt(tasks[..k], accepted[..k], now, i)
      {
        assert TaskAt(tasks, accepted, now, i);
      }
      RemainIsIncomplete(tasks[..k], accepted[..k], now);
      assert TaskAt(tasks, accepted, now, k);
      assert NoneTwice(accepted) <==> NoneTwice(accepted[..k]) && accepted[k] <= 1;
    }
  }

  lemma {:induction false} IncompleteZero(tasks: seq<Task>)
    ensures Incomplete(tasks) == 0 <==> forall i :: 0 <= i < |tasks| ==> tasks[i].state == Completed
  {
    if tasks != [] {
      IncompleteZero(tasks[..|tasks| - 1]);
    }
  }

  /** A counter says how many tasks are left exactly in the runs where no task of its kind was accepted twice. */
  lemma CounterIsRightIff(files: nat, nReduce: nat, now: int, steps: seq<Step>)
    requires Run(files, nReduce, now, steps).Some?
    ensures var y := Run(files, nReduce, now, steps).value;
            && (y.s.mapRemain == Incomplete(y.s.mtasks) <==> NoneTwice(y.mapAccepted))
            && (y.s.reduceRemain == Incomplete(y.s.rtasks) <==> NoneTwice(y.reduceAccepted))
            && y.s.mapRemain <= Incomplete(y.s.mtasks) && y.s.reduceRemain <= Incomplete(y.s.rtasks)
  {
    RunInv(files, nReduce, now, steps);
    var y := Run(files, nReduce, now, steps).value;
    RemainIsIncomplete(y.s.mtasks, y.mapAccepted, y.now);
    RemainIsIncomplete(y.s.rtasks, y.reduceAccepted, y.now);
  }

  ghost predicate AllCompleted(tasks: seq<Task>) {
    forall i :: 0 <= i < |tasks| ==> tasks[i].state == Completed
  }

  // ---- the guard the code lacks ----

  /** The step is a response, in time, for a task of this kind that is already completed. */
  predicate Repeats(y: System, step: Step, kind: Kind)
    requires Enabled(y, step)
  {
    && step.Respond? && step.kind == kind
    && InTime(Tasks(y.s, kind)[step.index], y.now) && Tasks(y.s, kind)[step.index].state == Completed
  }

  /** A step makes a task accepted twice exactly if it repeats a response. */
  lemma RepeatsIff(y: System, step: Step, kind: Kind)
    requires Inv(y) && Enabled(y, step)
    ensures NoneTwice(Accepted(After(y, step), kind)) <==> NoneTwice(Accepted(y, kind)) && !Repeats(y, step, kind)
  {
    var before, after := Accepted(y, kind), Accepted(After(y, step), kind);
    if step.Respond? && step.kind == kind && InTime(Tasks(y.s, kind)[step.index], y.now) {
      var i := step.index;
      assert TaskAt(Tasks(y.s, kind), before, y.now, i);
      assert after == before[i := before[i] + 1];
      assert forall k :: 0 <= k < |before| && k != i ==> after[k] == before[k];
      assert after[i] == before[i] + 1;
    } else {
      assert after == before;
    }
  }

  /** No step of the run repeats a response: what the handler could check before it counts one. */
  ghost predicate NeverRepeats(files: nat, nReduce: nat, now: int, steps: seq<Step>, kind: Kind) {
    steps == [] ||
    var k := |steps| - 1;
    && NeverRepeats(files, nReduce, now, steps[..k], kind)
    && match Run(files, nReduce, now, steps[..k])
       case None => true
       case Some(y) => Enabled(y, steps[k]) ==> !Repeats(y, steps[k], kind)
  }

  lemma {:induction false} NoneTwiceIff(files: nat, nReduce: nat, now: int, steps: seq<Step>, kind: Kind)
    requires Run(files, nReduce, now, steps).Some?
    ensures NoneTwice(Accepted(Run(files, nReduce, now, steps).value, kind)) <==>
            NeverRepeats(files, nReduce, now, steps, kind)
  {
    if steps != [] {
      var k := |steps| - 1;
      NoneTwiceIff(files, nReduce, now, steps[..k], kind);
      RunInv(files, nReduce, now, steps[..k]);
      RepeatsIff(Run(files, nReduce, now, steps[..k]).value, steps[k], kind);
    }
  }

  /**
   * A reduce task handed out means that all map tasks are completed, and Done
   * that all reduce tasks are, exactly if no response of that kind was repeated
   * before; and without repeats Done says exactly that, and no map task is
   * handed out once all are completed.
   */
  lemma PhasesInOrder(files: nat, nReduce: nat, now: int, steps: seq<Step>)
    requires Run(files, nReduce, now, steps).Some?
    ensures var y := Run(files, nReduce, now, steps).value;
            var mapsOnce := NeverRepeats(files, nReduce, now, steps, MapKind);
            var reducesOnce := NeverRepeats(files, nReduce, now, steps, ReduceKind);
            && (OnAsk(y.s, y.now).1.ReduceTask? ==> (AllCompleted(y.s.mtasks) <==> mapsOnce))
            && (IsDone(y.s) ==> (AllCompleted(y.s.rtasks) <==> reducesOnce))
            && (mapsOnce ==> !(OnAsk(y.s, y.now).1.MapTask? && AllCompleted(y.s.mtasks)))
            && (reducesOnce ==> (IsDone(y.s) <==> AllCompleted(y.s.rtasks)))
  {
    CounterIsRightIff(files, nReduce, now, steps);
    NoneTwiceIff(files, nReduce, now, steps, MapKind);
    NoneTwiceIff(files, nReduce, now, steps, ReduceKind);
    var y := Run(files, nReduce, now, steps).value;
    IncompleteZero(y.s.mtasks);
    IncompleteZero(y.s.rtasks);
  }

  // ---- and when they cannot ----

  const IDLE := Task(Idle, None, multiset{})

  /** Two map tasks and one reduce task, the first map task in the given state. */
  function TwoMaps(remain: int, first: Task, now: int, accepted: nat): System {
    System(State(remain, 1, [first, IDLE], [IDLE]), now, [accepted, 0], [0])
  }

  lemma AskLeasesFirst(remain: int, timestamp: Option<int>, now: int)
    requires remain != 0
    ensures var first := Task(Idle, timestamp, multiset{});
            After(TwoMaps(remain, first, now, 0), Ask) ==
            TwoMaps(remain, Task(InProgress, Some(now), multiset{now + LEASE}), now, 0)
  {
    var first := Task(Idle, timestamp, multiset{});
    assert first.timers + multiset{now + LEASE} == multiset{now + LEASE};
    assert [first, IDLE][0 := Leased(first, now)] == [Task(InProgress, Some(now), multiset{now + LEASE}), IDLE];
  }

  lemma WakeFreesFirst(remain: int, lease: int, now: int)
    requires now >= lease + LEASE
    ensures var y := TwoMaps(remain, Task(InProgress, Some(lease), multiset{lease + LEASE}), now, 0);
            && Enabled(y, Wake(MapKind, 0, lease + LEASE))
            && After(y, Wake(MapKind, 0, lease + LEASE)) == TwoMaps(remain, Task(Idle, Some(lease), multiset{}), now, 0)
  {
    var task := Task(InProgress, Some(lease), multiset{lease + LEASE});
    assert task.timers - multiset{lease + LEASE} == multiset{};
    assert [task, IDLE][0 := OnTimer(task, lease + LEASE)] == [Task(Idle, Some(lease), multiset{}), IDLE];
  }

  lemma ResponseIsCounted(remain: int, state: TaskState, now: int, accepted: nat)
    ensures var y := TwoMaps(remain, Task(state, Some(now), multiset{now + LEASE}), now, accepted);
            && Enabled(y, Respond(MapKind, 0))
            && After(y, Respond(MapKind, 0)) ==
               TwoMaps(remain - 1, Task(Completed, Some(now), multiset{now + LEASE}), now, accepted + 1)
  {
    var task := Task(state, Some(now), multiset{now + LEASE});
    assert [task, IDLE][0 := task.(state := Completed)] == [Task(Completed, Some(now), multiset{now + LEASE}), IDLE];
    assert [accepted, 0][0 := accepted + 1] == [accepted + 1, 0];
  }

  /** The first map task is leased, its worker is late, and it is leased again. */
  lemma LeasedAgain(now: int) returns (steps: seq<Step>)
    ensures var late := now + LEASE;
            && steps == [Ask, Tick(late), Wake(MapKind, 0, late), Ask]
            && Run(2, 1, now, steps) == Some(TwoMaps(2, Task(InProgress, Some(late), multiset{late + LEASE}), late, 0))
  {
    var late := now + LEASE;
    var first, freed := Task(InProgress, Some(now), multiset{late}), Task(Idle, Some(now), multiset{});
    var second := Task(InProgress, Some(late), multiset{late + LEASE});
    assert InitSystem(2, 1, now) == TwoMaps(2, IDLE, now, 0);
    AskLeasesFirst(2, None, now);
    steps := RunStep(2, 1, now, [], Ask, TwoMaps(2, IDLE, now, 0), TwoMaps(2, first, now, 0));
    steps := RunStep(2, 1, now, steps, Tick(late), TwoMaps(2, first, now, 0), TwoMaps(2, first, late, 0));
    WakeFreesFirst(2, now, late);
    steps := RunStep(2, 1, now, steps, Wake(MapKind, 0, late), TwoMaps(2, first, late, 0), TwoMaps(2, freed, late, 0));
    AskLeasesFirst(2, Some(now), late);
    steps := RunStep(2, 1, now, steps, Ask, TwoMaps(2, freed, late, 0), TwoMaps(2, second, late, 0));
  }

  /**
   * A task leased, timed out and leased again: the responses of both workers are
   * counted, and a reduce task is handed out while a map task has not even started.
   */
  lemma LateResponseIsCounted(now: int)
    ensures var late := now + LEASE;
            var steps := [Ask, Tick(late), Wake(MapKind, 0, late), Ask, Respond(MapKind, 0), Respond(MapKind, 0)];
            var run := Run(2, 1, now, steps);
            && run.Some? && run.value.s.mapRemain == 0 && |run.value.s.mtasks| == 2
            && run.value.s.mtasks[1].state == Idle
            && OnAsk(run.value.s, run.value.now).1.ReduceTask?
  {
    var late := now + LEASE;
    var second := Task(InProgress, Some(late), multiset{late + LEASE});
    var done := second.(state := Completed);
    var p4 := LeasedAgain(now);
    ResponseIsCounted(2, InProgress, late, 0);
    var p5 := RunStep(2, 1, now, p4, Respond(MapKind, 0), TwoMaps(2, second, late, 0), TwoMaps(1, done, late, 1));
    ResponseIsCounted(1, Completed, late, 1);
    var p6 := RunStep(2, 1, now, p5, Respond(MapKind, 0), TwoMaps(1, done, late, 1), TwoMaps(0, done, late, 2));
    assert p6 == [Ask, Tick(late), Wake(MapKind, 0, late), Ask, Respond(MapKind, 0), Respond(MapKind, 0)];
  }

  lemma RunStep(files: nat, nReduce: nat, now: int, steps: seq<Step>, step: Step, y: System, z: System)
    returns (longer: seq<Step>)
    requires Run(files, nReduce, now, steps) == Some(y) && Enabled(y, step) && After(y, step) == z
    ensures longer == steps + [step] && Run(files, nReduce, now, longer) == Some(z)
  {
    longer := steps + [step];
    assert longer[..|steps|] == steps;
  }

  /** Once the map counter is below zero, no reduce task is handed out ever again. */
  lemma {:induction false} NegativeIsForever(files: nat, nReduce: nat, now: int, steps: seq<Step>, more: seq<Step>)
    requires Run(files, nReduce, now, steps + more).Some?
    requires Run(files, nReduce, now, steps).Some? && Run(files, nReduce, now, steps).value.s.mapRemain < 0
    ensures var y := Run(files, nReduce, now, steps + more).value;
            y.s.mapRemain < 0 && !OnAsk(y.s, y.now).1.ReduceTask?
  {
    if more == [] {
      assert steps + more == steps;
    } else {
      var k := |more| - 1;
      assert (steps + more)[..|steps + more| - 1] == steps + more[..k];
      NegativeIsForever(files, nReduce, now, steps, more[..k]);
    }
  }
}
