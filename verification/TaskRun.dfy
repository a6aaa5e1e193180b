/**
 * Tasks of a manager as interleaved steps: each task's thread, cancellation from anywhere, and
 * the manager's lock. Only what one lock or one assignment makes atomic is one step.
 */
module TaskRun {
  import opened TaskRegistry

  datatype Status = Pending | Running | Completed | Failed | Cancelled | Rejected

  predicate Terminal(s: Status) {
    s == Completed || s == Failed || s == Cancelled || s == Rejected
  }

  /** What an exception on its way to a handler is. */
  datatype Raised = RaisedCancelled | RaisedRejected | RaisedOther

  /** Where a task's thread stands. */
  datatype Stage =
    | Waiting                    // about to look at the closing and cancel flags
    | Trying                     // about to try for a slot
    | GivingUp(status: Status)   // about to note that it will not run
    | Holding                    // has its slot, about to look at the cancel flag
    | Cleared                    // about to look at the closing flag
    | Starting                   // about to note that it runs
    | Working                    // in the target
    | Returned                   // about to note the result
    | Raising(what: Raised)      // about to note the exception
    | Ending                     // about to give the slot back
    | Finalizing                 // about to enter the manager's books
    | Finalized                  // about to wake the waiters
    | Done

  /** What the thread meets at its next step, where that is open. */
  datatype Choice = Go | Late | Returns | Raises(what: Raised) | Escapes

  datatype Task = Task(group: nat, status: Status, stage: Stage, cancelRequested: bool, promised: bool,
                       acquired: nat, released: nat, escaped: bool)

  datatype World = World(max: nat, free: nat, closed: bool, tasks: map<nat, Task>, registry: Registry, log: seq<nat>)

  datatype Event =
    | Spawn(id: nat, group: nat)
    | SpawnFails(id: nat, group: nat)
    | Cancel(id: nat)
    | Close
    | Step(id: nat, choice: Choice)

  function Start(max: nat, maxFinished: nat): World {
    World(max, max, false, map[], Registry({}, map[], [], maxFinished), [])
  }

  predicate Behind(stage: Stage) {
    stage.Finalized? || stage.Done?
  }

  predicate Decided(stage: Stage) {
    stage.Ending? || stage.Finalizing? || Behind(stage)
  }

  /** `cancel`: a task that has not ended promises not to complete. */
  function Cancelling(t: Task): Task {
    if Terminal(t.status) then t else t.(cancelRequested := true, promised := true)
  }

  /** The status a handler notes; under the state lock where the cancel flag counts. */
  function NotedFor(t: Task, what: Raised): Status {
    match what
    case RaisedCancelled => Cancelled
    case RaisedRejected => Rejected
    case RaisedOther => if t.cancelRequested then Cancelled else Failed
  }

  /**
   * One step of the thread, but for the slots and the manager's books. The folds keep it out of
   * sight until it is asked for.
   */
  function Moved(t: Task, gated: bool, closed: bool, slot: bool, choice: Choice, folds: nat := 2): Task
    decreases t, folds
  {
    if folds > 0 then Moved(t, gated, closed, slot, choice, folds - 1) else MovedOn(t, gated, closed, slot, choice)
  }

  lemma {:induction false} MovedUnfolds(t: Task, gated: bool, closed: bool, slot: bool, choice: Choice)
    ensures Moved(t, gated, closed, slot, choice) == MovedOn(t, gated, closed, slot, choice)
  {
    assert Moved(t, gated, closed, slot, choice, 1) == Moved(t, gated, closed, slot, choice, 0);
  }

  function MovedOn(t: Task, gated: bool, closed: bool, slot: bool, choice: Choice): Task {
    match t.stage
    case Waiting =>
      if closed || t.cancelRequested then t.(stage := GivingUp(Cancelled))
      else if choice.Late? then t.(stage := GivingUp(Rejected))
      else t.(stage := Trying)
    case Trying => if slot then t.(stage := Holding, acquired := t.acquired + 1) else t.(stage := Waiting)
    case GivingUp(status) => t.(status := status, stage := Finalizing)
    case Holding => t.(stage := if t.cancelRequested then Raising(RaisedCancelled) else Cleared)
    case Cleared => t.(stage := if closed then Raising(RaisedRejected) else Starting)
    case Starting => t.(status := Running, stage := Working)
    case Working =>
      (match choice
       case Raises(what) => t.(stage := Raising(what))
       case Escapes => t.(stage := Ending, escaped := true)
       case _ => t.(stage := Returned))
    case Returned => t.(status := if t.cancelRequested then Cancelled else Completed, stage := Ending)
    case Raising(what) => t.(status := NotedFor(t, what), stage := Ending)
    case Ending => t.(stage := Finalizing, released := if gated then t.released + 1 else t.released)
    case Finalizing => t.(stage := Finalized)
    case Finalized => t.(stage := Done)
    case Done => t
  }

  function Stepped(w: World, id: nat, choice: Choice): World
    requires id in w.tasks
  {
    var t := w.tasks[id];
    var t' := Moved(t, w.max > 0, w.closed, w.free > 0, choice);
    w.(tasks := w.tasks[id := t'],
       free := if t.stage.Trying? && w.free > 0 then w.free - 1 else if t.stage.Ending? && w.max > 0 then w.free + 1 else w.free,
       registry := if t.stage.Finalizing? then TaskRegistry.Finalized(w.registry, id, t.group) else w.registry,
       log := if t.stage.Finalizing? then w.log + [id] else w.log)
  }

  function NewTask(group: nat, gated: bool): Task {
    Task(group, Pending, if gated then Waiting else Holding, false, false, 0, 0, false)
  }

  predicate Enabled(w: World, event: Event) {
    match event
    case Spawn(id, _) => !w.closed && id !in w.tasks
    case SpawnFails(id, _) => !w.closed && id !in w.tasks
    case Cancel(id) => id in w.tasks
    case Step(id, _) => id in w.tasks
    case Close => true
  }

  /** An event that is not enabled changes nothing. */
  function Next(w: World, event: Event): World {
    if !Enabled(w, event) then w
    else
      match event
      case Spawn(id, group) =>
        w.(tasks := w.tasks[id := NewTask(group, w.max > 0)], registry := Registered(w.registry, id, group))
      case SpawnFails(id, group) => w.(registry := Unregistered(Registered(w.registry, id, group), id, group))
      case Cancel(id) => w.(tasks := w.tasks[id := Cancelling(w.tasks[id])])
      case Close => w.(closed := true)
      case Step(id, choice) => Stepped(w, id, choice)
  }

  function Run(max: nat, maxFinished: nat, events: seq<Event>): World
    decreases |events|
  {
    if |events| == 0 then Start(max, maxFinished) else Next(Run(max, maxFinished, events[..|events| - 1]), events[|events| - 1])
  }

  // What every event keeps of one task.

  predicate BeforeSlot(stage: Stage) {
    stage.Waiting? || stage.Trying? || stage.GivingUp?
  }

  predicate WithSlot(stage: Stage) {
    stage.Holding? || stage.Cleared? || stage.Starting? || stage.Working? || stage.Returned? || stage.Raising? || stage.Ending?
  }

  ghost predicate StatusInv(t: Task) {
    && (Terminal(t.status) <==> Decided(t.stage) && !t.escaped)
    && (t.escaped ==> Decided(t.stage) && t.status == Running)
    && (t.stage.Working? || t.stage.Returned? ==> t.status == Running)
    && (t.stage.GivingUp? ==> t.stage.status == Cancelled || t.stage.status == Rejected)
    && (t.promised ==> t.cancelRequested && t.status != Completed && t.status != Failed)
  }

  ghost predicate TurnInv(t: Task, gated: bool) {
    && (BeforeSlot(t.stage) ==> t.status == Pending && gated)
    && (gated && WithSlot(t.stage) ==> t.acquired == 1 && t.released == 0)
    && (gated && BeforeSlot(t.stage) ==> t.acquired == 0 && t.released == 0)
    && (gated && !WithSlot(t.stage) ==> t.acquired == t.released <= 1)
    && (!gated ==> t.acquired == 0 && t.released == 0)
  }

  ghost predicate TaskInv(t: Task, gated: bool) {
    StatusInv(t) && TurnInv(t, gated)
  }

  lemma {:induction false} NewTaskHolds(group: nat, gated: bool)
    ensures TaskInv(NewTask(group, gated), gated)
  {
  }

  lemma {:induction false} CancellingKeeps(t: Task, gated: bool)
    requires TaskInv(t, gated)
    ensures TaskInv(Cancelling(t), gated)
  {
  }

  lemma {:induction false} MovedKeepsStatus(t: Task, gated: bool, closed: bool, slot: bool, choice: Choice)
    requires StatusInv(t)
    ensures StatusInv(Moved(t, gated, closed, slot, choice))
    ensures Terminal(t.status) ==> Moved(t, gated, closed, slot, choice).status == t.status
  {
    MovedUnfolds(t, gated, closed, slot, choice);
    match t.stage {
      case Waiting =>
      case Trying =>
      case GivingUp(_) =>
      case Holding =>
      case Cleared =>
      case Starting =>
      case Working => match choice { case Raises(_) => case Escapes => case _ => }
      case Returned =>
      case Raising(what) => match what { case RaisedCancelled => case RaisedRejected => case RaisedOther => }
      case Ending =>
      case _ =>
    }
  }

  lemma {:induction false} MovedKeepsTurn(t: Task, gated: bool, closed: bool, slot: bool, choice: Choice)
    requires TurnInv(t, gated)
    ensures TurnInv(Moved(t, gated, closed, slot, choice), gated)
  {
    MovedUnfolds(t, gated, closed, slot, choice);
    match t.stage {
      case Waiting =>
      case Trying =>
      case GivingUp(_) =>
      case Holding =>
      case Cleared =>
      case Starting =>
      case Working => match choice { case Raises(_) => case Escapes => case _ => }
      case Returned =>
      case Raising(what) => match what { case RaisedCancelled => case RaisedRejected => case RaisedOther => }
      case Ending =>
      case _ =>
    }
  }

  lemma {:induction false} MovedKeeps(t: Task, gated: bool, closed: bool, slot: bool, choice: Choice)
    requires TaskInv(t, gated)
    ensures TaskInv(Moved(t, gated, closed, slot, choice), gated)
    ensures Terminal(t.status) ==> Moved(t, gated, closed, slot, choice).status == t.status
    ensures t.promised ==> Moved(t, gated, closed, slot, choice).promised
    ensures Moved(t, gated, closed, slot, choice).group == t.group
    ensures !t.stage.Finalizing? ==> Behind(Moved(t, gated, closed, slot, choice).stage) == Behind(t.stage)
    ensures t.stage.Finalizing? ==> Moved(t, gated, closed, slot, choice).stage == Finalized
  {
    MovedKeepsStatus(t, gated, closed, slot, choice);
    MovedKeepsTurn(t, gated, closed, slot, choice);
    MovedUnfolds(t, gated, closed, slot, choice);
  }

  // Slots.

  ghost function Holders(w: World): set<nat> {
    set id | id in w.tasks && w.tasks[id].acquired > w.tasks[id].released
  }

  ghost predicate SlotInv(w: World) {
    if w.max > 0 then w.free + |Holders(w)| == w.max else Holders(w) == {}
  }

  /** A slot is taken by the one step that tries for it, and given back by the one that ends. */
  lemma {:induction false} MovedSlots(t: Task, gated: bool, closed: bool, slot: bool, choice: Choice)
    requires TaskInv(t, gated)
    ensures var t', held := Moved(t, gated, closed, slot, choice), t.acquired > t.released;
            (t'.acquired > t'.released) ==
              if t.stage.Trying? && slot then true else if t.stage.Ending? && gated then false else held
    ensures t.stage.Trying? ==> gated && t.acquired <= t.released
    ensures t.stage.Ending? && gated ==> t.acquired > t.released
  {
    MovedUnfolds(t, gated, closed, slot, choice);
  }

  lemma {:induction false} SteppedHolders(w: World, id: nat, choice: Choice)
    requires id in w.tasks && TaskInv(w.tasks[id], w.max > 0)
    ensures var t := w.tasks[id];
            Holders(Stepped(w, id, choice)) ==
              if t.stage.Trying? && w.free > 0 then Holders(w) + {id}
              else if t.stage.Ending? && w.max > 0 then Holders(w) - {id} else Holders(w)
    ensures w.tasks[id].stage.Trying? ==> w.max > 0 && id !in Holders(w)
    ensures w.tasks[id].stage.Ending? && w.max > 0 ==> id in Holders(w)
  {
    MovedSlots(w.tasks[id], w.max > 0, w.closed, w.free > 0, choice);
  }

  lemma {:induction false} SteppedKeepsSlots(w: World, id: nat, choice: Choice)
    requires id in w.tasks && TaskInv(w.tasks[id], w.max > 0) && SlotInv(w)
    ensures SlotInv(Stepped(w, id, choice))
  {
    SteppedHolders(w, id, choice);
  }

  // The books.

  ghost predicate BookInv(w: World) {
    && NoRepeats(w.log) && w.registry.finishedOrder == Kept(w.log, w.registry.maxFinished)
    && (forall id :: id in w.log <==> id in w.tasks && Behind(w.tasks[id].stage))
    && (forall id :: id in w.registry.tasks <==> (id in w.tasks && !Behind(w.tasks[id].stage)) || id in w.registry.finishedOrder)
    && (forall g :: g in w.registry.byGroup ==> g != 0 && w.registry.byGroup[g] != {})
    && (forall id, g :: g != 0 ==> (id in Group(w.registry, g) <==> id in w.tasks && w.tasks[id].group == g && !Behind(w.tasks[id].stage)))
  }

  ghost predicate Inv(w: World) {
    (forall id :: id in w.tasks ==> TaskInv(w.tasks[id], w.max > 0)) && SlotInv(w) && BookInv(w)
  }

  lemma {:induction false} StartHolds(max: nat, maxFinished: nat)
    ensures Inv(Start(max, maxFinished))
  {
    assert Holders(Start(max, maxFinished)) == {};
  }

  lemma {:induction false} KeptAreLogged(log: seq<nat>, maxFinished: nat)
    ensures forall id :: id in Kept(log, maxFinished) ==> id in log
  {
  }

  lemma {:induction false} KeptNoRepeats(log: seq<nat>, maxFinished: nat)
    requires NoRepeats(log)
    ensures NoRepeats(Kept(log, maxFinished))
  {
  }

  /** The latest of the log are the latest of the latest with one more. */
  lemma {:induction false} KeptSnoc(log: seq<nat>, maxFinished: nat, id: nat)
    ensures Kept(log + [id], maxFinished) == Kept(Kept(log, maxFinished) + [id], maxFinished)
  {
  }

  /** Only its stage counts for the books, and only whether it is behind its finalization. */
  lemma {:induction false} SameBooks(w: World, w': World, id: nat)
    requires BookInv(w) && id in w.tasks && id in w'.tasks && w'.registry == w.registry && w'.log == w.log
    requires w'.tasks == w.tasks[id := w'.tasks[id]] && w'.tasks[id].group == w.tasks[id].group
    requires Behind(w'.tasks[id].stage) == Behind(w.tasks[id].stage)
    ensures BookInv(w')
  {
    forall other, g | g != 0
      ensures other in Group(w'.registry, g) <==> other in w'.tasks && w'.tasks[other].group == g && !Behind(w'.tasks[other].stage)
    {
      assert other in Group(w.registry, g) <==> other in w.tasks && w.tasks[other].group == g && !Behind(w.tasks[other].stage);
    }
  }

  /** The set of registered tasks before and after one of them is finished. */
  ghost function Unfinished(w: World): set<nat> {
    set id | id in w.tasks && !Behind(w.tasks[id].stage)
  }

  /** The latest finished tasks with one more that is not among them. */
  lemma {:induction false} OneMoreFinished(log: seq<nat>, maxFinished: nat, id: nat)
    requires NoRepeats(log) && id !in log
    ensures var order := Kept(log, maxFinished) + [id];
            NoRepeats(log + [id]) && NoRepeats(order) && Elements(order) == Elements(Kept(log, maxFinished)) + {id} &&
            Elements(order) <= Elements(log) + {id} && Kept(order, maxFinished) == Kept(log + [id], maxFinished)
  {
    KeptAreLogged(log, maxFinished);
    KeptNoRepeats(log, maxFinished);
    KeptSnoc(log, maxFinished, id);
  }

  lemma {:induction false} RegistryTasks(w: World)
    requires BookInv(w)
    ensures w.registry.tasks == Unfinished(w) + Elements(w.registry.finishedOrder) && Unfinished(w) !! Elements(w.log)
  {
  }

  lemma {:induction false} FinalizedTasks(w: World, id: nat)
    requires BookInv(w) && id in w.tasks && w.tasks[id].stage.Finalizing?
    ensures var r := TaskRegistry.Finalized(w.registry, id, w.tasks[id].group);
            r.finishedOrder == Kept(w.log + [id], w.registry.maxFinished) && r.maxFinished == w.registry.maxFinished &&
            r.tasks == (Unfinished(w) - {id}) + Elements(r.finishedOrder) &&
            r.byGroup == Ungrouped(w.registry, id, w.tasks[id].group).byGroup && NoRepeats(w.log + [id])
  {
    var r, g := w.registry, w.tasks[id].group;
    var left, order := Unfinished(w) - {id}, r.finishedOrder + [id];
    RegistryTasks(w);
    assert id !in w.log && id in Unfinished(w);
    OneMoreFinished(w.log, r.maxFinished, id);
    var r2 := Ungrouped(r, id, g).(tasks := r.tasks + {id}, finishedOrder := order);
    assert r2.tasks == left + Elements(order);
    EvictionKeepsLatest(r2, left);
  }

  lemma {:induction false} UngroupedIs(r: Registry, id: nat, group: nat, g: nat)
    requires forall g :: g in r.byGroup ==> g != 0 && r.byGroup[g] != {}
    ensures var r' := Ungrouped(r, id, group);
            (g in r'.byGroup ==> g != 0 && r'.byGroup[g] != {}) &&
            Group(r', g) == if g == group && group != 0 then Group(r, g) - {id} else Group(r, g)
  {
  }

  lemma {:induction false} FinalizedGroups(w: World, w': World, id: nat)
    requires BookInv(w) && id in w.tasks && !Behind(w.tasks[id].stage)
    requires w'.registry.byGroup == Ungrouped(w.registry, id, w.tasks[id].group).byGroup
    requires id in w'.tasks && w'.tasks == w.tasks[id := w'.tasks[id]] && Behind(w'.tasks[id].stage) && w'.tasks[id].group == w.tasks[id].group
    ensures forall g :: g in w'.registry.byGroup ==> g != 0 && w'.registry.byGroup[g] != {}
    ensures forall x, g :: g != 0 ==> (x in Group(w'.registry, g) <==> x in w'.tasks && w'.tasks[x].group == g && !Behind(w'.tasks[x].stage))
  {
    var g0 := w.tasks[id].group;
    forall g
      ensures g in w'.registry.byGroup ==> g != 0 && w'.registry.byGroup[g] != {}
    {
      UngroupedIs(w.registry, id, g0, g);
    }
    forall x, g | g != 0
      ensures x in Group(w'.registry, g) <==> x in w'.tasks && w'.tasks[x].group == g && !Behind(w'.tasks[x].stage)
    {
      UngroupedIs(w.registry, id, g0, g);
      assert x in Group(w.registry, g) <==> x in w.tasks && w.tasks[x].group == g && !Behind(w.tasks[x].stage);
    }
  }

  lemma {:induction false} FinalizedSets(w: World, w': World, id: nat)
    requires BookInv(w) && id in w.tasks && !Behind(w.tasks[id].stage) && w'.log == w.log + [id]
    requires id in w'.tasks && w'.tasks == w.tasks[id := w'.tasks[id]] && Behind(w'.tasks[id].stage)
    requires w'.registry.tasks == (Unfinished(w) - {id}) + Elements(w'.registry.finishedOrder)
    ensures forall x :: x in w'.log <==> x in w'.tasks && Behind(w'.tasks[x].stage)
    ensures forall x :: x in w'.registry.tasks <==> (x in w'.tasks && !Behind(w'.tasks[x].stage)) || x in w'.registry.finishedOrder
  {
  }

  lemma {:induction false} FinalizingKeepsBooks(w: World, id: nat, choice: Choice)
    requires BookInv(w) && id in w.tasks && w.tasks[id].stage.Finalizing? && TaskInv(w.tasks[id], w.max > 0)
    ensures BookInv(Stepped(w, id, choice)) && Stepped(w, id, choice).registry.maxFinished == w.registry.maxFinished
  {
    var w' := Stepped(w, id, choice);
    MovedKeeps(w.tasks[id], w.max > 0, w.closed, w.free > 0, choice);
    FinalizedTasks(w, id);
    FinalizedSets(w, w', id);
    FinalizedGroups(w, w', id);
  }

  lemma {:induction false} RegisteredIs(r: Registry, id: nat, group: nat, g: nat)
    requires forall g :: g in r.byGroup ==> g != 0 && r.byGroup[g] != {}
    ensures var r' := Registered(r, id, group);
            (g in r'.byGroup ==> g != 0 && r'.byGroup[g] != {}) &&
            Group(r', g) == if g == group && group != 0 then Group(r, g) + {id} else Group(r, g)
  {
  }

  lemma {:induction false} SpawnKeepsBooks(w: World, id: nat, group: nat)
    requires BookInv(w) && id !in w.tasks
    ensures BookInv(w.(tasks := w.tasks[id := NewTask(group, w.max > 0)], registry := Registered(w.registry, id, group)))
  {
    var w' := w.(tasks := w.tasks[id := NewTask(group, w.max > 0)], registry := Registered(w.registry, id, group));
    KeptAreLogged(w.log, w.registry.maxFinished);
    forall g
      ensures g in w'.registry.byGroup ==> g != 0 && w'.registry.byGroup[g] != {}
    {
      RegisteredIs(w.registry, id, group, g);
    }
    forall x, g | g != 0
      ensures x in Group(w'.registry, g) <==> x in w'.tasks && w'.tasks[x].group == g && !Behind(w'.tasks[x].stage)
    {
      RegisteredIs(w.registry, id, group, g);
      assert x in Group(w.registry, g) <==> x in w.tasks && w.tasks[x].group == g && !Behind(w.tasks[x].stage);
    }
  }

  /** A thread that fails to start leaves no trace in the books. */
  lemma {:induction false} FailedStartLeavesNoTrace(w: World, id: nat, group: nat)
    requires BookInv(w) && id !in w.tasks
    ensures Unregistered(Registered(w.registry, id, group), id, group) == w.registry
  {
    var r := w.registry;
    var r' := Unregistered(Registered(r, id, group), id, group);
    KeptAreLogged(w.log, r.maxFinished);
    assert id !in r.tasks;
    assert r.tasks + {id} - {id} == r.tasks;
    if group != 0 {
      assert id !in Group(r, group);
      assert Group(r, group) + {id} - {id} == Group(r, group);
      assert r'.byGroup == r.byGroup;
    }
  }

  lemma {:induction false} SteppedKeeps(w: World, id: nat, choice: Choice)
    requires Inv(w) && id in w.tasks
    ensures Inv(Stepped(w, id, choice)) && Stepped(w, id, choice).registry.maxFinished == w.registry.maxFinished
  {
    var w' := Stepped(w, id, choice);
    MovedKeeps(w.tasks[id], w.max > 0, w.closed, w.free > 0, choice);
    SteppedKeepsSlots(w, id, choice);
    if w.tasks[id].stage.Finalizing? {
      FinalizingKeepsBooks(w, id, choice);
    } else {
      SameBooks(w, w', id);
    }
  }

  lemma {:induction false} SpawnKeeps(w: World, id: nat, group: nat)
    requires Inv(w) && Enabled(w, Spawn(id, group))
    ensures Inv(Next(w, Spawn(id, group)))
  {
    NewTaskHolds(group, w.max > 0);
    SpawnKeepsBooks(w, id, group);
    assert Holders(Next(w, Spawn(id, group))) == Holders(w);
  }

  lemma {:induction false} CancelKeeps(w: World, id: nat)
    requires Inv(w) && id in w.tasks
    ensures Inv(Next(w, Cancel(id)))
  {
    CancellingKeeps(w.tasks[id], w.max > 0);
    SameBooks(w, Next(w, Cancel(id)), id);
    assert Holders(Next(w, Cancel(id))) == Holders(w);
  }

  lemma {:induction false} NextKeeps(w: World, event: Event)
    requires Inv(w)
    ensures Inv(Next(w, event)) && Next(w, event).max == w.max && Next(w, event).registry.maxFinished == w.registry.maxFinished
  {
    if Enabled(w, event) {
      match event
      case Spawn(id, group) => SpawnKeeps(w, id, group);
      case SpawnFails(id, group) =>
        FailedStartLeavesNoTrace(w, id, group);
        assert Next(w, event) == w;
      case Cancel(id) => CancelKeeps(w, id);
      case Close => assert Holders(Next(w, event)) == Holders(w);
      case Step(id, choice) => SteppedKeeps(w, id, choice);
    }
  }

  lemma {:induction false} RunKeeps(max: nat, maxFinished: nat, events: seq<Event>)
    ensures Inv(Run(max, maxFinished, events)) && Run(max, maxFinished, events).max == max
    ensures Run(max, maxFinished, events).registry.maxFinished == maxFinished
    decreases |events|
  {
    if |events| == 0 {
      StartHolds(max, maxFinished);
    } else {
      RunKeeps(max, maxFinished, events[..|events| - 1]);
      NextKeeps(Run(max, maxFinished, events[..|events| - 1]), events[|events| - 1]);
    }
  }

  // The theorems.

  /** On every interleaving the tasks that hold a slot are never more than the limit, and each that is done gave back what it took. */
  lemma {:induction false} SlotsAreKept(max: nat, maxFinished: nat, events: seq<Event>, id: nat)
    ensures var w := Run(max, maxFinished, events);
            (max > 0 ==> |Holders(w)| <= max && w.free <= max) &&
            (id in w.tasks ==> w.tasks[id].released <= w.tasks[id].acquired <= 1) &&
            (id in w.tasks && w.tasks[id].stage.Done? ==> w.tasks[id].released == w.tasks[id].acquired)
  {
    RunKeeps(max, maxFinished, events);
  }

  /** A task in its target holds a slot, if there are any. */
  lemma {:induction false} WorkingHoldsASlot(max: nat, maxFinished: nat, events: seq<Event>, id: nat)
    requires max > 0 && id in Run(max, maxFinished, events).tasks && Run(max, maxFinished, events).tasks[id].stage.Working?
    ensures id in Holders(Run(max, maxFinished, events))
  {
    RunKeeps(max, maxFinished, events);
  }

  /** A task whose cancellation was promised never ends completed or failed. */
  lemma {:induction false} PromisesAreKept(max: nat, maxFinished: nat, events: seq<Event>, id: nat)
    ensures var w := Run(max, maxFinished, events);
            id in w.tasks && w.tasks[id].promised ==> w.tasks[id].status != Completed && w.tasks[id].status != Failed
  {
    RunKeeps(max, maxFinished, events);
  }

  /** A terminal status and a promise stay for good. */
  lemma {:induction false} EndsAreFinal(w: World, event: Event, id: nat)
    requires Inv(w) && id in w.tasks
    ensures var w' := Next(w, event);
            id in w'.tasks && (Terminal(w.tasks[id].status) ==> w'.tasks[id].status == w.tasks[id].status) &&
            (w.tasks[id].promised ==> w'.tasks[id].promised)
  {
    if event.Step? && event.id in w.tasks {
      MovedKeeps(w.tasks[event.id], w.max > 0, w.closed, w.free > 0, event.choice);
    }
  }

  /**
   * A task in the manager's books has a terminal status exactly when no exception beyond the
   * ordinary ones left its target: such a one is still listed as running.
   */
  lemma {:induction false} FinalizedStatusExactly(max: nat, maxFinished: nat, events: seq<Event>, id: nat)
    ensures var w := Run(max, maxFinished, events);
            id in w.log ==> id in w.tasks && (Terminal(w.tasks[id].status) <==> !w.tasks[id].escaped) &&
                            (w.tasks[id].escaped ==> w.tasks[id].status == Running)
  {
    RunKeeps(max, maxFinished, events);
  }

  lemma {:induction false} RunSnoc(max: nat, maxFinished: nat, events: seq<Event>, event: Event)
    ensures Run(max, maxFinished, events + [event]) == Next(Run(max, maxFinished, events), event)
  {
    assert (events + [event])[..|events|] == events;
  }

  /** One step of task 1 where there are no slots and it is the only one. */
  lemma {:induction false} Alone(none: nat, maxFinished: nat, events: seq<Event>, choice: Choice, t: Task, log: seq<nat>) returns (more: seq<Event>)
    requires Only(Run(none, maxFinished, events), t, log) && !t.stage.Trying?
    ensures Only(Run(none, maxFinished, more), MovedOn(t, false, false, false, choice), if t.stage.Finalizing? then log + [1] else log)
  {
    more := events + [Step(1, choice)];
    RunSnoc(none, maxFinished, events, Step(1, choice));
    var w, w' := Run(none, maxFinished, events), Run(none, maxFinished, more);
    MovedUnfolds(t, false, false, w.free > 0, choice);
    assert w'.tasks[1] == MovedOn(t, false, false, false, choice);
  }

  predicate Only(w: World, t: Task, log: seq<nat>) {
    w.tasks == map[1 := t] && w.max == 0 && !w.closed && w.log == log
  }

  lemma {:induction false} AloneTwice(none: nat, maxFinished: nat, events: seq<Event>, first: Choice, second: Choice, t: Task, log: seq<nat>)
    returns (more: seq<Event>)
    requires Only(Run(none, maxFinished, events), t, log)
    requires var t' := MovedOn(t, false, false, false, first); !t.stage.Trying? && !t'.stage.Trying? && !t.stage.Finalizing?
    ensures var t' := MovedOn(t, false, false, false, first);
            Only(Run(none, maxFinished, more), MovedOn(t', false, false, false, second), if t'.stage.Finalizing? then log + [1] else log)
  {
    more := Alone(none, maxFinished, events, first, t, log);
    more := Alone(none, maxFinished, more, second, MovedOn(t, false, false, false, first), log);
  }

  lemma {:induction false} Spawned(none: nat, maxFinished: nat) returns (events: seq<Event>)
    requires none == 0
    ensures Only(Run(none, maxFinished, events), Task(0, Pending, Holding, false, false, 0, 0, false), [])
  {
    events := [Spawn(1, 0)];
    RunSnoc(none, maxFinished, [], Spawn(1, 0));
    assert [] + events == events;
  }

  /** A task without a slot to wait for is brought to its target. */
  lemma {:induction false} BroughtToTarget(none: nat, maxFinished: nat) returns (events: seq<Event>)
    requires none == 0
    ensures Only(Run(none, maxFinished, events), Task(0, Running, Working, false, false, 0, 0, false), [])
  {
    var t := Task(0, Pending, Holding, false, false, 0, 0, false);
    events := Spawned(none, maxFinished);
    events := AloneTwice(none, maxFinished, events, Go, Go, t, []);
    events := Alone(none, maxFinished, events, Go, t.(stage := Starting), []);
  }

  /** It happens: something that no handler takes leaves the target of the only task. */
  lemma {:induction false} EscapedTaskStaysRunning(none: nat, maxFinished: nat) returns (events: seq<Event>)
    requires none == 0
    ensures var w := Run(none, maxFinished, events); w.log == [1] && 1 in w.tasks && w.tasks[1].status == Running && w.tasks[1].escaped
  {
    events := BroughtToTarget(none, maxFinished);
    var t := Task(0, Running, Working, false, false, 0, 0, false);
    events := AloneTwice(none, maxFinished, events, Escapes, Go, t, []);
    events := Alone(none, maxFinished, events, Go, t.(stage := Finalizing, escaped := true), []);
    assert [] + [1] == [1];
  }

  /** The books hold the unfinished tasks and the latest finished ones, and each group its unfinished ones. */
  lemma {:induction false} BooksAreExact(max: nat, maxFinished: nat, events: seq<Event>)
    ensures var w := Run(max, maxFinished, events);
            w.registry.tasks == Unfinished(w) + Elements(Kept(w.log, maxFinished)) &&
            forall id, g :: g != 0 ==> (id in Group(w.registry, g) <==> id in Unfinished(w) && w.tasks[id].group == g)
  {
    RunKeeps(max, maxFinished, events);
  }
}
