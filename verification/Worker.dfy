/** The worker as objects: its thread's run loop and idle pass and what `do_io` does to it, on the
    event contexts of `IOManager` and the ordered set of `TimerManager`.  Each method takes one
    step, or one run, of the machine. */
module Workers {
  import opened Wrappers
  import opened DoIo
  import I = IoManager
  import T = Timers

  // ----- What the objects say of the machine

  function EventOf(s: Slot): I.Event { if s.write then I.WRITE else I.READ }

  function Only(s: Slot): I.Events { I.With(I.NONE, EventOf(s)) }

  predicate IsArmed(cs: seq<I.ContextState>, s: Slot) { s.fd < |cs| && I.Has(cs[s.fd].events, EventOf(s)) }

  function SlotIn(c: I.ContextState, s: Slot): I.Slot { if s.write then c.write else c.read }

  /** The armed slots are those of the contexts, each with a fiber and no callback. */
  ghost predicate SlotsMatch(cs: seq<I.ContextState>, slots: map<Slot, Fiber>) {
    && (forall s: Slot :: s in slots <==> IsArmed(cs, s))
    && (forall s <- slots :: IsArmed(cs, s) && SlotIn(cs[s.fd], s).fiber == Some(slots[s]))
    && (forall i :: 0 <= i < |cs| ==> cs[i].read.cb == None && cs[i].write.cb == None)
  }

  /** A callback in the queue has the number of its timer, and captures the timeout. */
  predicate TaskMatches(task: I.Task, closures: map<TimerId, Timeout>, t: Task) {
    match t
    case Resume(f) => task == I.Resume(f)
    case Expire(timer, o) => task == I.Call(timer) && timer in closures && closures[timer] == o
  }

  ghost predicate QueueMatches(tasks: seq<I.Task>, closures: map<TimerId, Timeout>, queue: seq<Task>) {
    |tasks| == |queue| && forall i :: 0 <= i < |queue| ==> TaskMatches(tasks[i], closures, queue[i])
  }

  /** The timers that wait are those of the ordered set, one-shots that have their callbacks. */
  ghost predicate TimersMatch(mgr: T.TimerManager, numbered: map<TimerId, T.Timer>, closures: map<TimerId, Timeout>,
                              timers: map<TimerId, Timeout>)
    reads mgr, mgr.timers
  {
    && (forall t <- timers :: t in numbered && numbered[t] in mgr.timers && numbered[t].cb == Some(t))
    && (forall t <- timers :: t in closures && closures[t] == timers[t])
    && (forall u <- mgr.timers :: !u.recurring && u.cb.Some? && u.cb.value in timers && numbered[u.cb.value] == u)
  }

  /** A timer keeps its number while it has a callback. */
  ghost predicate Numbered(mgr: T.TimerManager, numbered: map<TimerId, T.Timer>, closures: map<TimerId, Timeout>,
                           next: TimerId)
    reads mgr, mgr.made
  {
    && (forall t <- numbered ::
          t < next && numbered[t] in mgr.made && (numbered[t].cb == None || numbered[t].cb == Some(t)))
    && (forall t <- closures :: t < next)
  }

  /** The timers that parked fibers hold. */
  ghost predicate WaitsMatch(waits: map<Fiber, Option<T.Timer>>, numbered: map<TimerId, T.Timer>,
                             parks: map<Fiber, Parked>)
  {
    && waits.Keys == parks.Keys
    && (forall f <- waits :: waits[f].Some? <==> parks[f].timer.Some?)
    && (forall f <- waits :: waits[f].Some? ==>
          parks[f].timer.value in numbered && numbered[parks[f].timer.value] == waits[f].value)
  }

  /** The contexts and the list of tasks are in this state. */
  ghost predicate IoFits(io: I.IOManager, closures: map<TimerId, Timeout>, queue: seq<Task>, slots: map<Slot, Fiber>)
    reads io, io.contexts
  {
    io.Valid() && QueueMatches(io.queue, closures, queue) && SlotsMatch(io.States(), slots)
  }

  /** And the ordered set of timers. */
  ghost predicate SetFits(mgr: T.TimerManager, numbered: map<TimerId, T.Timer>, closures: map<TimerId, Timeout>,
                          next: TimerId, timers: map<TimerId, Timeout>)
    reads mgr, mgr.timers, mgr.made
  {
    mgr.Valid() && TimersMatch(mgr, numbered, closures, timers) && Numbered(mgr, numbered, closures, next)
  }

  // ----- Events let go of

  /** The events of one descriptor triggered, a read before a write. */
  function Fires(w: World, fd: nat, es: I.Events): World {
    var w1 := if es.read then Trigger(w, Slot(fd, false)) else w;
    if es.write then Trigger(w1, Slot(fd, true)) else w1
  }

  lemma FiresOnlySlots(w: World, fd: nat, es: I.Events)
    ensures var w1 := Fires(w, fd, es); w1 == w.(slots := w1.slots, queue := w1.queue, log := w1.log)
    ensures Fires(w, fd, es).slots ==
            w.slots - (if es.read then {Slot(fd, false)} else {}) - (if es.write then {Slot(fd, true)} else {})
  {
  }

  lemma Queued(tasks: seq<I.Task>, closures: map<TimerId, Timeout>, queue: seq<Task>, task: I.Task, t: Task)
    requires QueueMatches(tasks, closures, queue) && TaskMatches(task, closures, t)
    ensures QueueMatches(tasks + [task], closures, queue + [t])
  {
    hide TaskMatches;
  }

  /** An armed slot has its fiber to schedule. */
  lemma SlotsTask(cs: seq<I.ContextState>, slots: map<Slot, Fiber>, s: Slot)
    requires SlotsMatch(cs, slots) && s in slots
    ensures s.fd < |cs| && I.TaskOf(SlotIn(cs[s.fd], s)) == Some(I.Resume(slots[s]))
  {
  }

  lemma FiresQueue(w: World, cs: seq<I.ContextState>, fd: nat, es: I.Events, tasks: seq<I.Task>,
                   closures: map<TimerId, Timeout>)
    requires SlotsMatch(cs, w.slots) && QueueMatches(tasks, closures, w.queue)
    requires fd < |cs| && I.Both(cs[fd].events, es) == es
    ensures QueueMatches(tasks + I.TasksOf(es, cs[fd].read, cs[fd].write), closures, Fires(w, fd, es).queue)
  {
    var c, w1, q1 := cs[fd], w, tasks;
    var r, e := Slot(fd, false), Slot(fd, true);
    if es.read {
      assert r in w.slots;
      SlotsTask(cs, w.slots, r);
      Queued(tasks, closures, w.queue, I.Resume(w.slots[r]), Resume(w.slots[r]));
      w1, q1 := Trigger(w, r), tasks + [I.Resume(w.slots[r])];
    }
    if es.write {
      assert e in w.slots;
      SlotsTask(cs, w.slots, e);
      Queued(q1, closures, w1.queue, I.Resume(w.slots[e]), Resume(w.slots[e]));
      assert tasks + I.TasksOf(es, c.read, c.write) == q1 + [I.Resume(w.slots[e])];
    } else {
      assert tasks + I.TasksOf(es, c.read, c.write) == q1;
    }
    hide SlotsMatch, QueueMatches;
  }

  lemma HandledSlot(c: I.ContextState, es: I.Events, s: Slot)
    ensures I.Has(I.Handled(c, es).events, EventOf(s)) <==> I.Has(c.events, EventOf(s)) && !I.Has(es, EventOf(s))
    ensures SlotIn(I.Handled(c, es), s).fiber == SlotIn(c, s).fiber
    ensures I.Handled(c, es).read.cb == c.read.cb && I.Handled(c, es).write.cb == c.write.cb
  {
  }

  lemma FewerSlots(cs: seq<I.ContextState>, slots: map<Slot, Fiber>, fd: nat, es: I.Events, fewer: map<Slot, Fiber>)
    requires SlotsMatch(cs, slots) && fd < |cs|
    requires forall s :: s in fewer <==> s in slots && !(s.fd == fd && I.Has(es, EventOf(s)))
    requires forall s <- fewer :: s in slots && fewer[s] == slots[s]
    ensures SlotsMatch(cs[fd := I.Handled(cs[fd], es)], fewer)
  {
    forall s: Slot
      ensures I.Has(I.Handled(cs[fd], es).events, EventOf(s)) <==>
              I.Has(cs[fd].events, EventOf(s)) && !I.Has(es, EventOf(s))
      ensures SlotIn(I.Handled(cs[fd], es), s).fiber == SlotIn(cs[fd], s).fiber
    {
      HandledSlot(cs[fd], es, s);
    }
    HandledSlot(cs[fd], es, Slot(fd, false));
    hide I.Handled, I.Has, EventOf, SlotIn;
  }

  lemma FiresSlots(w: World, cs: seq<I.ContextState>, fd: nat, es: I.Events)
    requires SlotsMatch(cs, w.slots) && fd < |cs|
    ensures SlotsMatch(cs[fd := I.Handled(cs[fd], es)], Fires(w, fd, I.Both(cs[fd].events, es)).slots)
  {
    var both := I.Both(cs[fd].events, es);
    FiresOnlySlots(w, fd, both);
    assert forall s: Slot :: s.fd == fd && I.Has(es, EventOf(s)) && s in w.slots ==> I.Has(both, EventOf(s));
    FewerSlots(cs, w.slots, fd, es, Fires(w, fd, both).slots);
    hide Fires, SlotsMatch, I.Handled;
  }

  /** A slot more. */
  lemma ArmedSlots(cs: seq<I.ContextState>, slots: map<Slot, Fiber>, s: Slot, f: Fiber, c: I.ContextState)
    requires SlotsMatch(cs, slots) && s.fd < |cs|
    requires c.events == I.With(cs[s.fd].events, EventOf(s)) && SlotIn(c, s).fiber == Some(f)
    requires c.read.cb == None && c.write.cb == None
    requires if s.write then c.read == cs[s.fd].read else c.write == cs[s.fd].write
    ensures SlotsMatch(cs[s.fd := c], slots[s := f])
  {
  }

  /** Contexts more, with nothing armed. */
  lemma MoreSlots(cs: seq<I.ContextState>, more: seq<I.ContextState>, slots: map<Slot, Fiber>)
    requires SlotsMatch(cs, slots) && cs <= more
    requires forall i :: |cs| <= i < |more| ==> more[i] == I.ContextState(I.NONE, I.EMPTY, I.EMPTY)
    ensures SlotsMatch(more, slots)
  {
  }

  /** One event let go of. */
  lemma OneHandled(c: I.ContextState, s: Slot, c1: I.ContextState)
    requires I.Has(c.events, EventOf(s)) && c1.events == I.Minus(c.events, EventOf(s))
    requires SlotIn(c1, s) == SlotIn(c, s).(scheduler := false)
    requires if s.write then c1.read == c.read else c1.write == c.write
    ensures I.Both(c.events, Only(s)) == Only(s) && c1 == I.Handled(c, Only(s))
    ensures I.TaskOf(SlotIn(c, s)).Some? ==> I.TasksOf(Only(s), c.read, c.write) == [I.TaskOf(SlotIn(c, s)).value]
  {
  }

  lemma FiresOne(w: World, s: Slot)
    ensures Fires(w, s.fd, Only(s)) == Trigger(w, s)
  {
    hide Trigger;
  }

  lemma AllHandled(c: I.ContextState)
    ensures I.Both(c.events, c.events) == c.events && I.Released(c) == I.Handled(c, c.events)
  {
  }

  lemma FiresAll(w: World, cs: seq<I.ContextState>, fd: nat)
    requires SlotsMatch(cs, w.slots)
    ensures var r, e := Slot(fd, false), Slot(fd, true);
      Trigger(Trigger(w, r), e) == if fd < |cs| then Fires(w, fd, cs[fd].events) else w
  {
    var r, e := Slot(fd, false), Slot(fd, true);
    assert r in w.slots <==> IsArmed(cs, r);
    assert e in w.slots <==> IsArmed(cs, e);
  }

  lemma TwoCancels(w: World, a: Slot, b: Slot)
    ensures RunAll(w, [Cancel(a), Cancel(b)]) == Some(Trigger(Trigger(w, a), b))
  {
    var w1, steps := Trigger(w, a), [Cancel(a), Cancel(b)];
    CancelsIs(w, a);
    CancelsIs(w1, b);
    assert steps[1..] == [Cancel(b)] && [Cancel(b)][1..] == [];
    NoSteps(Trigger(w1, b));
    assert RunAll(w1, [Cancel(b)]) == Some(Trigger(w1, b));
    hide Next, Trigger;
  }

  lemma CancelsIs(w: World, s: Slot)
    ensures Next(w, Cancel(s)) == Some(Trigger(w, s))
  {
    hide Trigger;
  }

  lemma SpawnIs(w: World)
    ensures Next(w, Spawn) ==
            Some(w.(fibers := w.fibers + {w.nextFiber}, states := w.states[w.nextFiber := INIT],
                    queue := w.queue + [Resume(w.nextFiber)], nextFiber := w.nextFiber + 1))
  {
  }

  /** The events of a context let go of are fired in the machine. */
  lemma LetGo(w: World, cs: seq<I.ContextState>, fd: nat, es: I.Events, tasks: seq<I.Task>,
              closures: map<TimerId, Timeout>)
    requires SlotsMatch(cs, w.slots) && QueueMatches(tasks, closures, w.queue) && fd < |cs|
    ensures var both := I.Both(cs[fd].events, es);
      && SlotsMatch(cs[fd := I.Handled(cs[fd], es)], Fires(w, fd, both).slots)
      && QueueMatches(tasks + I.TasksOf(both, cs[fd].read, cs[fd].write), closures, Fires(w, fd, both).queue)
    ensures var w1 := Fires(w, fd, I.Both(cs[fd].events, es));
      w1 == w.(slots := w1.slots, queue := w1.queue, log := w1.log)
  {
    FiresSlots(w, cs, fd, es);
    FiresOnlySlots(w, fd, I.Both(cs[fd].events, es));
    FiresQueue(w, cs, fd, I.Both(cs[fd].events, es), tasks, closures);
    hide Fires, SlotsMatch, QueueMatches, I.Handled, I.TasksOf;
  }

  lemma NotArmed(w: World, cs: seq<I.ContextState>, slot: Slot)
    requires SlotsMatch(cs, w.slots)
    ensures slot in w.slots <==> IsArmed(cs, slot)
    ensures !IsArmed(cs, slot) ==> Trigger(w, slot) == w
  {
  }

  lemma FiresNone(w: World, fd: nat)
    ensures Fires(w, fd, I.NONE) == w
  {
  }


  // ----- What is done to contexts

  lemma SlotsAre(c: I.FdContext)
    ensures c.Now() == I.ContextState(c.events, c.SlotOf(I.READ), c.SlotOf(I.WRITE))
  {
  }

  method CancelOne(io: I.IOManager, slot: Slot, epollOk: bool) returns (ok: bool)
    requires io.Valid()
    modifies io, io.contexts
    ensures io.Valid() && io.contexts == old(io.contexts)
    ensures ok <==> epollOk && IsArmed(old(io.States()), slot)
    ensures !ok ==> io.States() == old(io.States()) && io.queue == old(io.queue)
    ensures ok ==> I.Both(old(io.States())[slot.fd].events, Only(slot)) == Only(slot)
    ensures ok ==> io.States() == var cs := old(io.States()); cs[slot.fd := I.Handled(cs[slot.fd], Only(slot))]
    ensures ok ==>
      io.queue == old(io.queue) + var c := old(io.States())[slot.fd]; I.TasksOf(Only(slot), c.read, c.write)
  {
    hide I.IOManager.Valid, I.Handled, I.TasksOf, I.Both, Only, I.FdContext.Now, I.FdContext.SlotOf;
    ghost var cs := io.States();
    io.Distinct();
    if slot.fd < |cs| { SlotsAre(io.contexts[slot.fd]); }
    ok := io.CancelEvent(slot.fd, EventOf(slot), epollOk);
    if ok {
      SlotsAre(io.contexts[slot.fd]);
      OneHandled(cs[slot.fd], slot, io.contexts[slot.fd].Now());
      assert io.States() == cs[slot.fd := io.contexts[slot.fd].Now()];
    } else {
      assert io.States() == cs;
    }
  }

  method CancelBoth(io: I.IOManager, fd: nat) returns (ok: bool)
    requires io.Valid()
    modifies io, io.contexts
    ensures io.Valid() && io.contexts == old(io.contexts)
    ensures !ok ==> io.States() == old(io.States()) && io.queue == old(io.queue)
    ensures !ok && fd < |io.contexts| ==> io.States()[fd].events == I.NONE
    ensures ok ==> fd < |io.contexts| && var es := old(io.States())[fd].events; I.Both(es, es) == es
    ensures ok ==> io.States() == var cs := old(io.States()); cs[fd := I.Handled(cs[fd], cs[fd].events)]
    ensures ok ==>
      io.queue == old(io.queue) + var c := old(io.States())[fd]; I.TasksOf(c.events, c.read, c.write)
  {
    hide I.IOManager.Valid, I.Handled, I.Released, I.TasksOf, I.Both;
    ghost var cs := io.States();
    io.Distinct();
    ok := io.CancelAll(fd, true);
    if ok {
      AllHandled(cs[fd]);
      assert io.States() == cs[fd := io.contexts[fd].Now()];
    } else {
      assert io.States() == cs;
    }
  }


  method CancelIn(io: I.IOManager, slot: Slot, epollOk: bool, ghost closures: map<TimerId, Timeout>, ghost w: World)
    requires IoFits(io, closures, w.queue, w.slots)
    modifies io, io.contexts
    ensures var w1 := if epollOk then Trigger(w, slot) else w; IoFits(io, closures, w1.queue, w1.slots)
    ensures io.contexts == old(io.contexts)
  {
    hide I.IOManager.Valid, QueueMatches, SlotsMatch;
    hide Fires, Trigger, I.Handled, I.TasksOf, I.Both, Only;
    ghost var cs, q := io.States(), io.queue;
    NotArmed(w, cs, slot);
    var ok := CancelOne(io, slot, epollOk);
    if ok {
      LetGo(w, cs, slot.fd, Only(slot), q, closures);
      FiresOne(w, slot);
    }
  }

  method CancelAllIn(io: I.IOManager, fd: nat, ghost closures: map<TimerId, Timeout>, ghost w: World)
    requires IoFits(io, closures, w.queue, w.slots)
    modifies io, io.contexts
    ensures var w1 := Trigger(Trigger(w, Slot(fd, false)), Slot(fd, true)); IoFits(io, closures, w1.queue, w1.slots)
    ensures io.contexts == old(io.contexts)
  {
    hide I.IOManager.Valid, QueueMatches, SlotsMatch;
    hide Fires, Trigger, I.Handled, I.TasksOf, I.Both;
    ghost var cs, q := io.States(), io.queue;
    FiresAll(w, cs, fd);
    var ok := CancelBoth(io, fd);
    if ok {
      LetGo(w, cs, fd, cs[fd].events, q, closures);
    } else if fd < |cs| {
      FiresNone(w, fd);
    }
  }

  /** The idle pass acts on one report. */
  method HandleIn(io: I.IOManager, r: I.Report, ghost closures: map<TimerId, Timeout>, ghost w: World)
    returns (result: I.HandleResult)
    requires IoFits(io, closures, w.queue, w.slots) && r.fd < |io.contexts|
    modifies io, io.contexts
    ensures result == I.Fine <==> !I.Overshoots(r, old(io.States())[r.fd].events)
    ensures result == I.Fine ==>
      io.States() == var cs := old(io.States()); cs[r.fd := I.Handled(cs[r.fd], I.Ready(r))]
    ensures result == I.Fine ==>
      var w1 := Fires(w, r.fd, I.Both(old(io.States())[r.fd].events, I.Ready(r)));
      IoFits(io, closures, w1.queue, w1.slots) && io.contexts == old(io.contexts)
  {
    hide I.IOManager.Valid, QueueMatches, SlotsMatch;
    hide Fires, Trigger, I.Handled, I.TasksOf, I.Both, I.Ready, I.Overshoots;
    ghost var cs, q := io.States(), io.queue;
    io.Distinct();
    LetGo(w, cs, r.fd, I.Ready(r), q, closures);
    SlotsAre(io.contexts[r.fd]);
    result := io.Handle(r);
    if result == I.Fine { assert io.States() == cs[r.fd := io.contexts[r.fd].Now()]; }
  }

  method AddIn(io: I.IOManager, slot: Slot, f: Fiber, epollOk: bool, ghost closures: map<TimerId, Timeout>,
               ghost w: World)
    returns (r: I.AddResult)
    requires IoFits(io, closures, w.queue, w.slots) && (slot.fd >= 2 || slot.fd < |io.contexts|)
    modifies io, io.contexts
    ensures r == if slot in w.slots then I.Aborted else if epollOk then I.Done else I.Failed
    ensures IoFits(io, closures, w.queue, if r == I.Done then w.slots[slot := f] else w.slots)
  {
    hide I.IOManager.Valid, QueueMatches, SlotsMatch;
    ghost var cs, slots := io.States(), w.slots;
    AreArmed(cs, slots, slot);
    ghost var more;
    r, more := AddOne(io, slot, f, epollOk);
    MoreSlots(cs, more, slots);
    if r == I.Done {
      AreArmed(more, slots, slot);
      NoCallbacks(more, slots, slot.fd);
      ArmedSlots(more, slots, slot, f, io.States()[slot.fd]);
    }
  }

  method TakeIn(io: I.IOManager, ghost closures: map<TimerId, Timeout>, ghost w: World) returns (task: I.Task)
    requires IoFits(io, closures, w.queue, w.slots) && io.queue != []
    modifies io`queue
    ensures w.queue != [] && TaskMatches(task, closures, w.queue[0]) && IoFits(io, closures, w.queue[1..], w.slots)
  {
    hide I.IOManager.Valid, QueueMatches, SlotsMatch, TaskMatches;
    QueueHead(io.queue, closures, w.queue);
    task := io.Take();
  }

  method ScheduleIn(io: I.IOManager, task: I.Task, ghost t: Task, ghost closures: map<TimerId, Timeout>, ghost w: World)
    requires IoFits(io, closures, w.queue, w.slots) && TaskMatches(task, closures, t)
    modifies io`queue
    ensures IoFits(io, closures, w.queue + [t], w.slots)
  {
    hide I.IOManager.Valid, QueueMatches, SlotsMatch, TaskMatches;
    Queued(io.queue, closures, w.queue, task, t);
    io.Schedule(task);
  }

  /** Who is at the head of the list is at the head of the machine's queue. */
  lemma QueueHead(tasks: seq<I.Task>, closures: map<TimerId, Timeout>, queue: seq<Task>)
    requires QueueMatches(tasks, closures, queue) && tasks != []
    ensures queue != [] && TaskMatches(tasks[0], closures, queue[0]) && QueueMatches(tasks[1..], closures, queue[1..])
  {
    hide TaskMatches;
  }

  lemma NoTask(io: I.IOManager, closures: map<TimerId, Timeout>, queue: seq<Task>, slots: map<Slot, Fiber>)
    requires IoFits(io, closures, queue, slots)
    ensures io.queue == [] <==> queue == []
  {
  }

  /** What taking the head does. */
  lemma PopTakes(w: World)
    requires w.control == Main && w.queue != []
    ensures var w1 := w.(queue := w.queue[1..]);
      Next(w, Pop) ==
      if w.queue[0].Expire? then Some(RunTimeout(w1, w.queue[0].timer, w.queue[0].timeout))
      else if Resumable(w, w.queue[0].fiber) then Some(RunFiber(w1, w.queue[0].fiber)) else None
  {
    hide RunTimeout, RunFiber, Resumable;
  }

  /** The world of a fiber that has come back from its park. */
  function Returned(w: World, f: Fiber): World {
    if f !in w.parks || f !in w.calls then w
    else
      var timer, cancelled := w.parks[f].timer, w.calls[f].cancelled;
      w.(timers := if timer.Some? then w.timers - {timer.value} else w.timers,
         parks := w.parks - {f},
         calls := if cancelled then w.calls - {f} else w.calls,
         log := w.log + [Back(f, timer, cancelled)])
  }

  lemma RunIsReturn(w: World, f: Fiber)
    ensures var w1 := w.(control := User(f), states := w.states[f := RUNNING]);
      RunFiber(w, f) == if f in w.parks && f in w.calls then Returned(w1, f) else w1
  {
  }

  /** What parking does. */
  lemma ParkTakes(w: World, slot: Slot, withTimer: bool, epollOk: bool)
    requires w.control.User? && w.control.fiber in w.calls
    ensures Next(w, TryPark(slot, withTimer, epollOk)) ==
            if slot in w.slots then None
            else if !epollOk then Some(w.(calls := w.calls - {w.control.fiber}, nextTimer := w.nextTimer + 1))
            else Some(AfterPark(w, w.control.fiber, slot, if withTimer then Some(w.nextTimer) else None))
  {
    hide Trigger, RunTimeout, RunFiber;
  }

  /** The world in which a fiber has made its timer, but no more. */
  function Given(w: World, f: Fiber, slot: Slot, withTimer: bool): World
    requires f in w.calls
  {
    w.(timers := if withTimer then w.timers[w.nextTimer := Timeout(f, w.calls[f].id, slot)] else w.timers,
       nextTimer := w.nextTimer + 1)
  }

  lemma WaitsOf(waits: map<Fiber, Option<T.Timer>>, numbered: map<TimerId, T.Timer>, parks: map<Fiber, Parked>,
                f: Fiber)
    requires WaitsMatch(waits, numbered, parks)
    ensures f in waits <==> f in parks
    ensures f in waits ==> (waits[f].Some? <==> parks[f].timer.Some?)
    ensures f in waits && waits[f].Some? ==>
      parks[f].timer.value in numbered && numbered[parks[f].timer.value] == waits[f].value
  {
    assert f in waits.Keys <==> f in parks.Keys;
  }

  lemma NoLonger(waits: map<Fiber, Option<T.Timer>>, numbered: map<TimerId, T.Timer>, parks: map<Fiber, Parked>,
                 f: Fiber)
    requires WaitsMatch(waits, numbered, parks)
    ensures WaitsMatch(waits - {f}, numbered, parks - {f})
  {
  }

  lemma WaitsStay(waits: map<Fiber, Option<T.Timer>>, numbered: map<TimerId, T.Timer>, parks: map<Fiber, Parked>,
                  t: TimerId, u: T.Timer)
    requires WaitsMatch(waits, numbered, parks) && t !in numbered
    ensures WaitsMatch(waits, numbered[t := u], parks)
  {
  }

  /** A fiber more that waits. */
  lemma WaitsMore(waits: map<Fiber, Option<T.Timer>>, numbered: map<TimerId, T.Timer>, parks: map<Fiber, Parked>,
                  f: Fiber, timer: Option<T.Timer>, slot: Slot, t: Option<TimerId>)
    requires WaitsMatch(waits, numbered, parks) && (timer.Some? <==> t.Some?)
    requires t.Some? ==> t.value in numbered && numbered[t.value] == timer.value
    ensures WaitsMatch(waits[f := timer], numbered, parks[f := Parked(slot, t)])
  {
  }

  // ----- What is done to timers

  /** A callback given a number of its own is not mistaken for another. */
  lemma NewClosure(io: I.IOManager, closures: map<TimerId, Timeout>, queue: seq<Task>, slots: map<Slot, Fiber>,
                   t: TimerId, o: Timeout)
    requires IoFits(io, closures, queue, slots) && t !in closures
    ensures IoFits(io, closures[t := o], queue, slots)
  {
    hide I.IOManager.Valid, SlotsMatch, TaskMatches;
    forall i | 0 <= i < |queue| ensures TaskMatches(io.queue[i], closures[t := o], queue[i]) {
      TaskStays(io.queue[i], closures, queue[i], t, o);
    }
  }

  lemma TaskStays(task: I.Task, closures: map<TimerId, Timeout>, q: Task, t: TimerId, o: Timeout)
    requires TaskMatches(task, closures, q) && t !in closures
    ensures TaskMatches(task, closures[t := o], q)
  {
  }

  lemma NewNumber(mgr: T.TimerManager, numbered: map<TimerId, T.Timer>, closures: map<TimerId, Timeout>,
                  next: TimerId, timers: map<TimerId, Timeout>)
    requires SetFits(mgr, numbered, closures, next, timers)
    ensures next !in numbered && next !in closures && next !in timers
    ensures SetFits(mgr, numbered, closures, next + 1, timers)
    ensures forall t <- numbered :: numbered[t] in mgr.made
  {
    hide T.TimerManager.Valid;
  }

  /** The timers that are due, taken out of the set: their callbacks, and their numbers. */
  method TakeDue(mgr: T.TimerManager, time: nat, probe: nat, ghost numbered: map<TimerId, T.Timer>,
                 ghost closures: map<TimerId, Timeout>, ghost next: TimerId, ghost timers: map<TimerId, Timeout>)
    returns (cbs: seq<Option<T.Callback>>, ghost ids: seq<TimerId>)
    requires SetFits(mgr, numbered, closures, next, timers) && time >= mgr.clock
    modifies mgr, mgr.timers
    ensures SetFits(mgr, numbered, closures, next, timers - (set t <- ids)) && mgr.made == old(mgr.made)
    ensures |cbs| == |ids| && forall i :: 0 <= i < |ids| ==> cbs[i] == Some(ids[i])
    ensures forall i, j :: 0 <= i < j < |ids| ==> ids[i] != ids[j]
    ensures forall t <- ids :: t in timers && t in closures && closures[t] == timers[t]
    ensures forall t :: t in ids <==> t in timers && t in numbered && old(numbered[t].next) <= time
    ensures forall i, j :: 0 <= i < j < |ids| ==>
      ids[i] in numbered && ids[j] in numbered && old(numbered[ids[i]].next) <= old(numbered[ids[j]].next)
  {
    hide T.TimerManager.Valid, TimersMatch;
    mgr.NoneTwice();
    WithCallbacks(mgr, numbered, closures, timers);
    ghost var nums := map u <- mgr.timers :: u.cb.value;
    ghost var expired;
    cbs, expired := mgr.GetExpired(time, probe);
    ids := seq(|cbs|, i requires 0 <= i < |cbs| => nums[expired[i]]);
    Departed(mgr, numbered, closures, timers, nums, expired, ids);
    assert Numbered(mgr, numbered, closures, next);
    assert forall t :: t in ids <==> t in timers && t in numbered && numbered[t] in expired;
  }

  lemma WithCallbacks(mgr: T.TimerManager, numbered: map<TimerId, T.Timer>, closures: map<TimerId, Timeout>,
                      timers: map<TimerId, Timeout>)
    requires TimersMatch(mgr, numbered, closures, timers)
    ensures forall u <- mgr.timers :: !u.recurring && u.cb.Some? && u.cb.value in timers
    ensures forall u <- mgr.timers :: u.cb.value in numbered && numbered[u.cb.value] == u
    ensures forall t <- timers :: t in numbered && numbered[t] in mgr.timers && numbered[t].cb == Some(t)
    ensures forall t <- timers :: t in closures && closures[t] == timers[t]
  {
  }

  /** What the set holds when some of its timers have left it. */
  lemma Departed(mgr: T.TimerManager, numbered: map<TimerId, T.Timer>, closures: map<TimerId, Timeout>,
                 timers: map<TimerId, Timeout>, nums: map<T.Timer, TimerId>, expired: seq<T.Timer>, ids: seq<TimerId>)
    requires forall u <- nums :: nums[u] in timers && nums[u] in numbered && numbered[nums[u]] == u
    requires forall t <- timers :: t in numbered && numbered[t] in nums && nums[numbered[t]] == t
    requires forall t <- timers :: t in closures && closures[t] == timers[t]
    requires forall u <- mgr.timers :: !u.recurring && u in nums && u.cb == Some(nums[u]) && u !in expired
    requires forall u <- nums :: u in mgr.timers || u in expired
    requires |ids| == |expired| && forall i :: 0 <= i < |ids| ==> expired[i] in nums && ids[i] == nums[expired[i]]
    ensures TimersMatch(mgr, numbered, closures, timers - (set t <- ids))
    ensures forall t :: t in ids <==> t in timers && t in numbered && numbered[t] in expired
  {
    forall t | t in timers && t in numbered && numbered[t] in expired ensures t in ids {
      var i :| 0 <= i < |expired| && expired[i] == numbered[t];
      assert ids[i] == t;
    }
  }


  method CancelTimer(mgr: T.TimerManager, u: T.Timer, ghost t: TimerId, ghost numbered: map<TimerId, T.Timer>,
                     ghost closures: map<TimerId, Timeout>, ghost next: TimerId, ghost timers: map<TimerId, Timeout>)
    requires SetFits(mgr, numbered, closures, next, timers) && t in numbered && numbered[t] == u
    modifies mgr, mgr.made
    ensures SetFits(mgr, numbered, closures, next, timers - {t})
    ensures mgr.made == old(mgr.made) && mgr.clock == old(mgr.clock)
  {
    hide T.TimerManager.Valid;
    var ok := mgr.Cancel(u);
  }

  /** A timer more in the set, which is alone with its number. */
  method MakeTimer(mgr: T.TimerManager, ms: nat, t: TimerId, time: nat, addr: nat, ghost o: Timeout,
                   ghost numbered: map<TimerId, T.Timer>, ghost closures: map<TimerId, Timeout>,
                   ghost timers: map<TimerId, Timeout>)
    returns (u: T.Timer)
    requires SetFits(mgr, numbered, closures, t, timers)
    requires time >= mgr.clock && forall v <- mgr.timers :: v.addr != addr
    modifies mgr
    ensures fresh(u) && mgr.made == old(mgr.made) + {u}
    ensures u.ms == ms && u.next == (time + ms) % TWO_64
    ensures SetFits(mgr, numbered[t := u], closures[t := o], t + 1, timers[t := o])
  {
    hide T.TimerManager.Valid;
    NewNumber(mgr, numbered, closures, t, timers);
    var front;
    u, front := mgr.AddTimer(ms, t, false, time, addr);
  }

  lemma AreArmed(cs: seq<I.ContextState>, slots: map<Slot, Fiber>, slot: Slot)
    requires SlotsMatch(cs, slots)
    ensures slot in slots <==> IsArmed(cs, slot)
  {
  }

  lemma NoCallbacks(cs: seq<I.ContextState>, slots: map<Slot, Fiber>, fd: nat)
    requires SlotsMatch(cs, slots) && fd < |cs|
    ensures cs[fd].read.cb == None && cs[fd].write.cb == None
  {
  }

  /** The contexts made longer, and one of them changed. */
  method AddOne(io: I.IOManager, slot: Slot, f: Fiber, epollOk: bool)
    returns (r: I.AddResult, ghost more: seq<I.ContextState>)
    requires io.Valid() && (slot.fd >= 2 || slot.fd < |io.contexts|)
    modifies io, io.contexts
    ensures r == if IsArmed(old(io.States()), slot) then I.Aborted else if epollOk then I.Done else I.Failed
    ensures io.Valid() && io.queue == old(io.queue)
    ensures old(io.States()) <= more
    ensures forall i :: |old(io.contexts)| <= i < |more| ==> more[i] == I.ContextState(I.NONE, I.EMPTY, I.EMPTY)
    ensures r != I.Done ==> io.States() == more
    ensures r == I.Done ==> slot.fd < |more| && |io.States()| == |more|
    ensures r == I.Done ==> var c := io.States()[slot.fd];
      && io.States() == more[slot.fd := c]
      && c.events == I.With(more[slot.fd].events, EventOf(slot))
      && SlotIn(c, slot) == I.Armed(SlotIn(more[slot.fd], slot), None, f)
      && (if slot.write then c.read == more[slot.fd].read else c.write == more[slot.fd].write)
  {
    hide I.IOManager.Valid;
    ghost var cs := io.States();
    io.Distinct();
    r := io.AddEvent(slot.fd, EventOf(slot), None, f, epollOk);
    io.Distinct();
    more := io.States();
    if r == I.Done {
      ghost var was := if slot.fd < |cs| then cs[slot.fd] else I.ContextState(I.NONE, I.EMPTY, I.EMPTY);
      SlotsAre(io.contexts[slot.fd]);
      more := more[slot.fd := was];
    }
  }


  class Worker {
    /** Which fiber of the thread is running, or how far its idle pass is. */
    var control: Control
    /** The contexts of descriptors, with the list of tasks. */
    const io: I.IOManager
    /** The ordered set of timers. */
    const mgr: T.TimerManager
    /** m_state of every fiber. */
    var states: map<Fiber, FiberState>
    /** The `TimeInfo` of every `do_io` on a fiber's stack. */
    var calls: map<Fiber, Call>
    /** The timer every `do_io` holds that waits in its yield, if it made one. */
    var waits: map<Fiber, Option<T.Timer>>
    /** What the callbacks capture that were given to timers. */
    var closures: map<TimerId, Timeout>
    var nextFiber: Fiber
    var nextCall: nat
    var nextTimer: TimerId
    ghost var numbered: map<TimerId, T.Timer>
    ghost var now: World

    ghost predicate Matches()
      reads this
    {
      && now.control == control && now.states == states && now.calls == calls
      && now.nextFiber == nextFiber && now.nextCall == nextCall && now.nextTimer == nextTimer
    }

    /** The objects are in the state `now`. */
    ghost predicate Valid()
      reads this, io, io.contexts, mgr, mgr.timers, mgr.made
    {
      && Matches() && IoFits(io, closures, now.queue, now.slots)
      && SetFits(mgr, numbered, closures, nextTimer, now.timers) && WaitsMatch(waits, numbered, now.parks)
    }

    constructor ()
      ensures Valid() && now == START && fresh(io) && fresh(mgr)
    {
      hide I.IOManager.Valid, T.TimerManager.Valid;
      control, states, calls, waits, closures := Main, map[], map[], map[], map[];
      nextFiber, nextCall, nextTimer := 0, 0, 0;
      io := new I.IOManager();
      mgr := new T.TimerManager();
      numbered, now := map[], START;
    }

    /** `Scheduler::schedule` of a function: a fiber for it goes to the end of the list. */
    method Schedule()
      requires Valid()
      modifies this`states, this`nextFiber, this`now, io`queue
      ensures Valid() && Next(old(now), Spawn) == Some(now)
    {
      hide IoFits, SetFits, WaitsMatch;
      hide Next;
      SpawnIs(now);
      ScheduleIn(io, I.Resume(nextFiber), Resume(nextFiber), closures, now);
      states, nextFiber := states[nextFiber := INIT], nextFiber + 1;
      now := Next(now, Spawn).value;
    }

    /** `cancelEvent`, unless the kernel refuses. */
    method CancelEvent(slot: Slot, epollOk: bool)
      requires Valid()
      modifies io, io.contexts, this`now
      ensures Valid() && now == (if epollOk then Trigger(old(now), slot) else old(now))
    {
      hide IoFits, SetFits, WaitsMatch;
      CancelIn(io, slot, epollOk, closures, now);
      if epollOk { now := Trigger(now, slot); }
    }

    /** `cancelAll`, as the hooked `close` calls it. */
    method CancelAll(fd: nat)
      requires Valid()
      modifies io, io.contexts, this`now
      ensures Valid() && RunAll(old(now), [Cancel(Slot(fd, false)), Cancel(Slot(fd, true))]) == Some(now)
    {
      hide IoFits, SetFits, WaitsMatch;
      hide RunAll;
      TwoCancels(now, Slot(fd, false), Slot(fd, true));
      CancelAllIn(io, fd, closures, now);
      now := Trigger(Trigger(now, Slot(fd, false)), Slot(fd, true));
    }

    /** One turn of `Scheduler::run` that finds a task. */
    method RunTask() returns (ok: bool)
      requires Valid() && control == Main && io.queue != []
      modifies this, io, io.contexts, mgr, mgr.made
      ensures Took(old(now), Pop, ok, now) && (ok ==> Valid())
      ensures old(Sound(now)) ==> ok
    {
      hide IoFits, SetFits, WaitsMatch;
      hide RunFiber, RunTimeout, Trigger, Next, Sound;
      ghost var w := now;
      var task := TakeIn(io, closures, w);
      PopTakes(w);
      now := now.(queue := now.queue[1..]);
      match task {
        case Resume(f) =>
          if Sound(w) { PoppedSound(w, f); }
          if f !in states || states[f] == TERM || states[f] == RUNNING { return false; }
          ResumeFiber(f);
        case Call(cb) =>
          TimedOut(cb);
      }
      return true;
    }

    /** `Fiber::resume`: in `do_io`, behind its yield, the timer is cancelled, and a timeout ends
        the call. */
    method ResumeFiber(f: Fiber)
      requires Valid()
      modifies this`control, this`states, this`waits, this`calls, this`now, mgr, mgr.made
      ensures Valid() && now == RunFiber(old(now), f)
    {
      hide IoFits, SetFits, WaitsMatch;
      hide Returned, RunFiber;
      ghost var w := now;
      control, states := User(f), states[f := RUNNING];
      now := w.(control := control, states := states);
      WaitsOf(waits, numbered, now.parks, f);
      RunIsReturn(w, f);
      if f in waits && f in calls { ReturnFromPark(f); }
    }

    /** `do_io` behind its yield. */
    method ReturnFromPark(f: Fiber)
      requires Valid() && f in waits && f in calls
      modifies this`waits, this`calls, this`now, mgr, mgr.made
      ensures Valid() && now == Returned(old(now), f)
    {
      hide IoFits, SetFits, WaitsMatch;
      ghost var w := now;
      WaitsOf(waits, numbered, now.parks, f);
      Drop(waits[f], if waits[f].Some? then w.parks[f].timer.value else 0);
      Unpark(f, now.parks[f].timer);
    }

    /** The call goes on, or ends if it has timed out. */
    method Unpark(f: Fiber, ghost timer: Option<TimerId>)
      requires Valid() && f in waits && f in calls
      modifies this`waits, this`calls, this`now
      ensures Valid()
      ensures var w := old(now);
        now == w.(parks := w.parks - {f}, calls := if w.calls[f].cancelled then w.calls - {f} else w.calls,
                  log := w.log + [Back(f, timer, w.calls[f].cancelled)])
    {
      hide IoFits, SetFits, WaitsMatch;
      ghost var w := now;
      if calls[f].cancelled { calls := calls - {f}; }
      NoLonger(waits, numbered, now.parks, f);
      waits := waits - {f};
      now := w.(parks := w.parks - {f}, calls := calls, log := w.log + [Back(f, timer, w.calls[f].cancelled)]);
    }

    /** The callback `do_io` gives its timer. */
    method TimedOut(t: TimerId)
      requires Valid() && t in closures
      modifies this`calls, this`now, io, io.contexts
      ensures Valid() && now == RunTimeout(old(now), t, closures[t])
    {
      hide IoFits, SetFits, WaitsMatch;
      hide Trigger;
      var o := closures[t];
      if o.owner in calls && calls[o.owner].id == o.call && !calls[o.owner].cancelled {
        calls := calls[o.owner := Call(o.call, true)];
        now := now.(calls := calls, log := now.log + [Ran(o.owner, t)]);
        CancelEvent(o.slot, true);
      }
    }

    /** `do_io` is called. */
    method BeginDoIo()
      requires Valid() && control.User? && control.fiber !in calls
      modifies this`calls, this`nextCall, this`now
      ensures Valid() && Next(old(now), BeginCall) == Some(now)
    {
      hide IoFits, SetFits, WaitsMatch;
      calls, nextCall := calls[control.fiber := Call(nextCall, false)], nextCall + 1;
      now := now.(calls := calls, nextCall := nextCall);
    }

    /** `do_io` returns what the system call returned. */
    method EndDoIo()
      requires Valid() && control.User? && control.fiber in calls
      modifies this`calls, this`now
      ensures Valid() && Next(old(now), EndCall) == Some(now)
    {
      hide IoFits, SetFits, WaitsMatch;
      calls := calls - {control.fiber};
      now := now.(calls := calls);
    }

    /** `do_io` where the system call would block: the timer, the event, and the yield; without the
        event the timer is cancelled again, and the call fails.  The timer is due when the time
        allowed for the call is over. */
    method ParkOn(slot: Slot, ms: Option<nat>, time: nat, addr: nat, epollOk: bool) returns (ok: bool)
      requires Valid() && control.User? && control.fiber in calls
      requires slot.fd >= 2 || slot.fd < |io.contexts|
      requires time >= mgr.clock && forall u <- mgr.timers :: u.addr != addr
      modifies this, io, io.contexts, mgr, mgr.made
      ensures Took(old(now), TryPark(slot, ms.Some?, epollOk), ok, now) && (ok ==> Valid())
      ensures ok && epollOk && ms.Some? ==>
        var t := old(nextTimer);
        t in numbered && numbered[t].ms == ms.value && numbered[t].next == (time + ms.value) % TWO_64
    {
      hide IoFits, SetFits, WaitsMatch;
      hide Next;
      ghost var w := now;
      ParkTakes(w, slot, ms.Some?, epollOk);
      var timer := GiveTimer(slot, ms, time, addr);
      var r := AddIn(io, slot, control.fiber, epollOk, closures, now);
      if r == I.Aborted { return false; }
      if r == I.Failed {
        GiveUp(timer, w.nextTimer);
        assert now.timers == w.timers;
      } else {
        now := now.(slots := now.slots[slot := control.fiber]);
        Yield(slot, timer, if ms.Some? then Some(w.nextTimer) else None);
      }
      return true;
    }

    /** The call fails. */
    method GiveUp(timer: Option<T.Timer>, ghost t: TimerId)
      requires Valid() && control.User? && control.fiber in calls
      requires timer.Some? ==> t in numbered && numbered[t] == timer.value
      modifies this`calls, this`now, mgr, mgr.made
      ensures Valid()
      ensures now == old(now).(calls := old(calls) - {control.fiber},
                               timers := if timer.Some? then old(now.timers) - {t} else old(now.timers))
    {
      hide IoFits, SetFits, WaitsMatch;
      Drop(timer, t);
      calls := calls - {control.fiber};
      now := now.(calls := calls);
    }

    /** `Timer::cancel`, if there is a timer. */
    method Drop(timer: Option<T.Timer>, ghost t: TimerId)
      requires Valid() && (timer.Some? ==> t in numbered && numbered[t] == timer.value)
      modifies this`now, mgr, mgr.made
      ensures Valid() && now == old(now).(timers := if timer.Some? then old(now.timers) - {t} else old(now.timers))
    {
      hide IoFits, SetFits, WaitsMatch;
      if timer.Some? {
        CancelTimer(mgr, timer.value, t, numbered, closures, nextTimer, now.timers);
        now := now.(timers := now.timers - {t});
      }
    }

    /** The running fiber yields. */
    method Yield(slot: Slot, timer: Option<T.Timer>, ghost t: Option<TimerId>)
      requires Valid() && control.User? && timer.Some? == t.Some?
      requires timer.Some? ==> t.value in numbered && numbered[t.value] == timer.value
      modifies this`control, this`states, this`waits, this`now
      ensures Valid()
      ensures var f := old(control.fiber);
        now == old(now).(control := Main, states := old(states)[f := READY],
                         parks := old(now.parks)[f := Parked(slot, t)], log := old(now.log) + [Park(f, t)])
    {
      hide IoFits, SetFits, WaitsMatch;
      var f := control.fiber;
      WaitsMore(waits, numbered, now.parks, f, timer, slot, t);
      waits, control, states := waits[f := timer], Main, states[f := READY];
      now := now.(control := Main, states := states,
                  parks := now.parks[f := Parked(slot, t)], log := now.log + [Park(f, t)]);
    }

    /** The timer of a park, if it has a timeout. */
    method GiveTimer(slot: Slot, ms: Option<nat>, time: nat, addr: nat) returns (timer: Option<T.Timer>)
      requires Valid() && control.User? && control.fiber in calls
      requires time >= mgr.clock && forall u <- mgr.timers :: u.addr != addr
      modifies this`closures, this`numbered, this`nextTimer, this`now, mgr
      ensures Valid() && now == Given(old(now), control.fiber, slot, ms.Some?)
      ensures timer.Some? == ms.Some? && (forall u <- mgr.made :: u in old(mgr.made) || fresh(u))
      ensures timer.Some? ==>
        fresh(timer.value) && old(nextTimer) in numbered && numbered[old(nextTimer)] == timer.value
      ensures timer.Some? ==> timer.value.ms == ms.value && timer.value.next == (time + ms.value) % TWO_64
      ensures timer.Some? ==> old(nextTimer) !in old(now.timers)
    {
      hide *;
      if ms.Some? {
        var u := ArmTimer(slot, ms.value, time, addr);
        timer := Some(u);
      } else {
        NoTimer(slot);
        timer := None;
      }
    }

    /** A park without a timeout. */
    method NoTimer(slot: Slot)
      requires Valid() && control.User? && control.fiber in calls
      modifies this`nextTimer, this`now
      ensures Valid() && now == Given(old(now), control.fiber, slot, false)
    {
      hide IoFits, SetFits, WaitsMatch;
      NewNumber(mgr, numbered, closures, nextTimer, now.timers);
      nextTimer := nextTimer + 1;
      now := now.(nextTimer := nextTimer);
    }

    /** The timer of a park that has one. */
    method ArmTimer(slot: Slot, ms: nat, time: nat, addr: nat) returns (u: T.Timer)
      requires Valid() && control.User? && control.fiber in calls
      requires time >= mgr.clock && forall v <- mgr.timers :: v.addr != addr
      modifies this`closures, this`numbered, this`nextTimer, this`now, mgr
      ensures Valid() && now == Given(old(now), control.fiber, slot, true)
      ensures fresh(u) && forall v <- mgr.made :: v in old(mgr.made) || fresh(v)
      ensures old(nextTimer) in numbered && numbered[old(nextTimer)] == u && old(nextTimer) !in old(now.timers)
      ensures u.ms == ms && u.next == (time + ms) % TWO_64
    {
      hide IoFits, SetFits, WaitsMatch;
      var t, o := nextTimer, Timeout(control.fiber, calls[control.fiber].id, slot);
      NewNumber(mgr, numbered, closures, t, now.timers);
      NewClosure(io, closures, now.queue, now.slots, t, o);
      u := MakeTimer(mgr, ms, t, time, addr, o, numbered, closures, now.timers);
      WaitsStay(waits, numbered, now.parks, t, u);
      closures, numbered, nextTimer := closures[t := o], numbered[t := u], t + 1;
      now := now.(timers := now.timers[t := o], nextTimer := nextTimer);
    }

    /** `Fiber::mainFunc` behind the fiber's function. */
    method EndFiber()
      requires Valid() && control.User? && control.fiber !in calls
      modifies this`control, this`states, this`now
      ensures Valid() && Next(old(now), Finish) == Some(now)
    {
      hide IoFits, SetFits, WaitsMatch;
      hide Trigger, RunFiber, RunTimeout;
      states := states[control.fiber := TERM];
      now := now.(control := Main, fibers := now.fibers - {control.fiber}, states := states);
      control := Main;
    }

    /** One turn of `Scheduler::run` that finds no task. */
    method BeginIdle()
      requires Valid() && control == Main && io.queue == []
      modifies this`control, this`now
      ensures Valid() && Next(old(now), IdleStart) == Some(now)
    {
      hide IoFits, SetFits, WaitsMatch;
      NoTask(io, closures, now.queue, now.slots);
      Turn(Expiring);
    }

    /** `Scheduler::schedule` of the callback of an expired timer. */
    method ScheduleCallback(cb: T.Callback)
      requires Matches() && IoFits(io, closures, now.queue, now.slots)
      requires cb in now.timers && cb in closures && closures[cb] == now.timers[cb]
      modifies this`now, io`queue
      ensures Matches() && IoFits(io, closures, now.queue, now.slots) && now == Expired(old(now), cb)
    {
      hide IoFits;
      ScheduleIn(io, I.Call(cb), Expire(cb, now.timers[cb]), closures, now);
      now := Expired(now, cb);
    }

    /** The idle pass schedules the callbacks of the timers that are due, in the order of their
        times. */
    method ExpireTimers(time: nat, probe: nat) returns (ghost ids: seq<TimerId>)
      requires Valid() && control == Expiring && time >= mgr.clock
      modifies this`now, io`queue, mgr, mgr.timers
      ensures Valid() && RunAll(old(now), ExpireSteps(ids)) == Some(now)
      ensures forall t :: t in ids <==> t in old(now.timers) && t in old(numbered) && old(numbered[t].next) <= time
      ensures forall i, j :: 0 <= i < j < |ids| ==>
        ids[i] in old(numbered) && ids[j] in old(numbered) && old(numbered[ids[i]].next) <= old(numbered[ids[j]].next)
    {
      hide IoFits, SetFits, WaitsMatch;
      hide RunAll, ExpireSteps, Left, Expired;
      ghost var start := now;
      var cbs;
      cbs, ids := TakeDue(mgr, time, probe, numbered, closures, nextTimer, now.timers);
      NoExpireSteps(start);
      assert ids[..0] == [];
      NoneLeft(start.timers);
      for i := 0 to |cbs|
        modifies this`now, io`queue
        invariant RunAll(start, ExpireSteps(ids[..i])) == Some(now)
        invariant Matches() && IoFits(io, closures, now.queue, now.slots) && now.parks == start.parks
        invariant Left(start.timers, now.timers, ids[..i])
      {
        ghost var w, t := now, ids[i];
        assert t in ids;
        assert ids[..i + 1] == ids[..i] + [t];
        StillLeft(start.timers, now.timers, ids, i);
        ExpiredIs(w, t);
        ScheduleCallback(cbs[i].value);
        OneExpireMore(start, ids[..i], w, t);
      }
      assert ids[..|ids|] == ids;
      AllLeft(start.timers, now.timers, ids);
    }

    /** The events of one report. */
    method FireReport(r: I.Report) returns (result: I.HandleResult)
      requires Valid() && r.fd < |io.contexts|
      modifies this`now, io, io.contexts
      ensures result == I.Fine <==> !I.Overshoots(r, old(io.States())[r.fd].events)
      ensures result == I.Fine ==>
        && Valid() && io.contexts == old(io.contexts)
        && io.States() == (var cs := old(io.States()); cs[r.fd := I.Handled(cs[r.fd], I.Ready(r))])
        && now == Fires(old(now), r.fd, I.Both(old(io.States())[r.fd].events, I.Ready(r)))
        && WokenBy(old(now), now, [r])
    {
      hide IoFits, SetFits, WaitsMatch;
      hide Fires, I.Overshoots, I.Both, I.Ready, I.Handled, WokenBy;
      ReportWakes(io, closures, now, r);
      ghost var es := I.Both(io.States()[r.fd].events, I.Ready(r));
      result := HandleIn(io, r, closures, now);
      if result == I.Fine {
        FiresKeeps(now, r.fd, es);
        now := Fires(now, r.fd, es);
      }
    }

    /** It then fires the events that are ready, and yields; all goes well exactly when no report
        overshoots. */
    method FireEvents(reports: seq<I.Report>) returns (result: I.HandleResult)
      requires Valid() && control == Expiring && forall r <- reports :: r.fd < |io.contexts|
      requires forall i, j :: 0 <= i < j < |reports| ==> reports[i].fd != reports[j].fd
      modifies this`control, this`now, io, io.contexts
      ensures result == I.Fine <==> forall r <- reports :: !I.Overshoots(r, old(io.States())[r.fd].events)
      ensures result == I.Fine ==>
        && Valid()
        && RunAll(old(now), [StartFiring] + FireSteps(old(io.States()), reports) + [IdleEnd]) == Some(now)
        && WokenBy(old(now), now, reports)
    {
      hide *;
      NoneYet(io.States(), reports);
      ghost var start, cs := now, io.States();
      Parts();
      StartsFiring(start, cs);
      NobodyWoken(start, Firing);
      Turn(Firing);
      I.NoReports(cs);
      assert reports[..0] == [];
      for k := 0 to |reports|
        modifies this`now, io, io.contexts
        invariant Valid() && now.control == Firing && io.contexts == old(io.contexts)
        invariant io.States() == I.HandledAll(cs, reports[..k])
        invariant RunAll(start, [StartFiring] + FireSteps(cs, reports[..k])) == Some(now)
        invariant NoneOvershoots(cs, reports, k) && WokenBy(start, now, reports[..k])
      {
        var r := reports[k];
        ghost var w := now;
        Parts();
        NextReport(io, closures, start, cs, reports, k, now);
        OvershootsOr(cs, reports, k);
        result := FireReport(r);
        if result != I.Fine { return; }
        assert reports[..k + 1] == reports[..k] + [r];
        WokenThen(start, w, now, reports[..k], r);
      }
      assert reports[..|reports|] == reports;
      WokenStay(start, now, reports);
      EndsFiring(start, [StartFiring] + FireSteps(cs, reports), now);
      Turn(Main);
      return I.Fine;
    }

    lemma Parts()
      requires Valid()
      ensures Matches() && IoFits(io, closures, now.queue, now.slots) && now.control == control
    {
      hide IoFits;
    }

    /** The idle pass goes on. */
    method Turn(control: Control)
      requires Valid()
      modifies this`control, this`now
      ensures Valid() && now == old(now).(control := control)
    {
      hide IoFits, SetFits, WaitsMatch;
      this.control, now := control, now.(control := control);
    }

    /** The hooked `sleep` as written, up to where it arms its timer: it yields first. */
    method YieldInSleep() returns (f: Fiber)
      requires Valid() && Sound(now) && control.User?
      modifies this`control, this`states, this`now
      ensures Valid() && f == old(control.fiber) && Lost(now, f)
    {
      hide IoFits, SetFits, WaitsMatch;
      hide Sound;
      f := control.fiber;
      RunningIsNowhereElse(now, f);
      control, states := Main, states[f := READY];
      now := now.(control := Main, states := states);
    }
  }

  lemma RunningIsNowhereElse(w: World, f: Fiber)
    requires Sound(w) && w.control == User(f)
    ensures Resume(f) !in w.queue && (forall s <- w.slots :: w.slots[s] != f) && f < w.nextFiber
  {
    assert Places(w, f) == 1;
    assert forall s <- w.slots :: InSlot(w, w.slots[s]);
  }

  /** Nothing will resume this fiber. */
  ghost predicate Lost(w: World, f: Fiber) {
    Resume(f) !in w.queue && (forall s <- w.slots :: w.slots[s] != f) && w.control != User(f) && f < w.nextFiber
  }

  lemma LostStays(w: World, step: Step, w1: World, f: Fiber)
    requires Lost(w, f) && Next(w, step) == Some(w1)
    ensures Lost(w1, f)
  {
    if step == Pop { LostPop(w, w1, f); }
    hide RunFiber, RunTimeout;
  }

  lemma LostPop(w: World, w1: World, f: Fiber)
    requires Lost(w, f) && Next(w, Pop) == Some(w1)
    ensures Lost(w1, f)
  {
    assert forall t <- w.queue[1..] :: t in w.queue;
    assert w.queue[0] in w.queue;
  }

  /** A fiber that sleeps the hooked way is never resumed, so never gets to arm the timer that
      would resume it. */
  lemma {:induction false} SleeperIsLost(w: World, steps: seq<Step>, f: Fiber)
    requires Lost(w, f)
    ensures RunAll(w, steps).Some? ==> Lost(RunAll(w, steps).value, f)
    decreases |steps|
  {
    hide Lost, Next;
    if steps != [] {
      match Next(w, steps[0])
      case None =>
      case Some(w1) =>
        LostStays(w, steps[0], w1, f);
        SleeperIsLost(w1, steps[1..], f);
    }
  }

  /** The step was taken, or could not be. */
  ghost predicate Took(w: World, step: Step, ok: bool, w1: World) {
    Next(w, step) == if ok then Some(w1) else None
  }

  ghost function ExpireSteps(expired: seq<TimerId>): seq<Step> {
    if expired == [] then [] else ExpireSteps(expired[..|expired| - 1]) + [ExpireOne(expired[|expired| - 1])]
  }

  lemma ExpiredIs(w: World, t: TimerId)
    requires t in w.timers
    ensures Expired(w, t).timers == w.timers - {t} && Expired(w, t).parks == w.parks
  {
  }

  /** The timers but for those that have expired. */
  ghost predicate Left(timers: map<TimerId, Timeout>, timers1: map<TimerId, Timeout>, ids: seq<TimerId>) {
    timers1 == timers - (set t <- ids)
  }

  lemma NoneLeft(timers: map<TimerId, Timeout>)
    ensures Left(timers, timers, [])
  {
  }

  lemma AllLeft(timers: map<TimerId, Timeout>, timers1: map<TimerId, Timeout>, ids: seq<TimerId>)
    requires Left(timers, timers1, ids)
    ensures timers1 == timers - (set t <- ids)
  {
  }

  lemma StillLeft(timers: map<TimerId, Timeout>, timers1: map<TimerId, Timeout>, ids: seq<TimerId>, i: nat)
    requires i < |ids| && Left(timers, timers1, ids[..i]) && ids[i] in timers
    requires forall j, k :: 0 <= j < k < |ids| ==> ids[j] != ids[k]
    ensures ids[i] in timers1 && timers1[ids[i]] == timers[ids[i]]
    ensures Left(timers, timers1 - {ids[i]}, ids[..i] + [ids[i]])
  {
  }

  /** The first reports of a pass are within what is armed. */
  ghost predicate NoneOvershoots(cs: seq<I.ContextState>, reports: seq<I.Report>, k: nat)
    requires k <= |reports| && forall r <- reports :: r.fd < |cs|
  {
    forall i :: 0 <= i < k ==> !I.Overshoots(reports[i], cs[reports[i].fd].events)
  }

  lemma NoneYet(cs: seq<I.ContextState>, reports: seq<I.Report>)
    requires forall r <- reports :: r.fd < |cs|
    ensures NoneOvershoots(cs, reports, 0)
    ensures NoneOvershoots(cs, reports, |reports|) <==> forall r <- reports :: !I.Overshoots(r, cs[r.fd].events)
  {
    hide I.Overshoots;
    if NoneOvershoots(cs, reports, |reports|) {
      forall r <- reports ensures !I.Overshoots(r, cs[r.fd].events) {
        var i :| 0 <= i < |reports| && reports[i] == r;
      }
    }
  }

  lemma OvershootsOr(cs: seq<I.ContextState>, reports: seq<I.Report>, k: nat)
    requires k < |reports| && (forall r <- reports :: r.fd < |cs|) && NoneOvershoots(cs, reports, k)
    ensures NoneOvershoots(cs, reports, k + 1) <==> !I.Overshoots(reports[k], cs[reports[k].fd].events)
    ensures I.Overshoots(reports[k], cs[reports[k].fd].events) ==>
      !forall r <- reports :: !I.Overshoots(r, cs[r.fd].events)
  {
    hide I.Overshoots;
    assert reports[k] in reports;
  }

  /** Whether a report is of what is waited for in a slot. */
  predicate Names(r: I.Report, s: Slot) {
    r.fd == s.fd && (r.errorOrHangup || if s.write then r.output else r.input)
  }

  /** Exactly those are woken, and queued, for whose slots there is a report. */
  ghost predicate WokenBy(w: World, w1: World, reports: seq<I.Report>) {
    && (forall s :: s in w1.slots <==> s in w.slots && forall r <- reports :: !Names(r, s))
    && (forall s <- w1.slots :: s in w.slots && w1.slots[s] == w.slots[s])
    && (forall s <- w.slots :: s !in w1.slots ==> Resume(w.slots[s]) in w1.queue)
    && w.queue <= w1.queue
  }

  lemma NobodyWoken(w: World, control: Control)
    ensures WokenBy(w, w.(control := control), [])
  {
  }

  lemma WokenStay(w: World, w1: World, reports: seq<I.Report>)
    requires WokenBy(w, w1, reports)
    ensures WokenBy(w, w1.(control := Main), reports)
  {
    hide Names;
  }

  lemma WokenThen(w: World, w1: World, w2: World, reports: seq<I.Report>, r: I.Report)
    requires WokenBy(w, w1, reports) && WokenBy(w1, w2, [r])
    ensures WokenBy(w, w2, reports + [r])
  {
    hide Names;
    forall s ensures s in w2.slots <==> s in w.slots && forall q <- reports + [r] :: !Names(q, s) {
      assert r in [r] && r in reports + [r] && forall q <- reports :: q in reports + [r];
    }
    forall s <- w.slots | s !in w2.slots ensures Resume(w.slots[s]) in w2.queue {
      if s !in w1.slots {
        var i :| 0 <= i < |w1.queue| && w1.queue[i] == Resume(w.slots[s]);
        assert w2.queue[i] == w1.queue[i];
      }
    }
  }

  lemma ReportWakes(io: I.IOManager, closures: map<TimerId, Timeout>, w: World, r: I.Report)
    requires IoFits(io, closures, w.queue, w.slots) && r.fd < |io.States()|
    ensures WokenBy(w, Fires(w, r.fd, I.Both(io.States()[r.fd].events, I.Ready(r))), [r])
  {
    hide QueueMatches, I.IOManager.Valid, Fires;
    var c := io.States()[r.fd];
    var es := I.Both(c.events, I.Ready(r));
    assert Slot(r.fd, false) in w.slots <==> IsArmed(io.States(), Slot(r.fd, false));
    assert Slot(r.fd, true) in w.slots <==> IsArmed(io.States(), Slot(r.fd, true));
    FiresOnlySlots(w, r.fd, es);
    FiresQueues(w, r.fd, es);
    assert r in [r];
  }

  lemma FiresQueues(w: World, fd: nat, es: I.Events)
    requires (es.read ==> Slot(fd, false) in w.slots) && (es.write ==> Slot(fd, true) in w.slots)
    ensures w.queue <= Fires(w, fd, es).queue
    ensures es.read ==> Resume(w.slots[Slot(fd, false)]) in Fires(w, fd, es).queue
    ensures es.write ==> Resume(w.slots[Slot(fd, true)]) in Fires(w, fd, es).queue
  {
    if es.read {
      var w1 := Trigger(w, Slot(fd, false));
      assert w1.queue[|w.queue|] == Resume(w.slots[Slot(fd, false)]);
      if es.write { assert Fires(w, fd, es).queue[|w.queue|] == w1.queue[|w.queue|]; }
    }
    if es.write {
      var q := Fires(w, fd, es).queue;
      assert q[|q| - 1] == Resume(w.slots[Slot(fd, true)]);
    }
  }

  lemma NoExpireSteps(w: World)
    ensures RunAll(w, ExpireSteps([])) == Some(w)
  {
  }

  lemma OneExpireMore(start: World, expired: seq<TimerId>, w: World, t: TimerId)
    requires RunAll(start, ExpireSteps(expired)) == Some(w) && w.control == Expiring && t in w.timers
    ensures RunAll(start, ExpireSteps(expired + [t])) == Some(Expired(w, t))
  {
    hide RunAll;
    assert (expired + [t])[..|expired + [t]| - 1] == expired;
    OneStepMore(start, ExpireSteps(expired), w, ExpireOne(t), Expired(w, t));
  }

  /** The steps a report is: its armed events, a read before a write. */
  ghost function ReportSteps(fd: nat, es: I.Events): seq<Step> {
    (if es.read then [Fire(Slot(fd, false))] else []) + (if es.write then [Fire(Slot(fd, true))] else [])
  }

  /** The steps of a pass: what is ready of what is armed, in the order of the reports. */
  ghost function FireSteps(cs: seq<I.ContextState>, reports: seq<I.Report>): seq<Step>
    requires forall r <- reports :: r.fd < |cs|
  {
    if reports == [] then []
    else
      var last := reports[|reports| - 1];
      FireSteps(cs, reports[..|reports| - 1]) + ReportSteps(last.fd, I.Both(cs[last.fd].events, I.Ready(last)))
  }

  lemma StartsFiring(w: World, cs: seq<I.ContextState>)
    requires w.control == Expiring
    ensures RunAll(w, [StartFiring] + FireSteps(cs, [])) == Some(w.(control := Firing))
  {
    assert [StartFiring] + FireSteps(cs, []) == [] + [StartFiring];
    NoSteps(w);
    OneStepMore(w, [], w, StartFiring, w.(control := Firing));
    hide RunAll;
  }

  lemma EndsFiring(start: World, steps: seq<Step>, w: World)
    requires RunAll(start, steps) == Some(w) && w.control == Firing
    ensures RunAll(start, steps + [IdleEnd]) == Some(w.(control := Main))
  {
    OneStepMore(start, steps, w, IdleEnd, w.(control := Main));
    hide RunAll;
  }

  lemma FiresKeeps(w: World, fd: nat, es: I.Events)
    ensures var w1 := Fires(w, fd, es); w1 == w.(slots := w1.slots, queue := w1.queue, log := w1.log)
  {
    FiresOnlySlots(w, fd, es);
    hide Fires;
  }

  lemma FiresAreSteps(start: World, steps: seq<Step>, w: World, fd: nat, es: I.Events)
    requires RunAll(start, steps) == Some(w) && w.control == Firing
    requires (es.read ==> Slot(fd, false) in w.slots) && (es.write ==> Slot(fd, true) in w.slots)
    ensures RunAll(start, steps + ReportSteps(fd, es)) == Some(Fires(w, fd, es))
  {
    hide RunAll;
    var r, e, w1, more := Slot(fd, false), Slot(fd, true), w, steps;
    if es.read {
      w1, more := Trigger(w, r), steps + [Fire(r)];
      OneStepMore(start, steps, w, Fire(r), w1);
    }
    if es.write {
      OneStepMore(start, more, w1, Fire(e), Trigger(w1, e));
      assert steps + ReportSteps(fd, es) == more + [Fire(e)];
    } else {
      assert steps + ReportSteps(fd, es) == more;
    }
  }

  lemma FiresMore(io: I.IOManager, closures: map<TimerId, Timeout>, start: World, cs: seq<I.ContextState>,
                  reports: seq<I.Report>, r: I.Report, w: World)
    requires forall q <- reports + [r] :: q.fd < |cs|
    requires forall q <- reports :: q.fd < |cs|
    requires IoFits(io, closures, w.queue, w.slots) && r.fd < |io.States()| && io.States()[r.fd] == cs[r.fd]
    requires RunAll(start, [StartFiring] + FireSteps(cs, reports)) == Some(w) && w.control == Firing
    ensures r.fd < |cs|
    ensures RunAll(start, [StartFiring] + FireSteps(cs, reports + [r])) ==
            Some(Fires(w, r.fd, I.Both(cs[r.fd].events, I.Ready(r))))
  {
    hide RunAll, Fires, QueueMatches, I.IOManager.Valid, I.Ready;
    var es := I.Both(cs[r.fd].events, I.Ready(r));
    assert (reports + [r])[..|reports + [r]| - 1] == reports && r in reports + [r];
    var steps := [StartFiring] + FireSteps(cs, reports);
    assert es.read ==> IsArmed(io.States(), Slot(r.fd, false));
    assert es.write ==> IsArmed(io.States(), Slot(r.fd, true));
    FiresAreSteps(start, steps, w, r.fd, es);
    assert steps + ReportSteps(r.fd, es) == [StartFiring] + FireSteps(cs, reports + [r]);
  }

  /** A pass goes on with its next report. */
  lemma NextReport(io: I.IOManager, closures: map<TimerId, Timeout>, start: World, cs: seq<I.ContextState>,
                   reports: seq<I.Report>, k: nat, w: World)
    requires k < |reports| && (forall q <- reports :: q.fd < |cs|)
    requires forall i, j :: 0 <= i < j < |reports| ==> reports[i].fd != reports[j].fd
    requires IoFits(io, closures, w.queue, w.slots) && io.States() == I.HandledAll(cs, reports[..k])
    requires RunAll(start, [StartFiring] + FireSteps(cs, reports[..k])) == Some(w) && w.control == Firing
    ensures var r := reports[k]; var es := I.Both(cs[r.fd].events, I.Ready(r));
      && io.States()[r.fd] == cs[r.fd] && Fires(w, r.fd, es).control == Firing
      && RunAll(start, [StartFiring] + FireSteps(cs, reports[..k + 1])) == Some(Fires(w, r.fd, es))
      && I.HandledAll(cs, reports[..k + 1]) == io.States()[r.fd := I.Handled(cs[r.fd], I.Ready(r))]
  {
    hide RunAll, FireSteps, Fires, I.HandledAll, IoFits;
    var r := reports[k];
    assert reports[..k + 1] == reports[..k] + [r];
    I.NotYetHandled(cs, reports[..k], r.fd);
    I.OneReport(cs, reports[..k], r);
    FiresKeeps(w, r.fd, I.Both(cs[r.fd].events, I.Ready(r)));
    FiresMore(io, closures, start, cs, reports[..k], r, w);
  }
}
