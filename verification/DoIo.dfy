/** Fibers that park in `do_io`, on one worker: the queue, the armed event slots, the timers,
    the idle pass, and the park / timeout / retry loop, as one machine of steps.

    Between two steps exactly one of the worker's main fiber and a user fiber is in control. */
module DoIo {
  import opened Wrappers

  type Fiber = nat
  type TimerId = nat

  /** A descriptor and an event to wait for on it. */
  datatype Slot = Slot(fd: nat, write: bool)

  /** What a timeout's callback captures: the call's `TimeInfo`, by whom it is alive, and the slot. */
  datatype Timeout = Timeout(owner: Fiber, call: nat, slot: Slot)

  /** What is in the queue: a fiber to resume, or the callback of an expired timer. */
  datatype Task = Resume(fiber: Fiber) | Expire(timer: TimerId, timeout: Timeout)

  /** A running `do_io`, with its `TimeInfo`. */
  datatype Call = Call(id: nat, cancelled: bool)

  /** Where a fiber waits, and the timer it waits with. */
  datatype Parked = Parked(slot: Slot, timer: Option<TimerId>)

  /** Who is in control, or how far the idle pass is. */
  datatype Control = Main | User(fiber: Fiber) | Expiring | Firing

  /** The state a fiber keeps of itself. */
  datatype FiberState = INIT | READY | RUNNING | TERM

  /** What is seen of fibers from outside. */
  datatype Note =
    | Park(f: Fiber, timer: Option<TimerId>)
    | Wake(f: Fiber)
    | Ran(f: Fiber, t: TimerId)
    | Back(f: Fiber, timer: Option<TimerId>, timedOut: bool)

  datatype World = World(
    control: Control,
    queue: seq<Task>,
    fibers: set<Fiber>,
    states: map<Fiber, FiberState>,
    slots: map<Slot, Fiber>,
    calls: map<Fiber, Call>,
    parks: map<Fiber, Parked>,
    timers: map<TimerId, Timeout>,
    nextFiber: Fiber,
    nextCall: nat,
    nextTimer: TimerId,
    log: seq<Note>)

  const START := World(Main, [], {}, map[], map[], map[], map[], map[], 0, 0, 0, [])

  // ----- The steps

  datatype Step =
    | Spawn
    | Pop
    | BeginCall
    | EndCall
    | TryPark(slot: Slot, withTimer: bool, epollOk: bool)
    | Finish
    | IdleStart
    | ExpireOne(timer: TimerId)
    | StartFiring
    | Fire(slot: Slot)
    | IdleEnd
    | Cancel(slot: Slot)

  /** `cancelEvent`, and an event that fires: the slot's fiber goes to the queue. */
  function Trigger(w: World, slot: Slot): World {
    if slot !in w.slots then w
    else
      var f := w.slots[slot];
      w.(slots := w.slots - {slot}, queue := w.queue + [Resume(f)], log := w.log + [Wake(f)])
  }

  /** Whether a timeout's callback finds its call alive, and not timed out. */
  predicate FindsCall(w: World, o: Timeout) {
    o.owner in w.calls && w.calls[o.owner].id == o.call && !w.calls[o.owner].cancelled
  }

  /** The callback of an expired timer. */
  function RunTimeout(w: World, t: TimerId, o: Timeout): World {
    if FindsCall(w, o) then
      Trigger(w.(calls := w.calls[o.owner := Call(o.call, true)], log := w.log + [Ran(o.owner, t)]), o.slot)
    else w
  }

  /** The assertion of `Fiber::resume`. */
  predicate Resumable(w: World, f: Fiber) { f in w.states && w.states[f] != TERM && w.states[f] != RUNNING }

  /** A fiber resumed: in `do_io` it cancels its timer, and leaves the call if it timed out. */
  function RunFiber(w: World, f: Fiber): World {
    var w1 := w.(control := User(f), states := w.states[f := RUNNING]);
    if f !in w.parks || f !in w.calls then w1
    else
      var timer, cancelled := w.parks[f].timer, w.calls[f].cancelled;
      w1.(timers := if timer.Some? then w.timers - {timer.value} else w.timers,
          parks := w.parks - {f},
          calls := if cancelled then w.calls - {f} else w.calls,
          log := w.log + [Back(f, timer, cancelled)])
  }

  /** One step, or `None` if it cannot be taken: arming a slot that is armed already, and
      resuming a fiber that runs or has ended, fail assertions of the source.  Functions are
      scheduled and events cancelled at any time: by the user fiber, or by another thread. */
  function Next(w: World, step: Step): Option<World> {
    match step
    case Spawn =>
      Some(w.(fibers := w.fibers + {w.nextFiber}, states := w.states[w.nextFiber := INIT],
              queue := w.queue + [Resume(w.nextFiber)], nextFiber := w.nextFiber + 1))
    case Pop =>
      if w.control != Main || w.queue == [] then None
      else
        var w1 := w.(queue := w.queue[1..]);
        match w.queue[0] {
          case Resume(f) => if Resumable(w, f) then Some(RunFiber(w1, f)) else None
          case Expire(t, o) => Some(RunTimeout(w1, t, o))
        }
    case BeginCall =>
      if !w.control.User? || w.control.fiber in w.calls then None
      else Some(w.(calls := w.calls[w.control.fiber := Call(w.nextCall, false)], nextCall := w.nextCall + 1))
    case EndCall =>
      if !w.control.User? || w.control.fiber !in w.calls then None
      else Some(w.(calls := w.calls - {w.control.fiber}))
    case TryPark(slot, withTimer, epollOk) =>
      if !w.control.User? || w.control.fiber !in w.calls || slot in w.slots then None
      else
        var f := w.control.fiber;
        // without the event the timer is cancelled again and the call fails
        if !epollOk then Some(w.(calls := w.calls - {f}, nextTimer := w.nextTimer + 1))
        else
          var timer := if withTimer then Some(w.nextTimer) else None;
          Some(w.(control := Main,
                  states := w.states[f := READY],
                  slots := w.slots[slot := f],
                  parks := w.parks[f := Parked(slot, timer)],
                  timers := if withTimer then w.timers[w.nextTimer := Timeout(f, w.calls[f].id, slot)] else w.timers,
                  nextTimer := w.nextTimer + 1,
                  log := w.log + [Park(f, timer)]))
    case Finish =>
      if !w.control.User? || w.control.fiber in w.calls then None
      else
        Some(w.(control := Main, fibers := w.fibers - {w.control.fiber}, states := w.states[w.control.fiber := TERM]))
    case IdleStart => if w.control != Main || w.queue != [] then None else Some(w.(control := Expiring))
    case ExpireOne(t) =>
      if w.control != Expiring || t !in w.timers then None
      else Some(w.(timers := w.timers - {t}, queue := w.queue + [Expire(t, w.timers[t])]))
    case StartFiring => if w.control != Expiring then None else Some(w.(control := Firing))
    case Fire(slot) => if w.control != Firing || slot !in w.slots then None else Some(Trigger(w, slot))
    case IdleEnd => if w.control != Firing then None else Some(w.(control := Main))
    case Cancel(slot) => Some(Trigger(w, slot))
  }

  // ----- What may be seen of one fiber

  /** A fiber is free, or it waits in a slot, or it has been woken and is in the queue. */
  datatype View = Free | Waiting(timer: Option<TimerId>, ran: bool) | Woken(timer: Option<TimerId>, ran: bool)

  /** The law of one fiber's notes: every park is woken once and then comes back, a timeout is
      that of the present park, comes once, and the park has timed out exactly when it came. */
  function Follow(v: View, note: Note, f: Fiber): Option<View> {
    match note
    case Park(g, timer) => if g != f then Some(v) else if v.Free? then Some(Waiting(timer, false)) else None
    case Wake(g) => if g != f then Some(v) else if v.Waiting? then Some(Woken(v.timer, v.ran)) else None
    case Ran(g, t) =>
      if g != f then Some(v)
      else if v.Free? || v.timer != Some(t) || v.ran then None
      else if v.Waiting? then Some(Waiting(v.timer, true))
      else Some(Woken(v.timer, true))
    case Back(g, timer, timedOut) =>
      if g != f then Some(v)
      else if v.Woken? && v.timer == timer && v.ran == timedOut then Some(Free)
      else None
  }

  function ViewOf(log: seq<Note>, f: Fiber): Option<View> {
    if log == [] then Some(Free)
    else
      match ViewOf(log[..|log| - 1], f)
      case None => None
      case Some(v) => Follow(v, log[|log| - 1], f)
  }

  predicate InSlot(w: World, f: Fiber) {
    f in w.parks && w.parks[f].slot in w.slots && w.slots[w.parks[f].slot] == f
  }

  /** The places a fiber is in. */
  function Places(w: World, f: Fiber): nat {
    multiset(w.queue)[Resume(f)] + (if InSlot(w, f) then 1 else 0) + (if w.control == User(f) then 1 else 0)
  }

  /** No fiber is lost and none is in two places. */
  ghost predicate Conserved(w: World) {
    forall f :: Places(w, f) == if f in w.fibers then 1 else 0
  }

  /** A timer, waiting or expired, is that of its owner's present park, which has not timed out. */
  predicate Current(w: World, t: TimerId, o: Timeout) {
    && t < w.nextTimer
    && o.owner in w.parks && o.owner in w.calls
    && w.parks[o.owner] == Parked(o.slot, Some(t)) && w.calls[o.owner] == Call(o.call, false)
  }

  /** Timers wait or have expired, once, and an expired one is queued before its owner. */
  predicate TimersFit(w: World) {
    && (forall t <- w.timers :: Current(w, t, w.timers[t]))
    && (forall task <- w.queue :: task.Expire? ==> Current(w, task.timer, task.timeout) && task.timer !in w.timers)
    && (forall i, j :: 0 <= i < j < |w.queue| && w.queue[i].Expire? && w.queue[j].Expire? ==>
          w.queue[i].timer != w.queue[j].timer)
    && (forall i, j :: 0 <= i < j < |w.queue| && w.queue[i].Resume? && w.queue[j].Expire? ==>
          w.queue[i].fiber != w.queue[j].timeout.owner)
  }

  predicate ParksFit(w: World) {
    && (forall s <- w.slots :: w.slots[s] in w.parks && w.parks[w.slots[s]].slot == s)
    && (forall f <- w.parks :: f in w.fibers && f in w.calls && w.control != User(f))
    && (forall f <- w.calls :: f in w.parks || w.control == User(f))
    && (forall f <- w.fibers :: f < w.nextFiber)
    && (w.control.User? && w.control.fiber in w.calls ==> !w.calls[w.control.fiber].cancelled)
  }

  /** A fiber's own state says what it does. */
  predicate StatesFit(w: World) {
    && (forall f <- w.fibers ::
          f in w.states && w.states[f] != TERM && (w.states[f] == RUNNING <==> w.control == User(f)))
    && (w.control.User? ==> w.control.fiber in w.fibers)
  }

  /** What every run keeps. */
  ghost predicate Sound(w: World) {
    StatesFit(w) && Conserved(w) && ParksFit(w)
  }

  /** What is seen of a fiber is where it is. */
  function Seen(w: World, f: Fiber): View {
    if f !in w.parks || f !in w.calls then Free
    else if InSlot(w, f) then Waiting(w.parks[f].timer, w.calls[f].cancelled)
    else Woken(w.parks[f].timer, w.calls[f].cancelled)
  }

  ghost predicate LogFits(w: World) {
    forall f :: ViewOf(w.log, f) == Some(Seen(w, f))
  }

  /** While timers expire, whoever has parked still waits. */
  predicate AllWait(w: World) {
    w.control == Expiring ==> forall f <- w.parks :: InSlot(w, f)
  }

  /** What every run keeps in which no event is cancelled while timers expire. */
  ghost predicate Timely(w: World) {
    TimersFit(w) && AllWait(w)
  }

  lemma StartIsSound()
    ensures Sound(START) && Issued(START) && LogFits(START) && Timely(START) && Quiet(START)
  {
  }

  // ----- Every step keeps what is sound

  lemma SamePlaces(w: World, w1: World)
    requires Conserved(w) && w1.fibers == w.fibers && forall f :: Places(w1, f) == Places(w, f)
    ensures Conserved(w1)
  {
    hide Places;
  }

  lemma SpawnPlaces(w: World, w1: World)
    requires Conserved(w) && ParksFit(w) && Next(w, Spawn) == Some(w1)
    ensures Conserved(w1)
  {
    var n := w.nextFiber;
    assert n !in w.fibers && Places(w, n) == 0;
    forall f ensures Places(w1, f) == if f in w1.fibers then 1 else 0 {
      assert Places(w, f) == if f in w.fibers then 1 else 0;
    }
  }

  lemma SpawnSound(w: World, w1: World)
    requires Sound(w) && Next(w, Spawn) == Some(w1)
    ensures Sound(w1)
  {
    SpawnPlaces(w, w1);
    hide Conserved, Trigger, RunFiber, RunTimeout;
  }

  /** A step that moves no fiber. */
  lemma NothingMoves(w: World, w1: World)
    requires w1.queue == w.queue && w1.slots == w.slots && w1.parks == w.parks
    requires forall f :: w1.control == User(f) <==> w.control == User(f)
    ensures forall f :: Places(w1, f) == Places(w, f)
  {
  }

  predicate IsQuick(step: Step) {
    step == BeginCall || step == EndCall || step == IdleStart || step == StartFiring || step == IdleEnd
  }

  lemma QuickParks(w: World, step: Step, w1: World)
    requires StatesFit(w) && ParksFit(w) && IsQuick(step) && Next(w, step) == Some(w1)
    ensures ParksFit(w1)
  {
    hide Trigger, RunFiber, RunTimeout;
  }

  lemma QuickSound(w: World, step: Step, w1: World)
    requires Sound(w) && IsQuick(step) && Next(w, step) == Some(w1)
    ensures Sound(w1)
  {
    QuickParks(w, step, w1);
    NothingMoves(w, w1);
    SamePlaces(w, w1);
    hide Conserved, ParksFit, Places, Trigger, RunFiber, RunTimeout;
  }

  lemma FinishPlaces(w: World, w1: World, g: Fiber)
    requires Conserved(w) && w.control == User(g) && w1.control == Main && w1.fibers == w.fibers - {g}
    requires w1.queue == w.queue && w1.slots == w.slots && w1.parks == w.parks
    ensures Conserved(w1)
  {
    assert Places(w, g) == 1;
    forall f ensures Places(w1, f) == if f in w1.fibers then 1 else 0 {
      assert Places(w, f) == if f in w.fibers then 1 else 0;
    }
  }

  lemma FinishSound(w: World, w1: World)
    requires Sound(w) && Next(w, Finish) == Some(w1)
    ensures Sound(w1)
  {
    FinishPlaces(w, w1, w.control.fiber);
    hide Conserved, Trigger, RunFiber, RunTimeout;
  }

  /** The world in which a timer has expired. */
  function Expired(w: World, t: TimerId): World
    requires t in w.timers
  {
    w.(timers := w.timers - {t}, queue := w.queue + [Expire(t, w.timers[t])])
  }

  lemma ExpirePlaces(w: World, t: TimerId)
    requires t in w.timers
    ensures forall f :: Places(Expired(w, t), f) == Places(w, f)
  {
  }

  lemma ExpireSound(w: World, t: TimerId)
    requires Sound(w) && t in w.timers
    ensures Sound(Expired(w, t))
  {
    ExpirePlaces(w, t);
    SamePlaces(w, Expired(w, t));
    hide Conserved, Places;
  }

  lemma TriggerPlaces(w: World, slot: Slot)
    requires ParksFit(w) && slot in w.slots
    ensures forall f :: Places(Trigger(w, slot), f) == Places(w, f)
    ensures forall f :: InSlot(Trigger(w, slot), f) == (InSlot(w, f) && f != w.slots[slot])
  {
    var w1, g := Trigger(w, slot), w.slots[slot];
    assert InSlot(w, g);
    forall f ensures Places(w1, f) == Places(w, f) && InSlot(w1, f) == (InSlot(w, f) && f != g) {
      if f != g && InSlot(w, f) { assert w.parks[f].slot != slot; }
      assert multiset(w1.queue) == multiset(w.queue) + multiset{Resume(g)};
    }
  }

  lemma TriggerSound(w: World, slot: Slot)
    requires Sound(w)
    ensures Sound(Trigger(w, slot))
  {
    if slot in w.slots {
      TriggerPlaces(w, slot);
      SamePlaces(w, Trigger(w, slot));
    }
    hide Conserved, Places, InSlot;
  }

  /** The parked fiber's world. */
  function AfterPark(w: World, g: Fiber, slot: Slot, timer: Option<TimerId>): World
    requires g in w.calls
  {
    w.(control := Main,
       states := w.states[g := READY],
       slots := w.slots[slot := g],
       parks := w.parks[g := Parked(slot, timer)],
       timers := if timer.Some? then w.timers[timer.value := Timeout(g, w.calls[g].id, slot)] else w.timers,
       nextTimer := w.nextTimer + 1,
       log := w.log + [Park(g, timer)])
  }

  lemma ParkPlaces(w: World, g: Fiber, slot: Slot, timer: Option<TimerId>)
    requires Sound(w) && w.control == User(g) && g in w.calls && slot !in w.slots
    ensures forall f :: Places(AfterPark(w, g, slot, timer), f) == Places(w, f)
    ensures forall f :: InSlot(AfterPark(w, g, slot, timer), f) == (InSlot(w, f) || f == g)
  {
    var w1 := AfterPark(w, g, slot, timer);
    assert g !in w.parks;
    forall f ensures InSlot(w1, f) == (InSlot(w, f) || f == g) && Places(w1, f) == Places(w, f) {
      if f != g && f in w.parks { assert w1.parks[f] == w.parks[f]; }
    }
  }

  lemma ParkStates(w: World, g: Fiber, slot: Slot, timer: Option<TimerId>)
    requires StatesFit(w) && ParksFit(w) && w.control == User(g) && g in w.calls && slot !in w.slots
    ensures var w1 := AfterPark(w, g, slot, timer); StatesFit(w1) && ParksFit(w1)
  {
  }

  lemma ParkSound(w: World, slot: Slot, withTimer: bool, epollOk: bool, w1: World)
    requires Sound(w) && Next(w, TryPark(slot, withTimer, epollOk)) == Some(w1)
    ensures Sound(w1)
  {
    var g := w.control.fiber;
    if epollOk {
      var timer := if withTimer then Some(w.nextTimer) else None;
      assert w1 == AfterPark(w, g, slot, timer);
      ParkPlaces(w, g, slot, timer);
      ParkStates(w, g, slot, timer);
      hide StatesFit, ParksFit;
    } else {
      NothingMoves(w, w1);
    }
    SamePlaces(w, w1);
    hide Conserved, Places, InSlot, Trigger, RunFiber, RunTimeout;
  }

  // The worker takes a fiber from the queue.

  lemma HeadIsFiber(w: World, f: Fiber)
    requires Conserved(w) && w.queue != [] && w.queue[0] == Resume(f)
    ensures f in w.fibers && !InSlot(w, f) && Resume(f) !in w.queue[1..] && w.control != User(f)
  {
    assert w.queue == [Resume(f)] + w.queue[1..];
    assert Places(w, f) == 1;
    hide InSlot;
  }

  /** The world after the fiber in front of the queue was resumed. */
  function Popped(w: World, f: Fiber): World
    requires w.queue != []
  {
    RunFiber(w.(queue := w.queue[1..]), f)
  }

  lemma RunFiberIs(w: World, f: Fiber)
    ensures var w1 := RunFiber(w, f);
      && w1.control == User(f) && w1.queue == w.queue && w1.slots == w.slots && w1.fibers == w.fibers
      && (forall g :: g in w1.parks ==> g in w.parks && w1.parks[g] == w.parks[g])
      && (forall g :: g != f && g in w.parks ==> g in w1.parks)
  {
  }

  lemma PoppedPlaces(w: World, f: Fiber)
    requires Conserved(w) && ParksFit(w) && w.control == Main && w.queue != [] && w.queue[0] == Resume(f)
    ensures forall g :: Places(Popped(w, f), g) == Places(w, g) && InSlot(Popped(w, f), g) == InSlot(w, g)
  {
    var w1 := Popped(w, f);
    HeadIsFiber(w, f);
    RunFiberIs(w.(queue := w.queue[1..]), f);
    hide RunFiber, Conserved, ParksFit;
    assert w.queue == [Resume(f)] + w.queue[1..];
    assert multiset(w.queue) == multiset{Resume(f)} + multiset(w1.queue);
  }

  /** The assertion of `Fiber::resume` holds. */
  lemma PoppedStates(w: World, f: Fiber)
    requires StatesFit(w) && w.control == Main && w.queue != [] && f in w.fibers
    ensures Resumable(w, f) && StatesFit(Popped(w, f))
  {
  }

  lemma PoppedParks(w: World, f: Fiber)
    requires ParksFit(w) && w.control == Main && w.queue != [] && f in w.fibers && !InSlot(w, f)
    ensures ParksFit(Popped(w, f))
  {
  }

  lemma PoppedSound(w: World, f: Fiber)
    requires Sound(w) && w.control == Main && w.queue != [] && w.queue[0] == Resume(f)
    ensures Sound(Popped(w, f)) && Resumable(w, f)
  {
    HeadIsFiber(w, f);
    PoppedPlaces(w, f);
    PoppedStates(w, f);
    PoppedParks(w, f);
    RunFiberIs(w.(queue := w.queue[1..]), f);
    SamePlaces(w, Popped(w, f));
    hide StatesFit, Conserved, ParksFit, Places, InSlot, RunFiber, Resumable;
  }

  // The worker runs the callback of an expired timer.

  /** The callback up to cancelling the event. */
  function TimedOut(w: World, t: TimerId, o: Timeout): World
    requires w.queue != []
  {
    var w1 := w.(queue := w.queue[1..]);
    if FindsCall(w, o) then w1.(calls := w.calls[o.owner := Call(o.call, true)], log := w.log + [Ran(o.owner, t)])
    else w1
  }

  lemma TimeoutIs(w: World, t: TimerId, o: Timeout)
    requires w.queue != []
    ensures RunTimeout(w.(queue := w.queue[1..]), t, o) ==
            if FindsCall(w, o) then Trigger(TimedOut(w, t, o), o.slot) else TimedOut(w, t, o)
  {
    hide Trigger;
  }

  lemma TimedOutPlaces(w: World, t: TimerId, o: Timeout)
    requires w.queue != [] && w.queue[0] == Expire(t, o)
    ensures forall f :: Places(TimedOut(w, t, o), f) == Places(w, f) && InSlot(TimedOut(w, t, o), f) == InSlot(w, f)
  {
    assert w.queue == [Expire(t, o)] + w.queue[1..];
  }

  lemma TimedOutSound(w: World, t: TimerId, o: Timeout)
    requires Sound(w) && w.control == Main && w.queue != [] && w.queue[0] == Expire(t, o)
    ensures Sound(TimedOut(w, t, o))
  {
    TimedOutPlaces(w, t, o);
    SamePlaces(w, TimedOut(w, t, o));
    hide Conserved, Places, InSlot;
  }

  lemma PopSound(w: World, w1: World)
    requires Sound(w) && Next(w, Pop) == Some(w1)
    ensures Sound(w1)
  {
    match w.queue[0] {
      case Resume(f) => PoppedSound(w, f);
      case Expire(t, o) =>
        TimedOutSound(w, t, o);
        TimeoutIs(w, t, o);
        TriggerSound(TimedOut(w, t, o), o.slot);
    }
    hide Sound, Trigger, RunFiber, RunTimeout, TimedOut, FindsCall;
  }

  lemma ExpireIs(w: World, t: TimerId, w1: World)
    requires Next(w, ExpireOne(t)) == Some(w1)
    ensures w.control == Expiring && t in w.timers && w1 == Expired(w, t)
  {
  }

  lemma FireIs(w: World, slot: Slot, w1: World)
    requires Next(w, Fire(slot)) == Some(w1)
    ensures w.control == Firing && w1 == Trigger(w, slot)
  {
    hide Trigger;
  }

  lemma CancelIs(w: World, slot: Slot, w1: World)
    requires Next(w, Cancel(slot)) == Some(w1)
    ensures w1 == Trigger(w, slot)
  {
    hide Trigger;
  }

  lemma StepSound(w: World, step: Step, w1: World)
    requires Sound(w) && Next(w, step) == Some(w1)
    ensures Sound(w1)
  {
    hide *;
    match step
    case Spawn => SpawnSound(w, w1);
    case Pop => PopSound(w, w1);
    case TryPark(slot, withTimer, epollOk) => ParkSound(w, slot, withTimer, epollOk, w1);
    case Finish => FinishSound(w, w1);
    case ExpireOne(t) => ExpireIs(w, t, w1); ExpireSound(w, t);
    case Fire(slot) => FireIs(w, slot, w1); TriggerSound(w, slot);
    case Cancel(slot) => CancelIs(w, slot, w1); TriggerSound(w, slot);
    case _ => QuickIs(step); QuickSound(w, step, w1);
  }

  lemma QuickIs(step: Step)
    ensures IsQuick(step) <==> step.BeginCall? || step.EndCall? || step.IdleStart? || step.StartFiring? || step.IdleEnd?
  {
  }

  // ----- And what is timely

  /** Timers depend on nothing else. */
  lemma SameTimers(w: World, w1: World)
    requires TimersFit(w) && w1.timers == w.timers && w1.queue == w.queue
    requires w1.parks == w.parks && w1.nextTimer >= w.nextTimer
    requires forall f <- w.parks :: f in w.calls ==> f in w1.calls && w1.calls[f] == w.calls[f]
    ensures TimersFit(w1)
  {
    forall t, o | Current(w, t, o) ensures Current(w1, t, o) { }
    hide Current;
  }

  /** A fiber more in the queue. */
  lemma QueuedTimers(w: World, w1: World, f: Fiber)
    requires TimersFit(w) && w1.timers == w.timers && w1.queue == w.queue + [Resume(f)]
    requires w1.parks == w.parks && w1.nextTimer == w.nextTimer && w1.calls == w.calls
    ensures TimersFit(w1)
  {
    forall t, o | Current(w, t, o) ensures Current(w1, t, o) { }
    hide Current;
  }

  lemma SpawnTimely(w: World, w1: World)
    requires Timely(w) && Next(w, Spawn) == Some(w1)
    ensures Timely(w1)
  {
    QueuedTimers(w, w1, w.nextFiber);
    hide TimersFit, Trigger, RunFiber, RunTimeout;
  }

  lemma NobodyQueued(w: World)
    requires Conserved(w) && ParksFit(w) && w.control == Main && w.queue == []
    ensures forall f <- w.parks :: InSlot(w, f)
  {
    forall f <- w.parks ensures InSlot(w, f) { assert Places(w, f) == 1; }
    hide InSlot;
  }

  lemma QuickTimely(w: World, step: Step, w1: World)
    requires Sound(w) && Timely(w) && (IsQuick(step) || step == Finish) && Next(w, step) == Some(w1)
    ensures Timely(w1)
  {
    if step == IdleStart { NobodyQueued(w); }
    QuickIsQuiet(w, step, w1);
    SameTimers(w, w1);
    hide StatesFit, Conserved, ParksFit, TimersFit, Next, InSlot;
  }

  lemma QuickIsQuiet(w: World, step: Step, w1: World)
    requires ParksFit(w) && (IsQuick(step) || step == Finish) && Next(w, step) == Some(w1)
    ensures w1.timers == w.timers && w1.queue == w.queue && w1.slots == w.slots
    ensures w1.parks == w.parks && w1.nextTimer >= w.nextTimer
    ensures forall f <- w.parks :: f in w.calls ==> f in w1.calls && w1.calls[f] == w.calls[f]
    ensures w1.control == Expiring <==> step == IdleStart
    ensures step == IdleStart ==> w.control == Main && w.queue == []
  {
    assert w.control.User? ==> w.control.fiber !in w.parks;
    hide Trigger, RunFiber, RunTimeout;
  }

  /** Who waits in a slot is not in the queue. */
  lemma WaitingIsNotQueued(w: World, f: Fiber)
    requires Conserved(w) && InSlot(w, f)
    ensures Resume(f) !in w.queue
  {
    assert Places(w, f) <= 1;
    hide InSlot;
  }

  lemma ExpireTimers(w: World, t: TimerId)
    requires TimersFit(w) && t in w.timers && Resume(w.timers[t].owner) !in w.queue
    ensures TimersFit(Expired(w, t))
  {
    var w1, n := Expired(w, t), |w.queue|;
    assert forall t', o :: Current(w1, t', o) == Current(w, t', o);
    assert forall i :: 0 <= i < n ==> w1.queue[i] == w.queue[i] && w.queue[i] in w.queue;
    assert forall i :: 0 <= i < n && w.queue[i].Resume? ==> w.queue[i].fiber != w.timers[t].owner;
    hide Current;
  }

  lemma ExpireTimely(w: World, t: TimerId)
    requires Sound(w) && Timely(w) && w.control == Expiring && t in w.timers
    ensures Timely(Expired(w, t))
  {
    assert Current(w, t, w.timers[t]);
    WaitingIsNotQueued(w, w.timers[t].owner);
    ExpireTimers(w, t);
    hide TimersFit, Conserved, StatesFit, ParksFit;
  }

  lemma TriggerTimely(w: World, slot: Slot)
    requires Timely(w) && ParksFit(w) && w.control != Expiring
    ensures Timely(Trigger(w, slot))
  {
    if slot in w.slots { QueuedTimers(w, Trigger(w, slot), w.slots[slot]); }
    hide TimersFit;
  }

  lemma ParkTimers(w: World, g: Fiber, slot: Slot, timer: Option<TimerId>)
    requires TimersFit(w) && ParksFit(w) && w.control == User(g) && g in w.calls && slot !in w.slots
    requires timer == None || timer == Some(w.nextTimer)
    ensures TimersFit(AfterPark(w, g, slot, timer))
  {
    var w1 := AfterPark(w, g, slot, timer);
    assert g !in w.parks;
    forall t, o | Current(w, t, o) ensures Current(w1, t, o) { assert o.owner != g; }
  }

  lemma ParkTimely(w: World, slot: Slot, withTimer: bool, epollOk: bool, w1: World)
    requires Sound(w) && Timely(w) && Next(w, TryPark(slot, withTimer, epollOk)) == Some(w1)
    ensures Timely(w1)
  {
    var g := w.control.fiber;
    assert g !in w.parks;
    if epollOk {
      ParkIs(w, slot, withTimer, w1);
      ParkTimers(w, g, slot, if withTimer then Some(w.nextTimer) else None);
    } else {
      SameTimers(w, w1);
    }
    hide StatesFit, Conserved, TimersFit, Trigger, RunFiber, RunTimeout;
  }

  lemma ParkIs(w: World, slot: Slot, withTimer: bool, w1: World)
    requires Next(w, TryPark(slot, withTimer, true)) == Some(w1)
    ensures w.control.User? && w.control.fiber in w.calls && slot !in w.slots
    ensures w1 == AfterPark(w, w.control.fiber, slot, if withTimer then Some(w.nextTimer) else None)
  {
    hide Trigger, RunFiber, RunTimeout;
  }

  lemma PoppedTimers(w: World, f: Fiber)
    requires TimersFit(w) && w.queue != [] && w.queue[0] == Resume(f)
    ensures TimersFit(Popped(w, f))
  {
    var w0 := w.(queue := w.queue[1..]);
    var w1 := RunFiber(w0, f);
    RunFiberIs(w0, f);
    assert forall i :: 0 <= i < |w1.queue| ==> w1.queue[i] == w.queue[i + 1];
    forall t | t in w1.timers ensures Current(w1, t, w1.timers[t]) && t in w.timers {
      TimerStays(w0, f, t);
      assert Current(w, t, w.timers[t]);
    }
    forall task <- w1.queue | task.Expire? ensures Current(w1, task.timer, task.timeout) && task.timer !in w1.timers {
      var i :| 0 <= i < |w1.queue| && w1.queue[i] == task;
      assert w.queue[i + 1] == task && task in w.queue && task.timeout.owner != f;
      QueuedStays(w0, f, task.timer, task.timeout);
    }
    hide Current, RunFiber;
  }

  lemma QueuedStays(w: World, f: Fiber, t: TimerId, o: Timeout)
    requires Current(w, t, o) && t !in w.timers && o.owner != f
    ensures Current(RunFiber(w, f), t, o) && t !in RunFiber(w, f).timers
  {
  }

  lemma TimerStays(w: World, f: Fiber, t: TimerId)
    requires t in RunFiber(w, f).timers
    ensures t in w.timers && RunFiber(w, f).timers[t] == w.timers[t]
    ensures Current(w, t, w.timers[t]) ==> Current(RunFiber(w, f), t, w.timers[t])
  {
  }

  lemma TimedOutTimers(w: World, t: TimerId, o: Timeout)
    requires TimersFit(w) && w.queue != [] && w.queue[0] == Expire(t, o)
    ensures Current(w, t, o) && TimersFit(TimedOut(w, t, o))
  {
    var w1 := TimedOut(w, t, o);
    assert w.queue[0] in w.queue;
    assert forall task <- w1.queue :: task in w.queue;
    forall t', o' | Current(w, t', o') && t' != t ensures Current(w1, t', o') { assert o'.owner != o.owner; }
    assert forall i :: 0 <= i < |w1.queue| ==> w1.queue[i] == w.queue[i + 1];
    forall task <- w1.queue | task.Expire? ensures task.timer != t {
      var i :| 0 <= i < |w1.queue| && w1.queue[i] == task;
      assert w.queue[i + 1] == task;
    }
    hide Current;
  }

  lemma TimedOutTimely(w: World, t: TimerId, o: Timeout)
    requires Timely(w) && w.control == Main && w.queue != [] && w.queue[0] == Expire(t, o)
    ensures Timely(TimedOut(w, t, o)) && TimedOut(w, t, o).control == Main
  {
    TimedOutTimers(w, t, o);
    hide TimersFit, Current;
  }

  lemma PopTimely(w: World, w1: World)
    requires Sound(w) && Timely(w) && Next(w, Pop) == Some(w1)
    ensures Timely(w1)
  {
    match w.queue[0] {
      case Resume(f) =>
        PoppedTimers(w, f);
        RunFiberIs(w.(queue := w.queue[1..]), f);
      case Expire(t, o) =>
        TimedOutTimely(w, t, o);
        TimedOutSound(w, t, o);
        TimeoutIs(w, t, o);
        TriggerTimely(TimedOut(w, t, o), o.slot);
    }
    hide StatesFit, Conserved, ParksFit, TimersFit, Trigger, RunFiber, RunTimeout, TimedOut, FindsCall;
  }

  lemma StepTimely(w: World, step: Step, w1: World)
    requires Sound(w) && Timely(w) && Next(w, step) == Some(w1) && (w.control == Expiring ==> !step.Cancel?)
    ensures Timely(w1)
  {
    hide *;
    SoundIs(w);
    match step
    case Spawn => SpawnTimely(w, w1);
    case Pop => PopTimely(w, w1);
    case TryPark(slot, withTimer, epollOk) => ParkTimely(w, slot, withTimer, epollOk, w1);
    case ExpireOne(t) => ExpireIs(w, t, w1); ExpireTimely(w, t);
    case Fire(slot) => FireIs(w, slot, w1); TriggerTimely(w, slot);
    case Cancel(slot) => CancelIs(w, slot, w1); TriggerTimely(w, slot);
    case _ => QuickIs(step); QuickTimely(w, step, w1);
  }

  lemma SoundIs(w: World)
    ensures Sound(w) <==> StatesFit(w) && Conserved(w) && ParksFit(w)
  {
    hide StatesFit, Conserved, ParksFit;
  }

  // ----- Whose a timer is

  /** A timer armed before, and the only park that can have it. */
  predicate Made(w: World, t: TimerId, o: Timeout) {
    && t < w.nextTimer
    && forall f <- w.parks :: w.parks[f].timer == Some(t) ==> f == o.owner && w.parks[f].slot == o.slot
  }

  predicate Issued(w: World) {
    && (forall t <- w.timers :: Made(w, t, w.timers[t]))
    && (forall task <- w.queue :: task.Expire? ==> Made(w, task.timer, task.timeout))
    && (forall f <- w.parks :: w.parks[f].timer.Some? ==> w.parks[f].timer.value < w.nextTimer)
  }

  /** No timer and no park is new. */
  lemma NothingIssued(w: World, w1: World)
    requires Issued(w) && w1.nextTimer >= w.nextTimer
    requires forall f <- w1.parks :: f in w.parks && w1.parks[f] == w.parks[f]
    requires forall t <- w1.timers :: t in w.timers && w1.timers[t] == w.timers[t]
    requires forall task <- w1.queue :: task.Expire? ==> task in w.queue
    ensures Issued(w1)
  {
    forall t, o | Made(w, t, o) ensures Made(w1, t, o) { }
    hide Made;
  }

  lemma ParkIssued(w: World, slot: Slot, withTimer: bool, w1: World)
    requires Issued(w) && Next(w, TryPark(slot, withTimer, true)) == Some(w1)
    ensures Issued(w1)
  {
    ParkIs(w, slot, withTimer, w1);
    forall t, o | Made(w, t, o) ensures Made(w1, t, o) { }
    hide Next;
  }

  lemma ExpireIssued(w: World, t: TimerId)
    requires Issued(w) && t in w.timers
    ensures Issued(Expired(w, t))
  {
    assert forall t', o :: Made(Expired(w, t), t', o) == Made(w, t', o);
    hide Made;
  }

  lemma TriggerIssued(w: World, slot: Slot)
    requires Issued(w)
    ensures Issued(Trigger(w, slot))
  {
    NothingIssued(w, Trigger(w, slot));
    hide Issued;
  }

  lemma PopIssued(w: World, w1: World)
    requires Issued(w) && Next(w, Pop) == Some(w1)
    ensures Issued(w1)
  {
    assert forall task <- w.queue[1..] :: task in w.queue;
    match w.queue[0] {
      case Resume(f) => NothingIssued(w, w1);
      case Expire(t, o) =>
        TimeoutIs(w, t, o);
        NothingIssued(w, TimedOut(w, t, o));
        TriggerIssued(TimedOut(w, t, o), o.slot);
    }
    hide Issued, RunTimeout, Trigger, Resumable;
  }

  lemma OtherIssued(w: World, step: Step, w1: World)
    requires Issued(w) && Next(w, step) == Some(w1)
    requires !step.Pop? && !step.ExpireOne? && !step.Fire? && !step.Cancel? && !(step.TryPark? && step.epollOk)
    ensures Issued(w1)
  {
    NothingIssued(w, w1);
    hide Issued, Trigger, RunFiber, RunTimeout;
  }

  lemma StepIssued(w: World, step: Step, w1: World)
    requires Issued(w) && Next(w, step) == Some(w1)
    ensures Issued(w1)
  {
    hide *;
    match step
    case Pop => PopIssued(w, w1);
    case ExpireOne(t) => ExpireIs(w, t, w1); ExpireIssued(w, t);
    case Fire(slot) => FireIs(w, slot, w1); TriggerIssued(w, slot);
    case Cancel(slot) => CancelIs(w, slot, w1); TriggerIssued(w, slot);
    case TryPark(slot, withTimer, epollOk) =>
      if epollOk { ParkIssued(w, slot, withTimer, w1); } else { OtherIssued(w, step, w1); }
    case _ => OtherIssued(w, step, w1);
  }

  // ----- Whole runs

  function RunAll(w: World, steps: seq<Step>): Option<World>
    decreases |steps|
  {
    if steps == [] then Some(w)
    else
      match Next(w, steps[0])
      case None => None
      case Some(w1) => RunAll(w1, steps[1..])
  }

  /** The steps a run takes while timers expire: from the wait of an idle pass until its events
      fire. */
  ghost function InWait(w: World, steps: seq<Step>): set<Step>
    decreases |steps|
  {
    if steps == [] || Next(w, steps[0]).None? then {}
    else (if w.control == Expiring then {steps[0]} else {}) + InWait(Next(w, steps[0]).value, steps[1..])
  }

  /** Nothing is cancelled in the wait of an idle pass. */
  ghost predicate NoCancel(inWait: set<Step>) { forall step <- inWait :: !step.Cancel? }

  /** And nothing is scheduled. */
  ghost predicate Undisturbed(inWait: set<Step>) { forall step <- inWait :: !step.Cancel? && !step.Spawn? }

  /** Every run is sound; what is timely stays so while nothing is cancelled in the wait. */
  lemma {:induction false} RunKeeps(w: World, steps: seq<Step>)
    requires Sound(w) && Issued(w) && RunAll(w, steps).Some?
    ensures var w1 := RunAll(w, steps).value;
      Sound(w1) && Issued(w1) && (Timely(w) && NoCancel(InWait(w, steps)) ==> Timely(w1))
    decreases |steps|
  {
    hide Sound, Issued, Timely, Next;
    if steps != [] {
      var w1 := Next(w, steps[0]).value;
      StepSound(w, steps[0], w1);
      StepIssued(w, steps[0], w1);
      if Timely(w) && NoCancel(InWait(w, steps)) { StepTimely(w, steps[0], w1); }
      RunKeeps(w1, steps[1..]);
    }
  }

  /** On every run of one worker: whenever its main fiber is in control, each unfinished fiber
      is exactly once in the queue or in exactly one armed slot. */
  lemma NoFiberIsLost(steps: seq<Step>, f: Fiber)
    requires RunAll(START, steps).Some?
    ensures var w := RunAll(START, steps).value;
      && (!w.control.User? && f in w.fibers ==> multiset(w.queue)[Resume(f)] + (if InSlot(w, f) then 1 else 0) == 1)
      && (f !in w.fibers ==> Resume(f) !in w.queue && forall s <- w.slots :: w.slots[s] != f)
      && (forall s <- w.slots :: InSlot(w, w.slots[s]) && w.parks[w.slots[s]].slot == s)
  {
    StartIsSound();
    RunKeeps(START, steps);
    var w := RunAll(START, steps).value;
    assert Places(w, f) == if f in w.fibers then 1 else 0;
    assert forall s <- w.slots :: InSlot(w, w.slots[s]);
    hide RunAll, Timely;
  }

  /** The assertion of `Fiber::resume` never fails: what the worker takes from its queue can
      be run. */
  lemma ResumeNeverAborts(steps: seq<Step>)
    requires RunAll(START, steps).Some?
    ensures var w := RunAll(START, steps).value; w.control == Main && w.queue != [] ==> Next(w, Pop).Some?
  {
    StartIsSound();
    RunKeeps(START, steps);
    var w := RunAll(START, steps).value;
    if w.control == Main && w.queue != [] && w.queue[0].Resume? { PoppedSound(w, w.queue[0].fiber); }
    hide RunAll, Sound, Timely, RunTimeout, RunFiber, Resumable;
  }

  // ----- What a timeout wakes

  /** The callback of an expired timer ends its own park: the call has timed out, its fiber is
      woken if it still waits, and nothing else changes. */
  predicate EndsItsPark(w: World, w1: World, t: TimerId, o: Timeout) {
    && w.queue != []
    && o.owner in w.parks && w.parks[o.owner] == Parked(o.slot, Some(t))
    && o.owner in w.calls && !w.calls[o.owner].cancelled
    && w1 == w.(queue := w.queue[1..] + (if InSlot(w, o.owner) then [Resume(o.owner)] else []),
                slots := w.slots - {o.slot},
                calls := w.calls[o.owner := Call(o.call, true)],
                log := w.log + [Ran(o.owner, t)] + (if InSlot(w, o.owner) then [Wake(o.owner)] else []))
  }

  /** The callback finds its call, but in another park than the one its timer was armed for. */
  predicate Stale(w: World, t: TimerId, o: Timeout) {
    FindsCall(w, o) && !(o.owner in w.parks && w.parks[o.owner].timer == Some(t))
  }

  /** No other fiber waits for what the callback cancels. */
  predicate Own(w: World, o: Timeout) { o.slot in w.slots ==> w.slots[o.slot] == o.owner }

  lemma TimeoutEnds(w: World, t: TimerId, o: Timeout)
    requires w.control == Main && w.queue != [] && w.queue[0] == Expire(t, o) && Made(w, t, o) && FindsCall(w, o)
    ensures Next(w, Pop).Some?
    ensures EndsItsPark(w, Next(w, Pop).value, t, o) <==> !Stale(w, t, o) && Own(w, o)
  {
    TimeoutIs(w, t, o);
    var w1 := Next(w, Pop).value;
    if o.slot in w.slots && w.slots[o.slot] != o.owner {
      // another fiber is woken, so the queue is one longer than it should be
      assert |w1.queue| == |w.queue|;
    }
    hide RunFiber, RunTimeout, Resumable;
  }

  /** On every run, a timeout that comes while its call goes on ends its own park, and wakes
      nobody else, exactly when its fiber has not parked anew and no other waits for that event
      by now; one that comes later does nothing. */
  lemma TimeoutTouchesItsOwnPark(steps: seq<Step>, t: TimerId, o: Timeout)
    requires RunAll(START, steps).Some?
    requires var w := RunAll(START, steps).value; w.control == Main && w.queue != [] && w.queue[0] == Expire(t, o)
    ensures var w := RunAll(START, steps).value;
      && Next(w, Pop).Some?
      && (FindsCall(w, o) ==> (EndsItsPark(w, Next(w, Pop).value, t, o) <==> !Stale(w, t, o) && Own(w, o)))
      && (!FindsCall(w, o) ==> Next(w, Pop).value == w.(queue := w.queue[1..]))
  {
    StartIsSound();
    RunKeeps(START, steps);
    var w := RunAll(START, steps).value;
    assert w.queue[0] in w.queue;
    if FindsCall(w, o) { TimeoutEnds(w, t, o); } else { TimeoutIs(w, t, o); }
    hide RunAll, InWait, Sound, Timely, Made, EndsItsPark, Stale, Own, FindsCall, RunFiber, RunTimeout, Trigger;
  }

  // A run in which nothing is scheduled or cancelled in the wait of an idle pass

  /** Expired timers are in front of the queue, gone when a user fiber is in control, and have
      their slots to themselves. */
  predicate Quiet(w: World) {
    && (forall i, j :: 0 <= i < j < |w.queue| && w.queue[j].Expire? ==> w.queue[i].Expire?)
    && (w.control.User? ==> forall task <- w.queue :: task.Resume?)
    && (w.control == Expiring ==> forall task <- w.queue :: task.Expire?)
    && (forall task <- w.queue :: task.Expire? ==> Own(w, task.timeout))
  }

  lemma TriggerQuiet(w: World, slot: Slot)
    requires Quiet(w) && w.control != Expiring
    ensures Quiet(Trigger(w, slot))
  {
    forall o | Own(w, o) ensures Own(Trigger(w, slot), o) { }
    hide Own;
  }

  lemma PopQuiet(w: World, w1: World)
    requires Quiet(w) && Next(w, Pop) == Some(w1)
    ensures Quiet(w1)
  {
    PopIs(w, w1);
    match w.queue[0] {
      case Resume(f) => ResumeQuiet(w, f);
      case Expire(t, o) =>
        TimeoutIs(w, t, o);
        TimedOutQuiet(w, t, o);
        TriggerQuiet(TimedOut(w, t, o), o.slot);
    }
    hide Quiet, Next, Popped, TimedOut, FindsCall, RunTimeout, Trigger;
  }

  lemma ResumeQuiet(w: World, f: Fiber)
    requires Quiet(w) && w.queue != [] && w.queue[0] == Resume(f)
    ensures Quiet(Popped(w, f))
  {
    assert forall task <- w.queue[1..] :: task in w.queue;
    RunFiberIs(w.(queue := w.queue[1..]), f);
    hide RunFiber;
  }

  lemma TimedOutQuiet(w: World, t: TimerId, o: Timeout)
    requires Quiet(w) && w.control == Main && w.queue != []
    ensures Quiet(TimedOut(w, t, o)) && TimedOut(w, t, o).control == Main
  {
    assert forall task <- w.queue[1..] :: task in w.queue;
    hide FindsCall;
  }

  /** While timers expire, the owner of one still waits in its slot. */
  lemma OwnSlot(w: World, t: TimerId)
    requires Sound(w) && Timely(w) && w.control == Expiring && t in w.timers
    ensures Own(w, w.timers[t])
  {
    assert Current(w, t, w.timers[t]);
    hide Conserved, StatesFit;
  }

  lemma ExpireQuiet(w: World, t: TimerId)
    requires Quiet(w) && w.control == Expiring && t in w.timers && Own(w, w.timers[t])
    ensures Quiet(Expired(w, t))
  {
    assert forall o :: Own(Expired(w, t), o) == Own(w, o);
    hide Own;
  }

  lemma OtherQuiet(w: World, step: Step, w1: World)
    requires Quiet(w) && Next(w, step) == Some(w1) && (w.control == Expiring ==> !step.Spawn?)
    requires !step.Pop? && !step.ExpireOne? && !step.Fire? && !step.Cancel?
    ensures Quiet(w1)
  {
    hide Trigger, RunFiber, RunTimeout;
  }

  lemma StepQuiet(w: World, step: Step, w1: World)
    requires Sound(w) && Timely(w) && Quiet(w) && Next(w, step) == Some(w1)
    requires w.control == Expiring ==> !step.Cancel? && !step.Spawn?
    ensures Quiet(w1)
  {
    hide *;
    match step
    case Pop => PopQuiet(w, w1);
    case ExpireOne(t) => ExpireIs(w, t, w1); OwnSlot(w, t); ExpireQuiet(w, t);
    case Fire(slot) => FireIs(w, slot, w1); TriggerQuiet(w, slot);
    case Cancel(slot) => CancelIs(w, slot, w1); TriggerQuiet(w, slot);
    case _ => OtherQuiet(w, step, w1);
  }

  lemma {:induction false} RunQuiet(w: World, steps: seq<Step>)
    requires Sound(w) && Timely(w) && Quiet(w) && RunAll(w, steps).Some? && Undisturbed(InWait(w, steps))
    ensures Quiet(RunAll(w, steps).value)
    decreases |steps|
  {
    hide Sound, Timely, Quiet, Next;
    if steps != [] {
      var w1 := Next(w, steps[0]).value;
      StepSound(w, steps[0], w1);
      StepTimely(w, steps[0], w1);
      StepQuiet(w, steps[0], w1);
      RunQuiet(w1, steps[1..]);
    }
  }

  /** While nothing is scheduled or cancelled in the wait of an idle pass, every timeout ends its
      own park. */
  lemma UndisturbedTimeout(steps: seq<Step>, t: TimerId, o: Timeout)
    requires RunAll(START, steps).Some? && Undisturbed(InWait(START, steps))
    requires var w := RunAll(START, steps).value; w.control == Main && w.queue != [] && w.queue[0] == Expire(t, o)
    ensures var w := RunAll(START, steps).value; Next(w, Pop).Some? && EndsItsPark(w, Next(w, Pop).value, t, o)
  {
    StartIsSound();
    RunQuiet(START, steps);
    RunKeeps(START, steps);
    var w := RunAll(START, steps).value;
    TimedOutTimers(w, t, o);
    assert w.queue[0] in w.queue && FindsCall(w, o) && !Stale(w, t, o) && Own(w, o);
    TimeoutTouchesItsOwnPark(steps, t, o);
    hide RunAll, InWait, Sound, Issued, TimersFit, Next, EndsItsPark, TimedOut, Own;
  }

  // Two runs in which it is not so

  lemma {:induction false} OneStepMore(start: World, steps: seq<Step>, w: World, step: Step, w1: World)
    requires RunAll(start, steps) == Some(w) && Next(w, step) == Some(w1)
    ensures RunAll(start, steps + [step]) == Some(w1)
    ensures InWait(start, steps + [step]) == InWait(start, steps) + (if w.control == Expiring then {step} else {})
    decreases |steps|
  {
    hide Next;
    if steps == [] {
      assert steps + [step] == [step] && [step][1..] == [];
    } else {
      assert (steps + [step])[0] == steps[0] && (steps + [step])[1..] == steps[1..] + [step];
      OneStepMore(Next(start, steps[0]).value, steps[1..], w, step, w1);
    }
  }

  lemma NoSteps(w: World)
    ensures RunAll(w, []) == Some(w) && InWait(w, []) == {}
  {
  }

  /** A run so far, and the next step of it. */
  lemma Onward(steps: seq<Step>, w: World, step: Step) returns (w1: World, longer: seq<Step>)
    requires RunAll(START, steps) == Some(w) && Next(w, step).Some?
    ensures w1 == Next(w, step).value && longer == steps + [step] && RunAll(START, longer) == Some(w1)
    ensures InWait(START, longer) == InWait(START, steps) + (if w.control == Expiring then {step} else {})
  {
    w1, longer := Next(w, step).value, steps + [step];
    OneStepMore(START, steps, w, step, w1);
    hide Next;
  }

  const EVENT := Slot(3, false)

  /** One fiber has parked with a timer, and the worker is idle. */
  const ASLEEP := World(Expiring, [], {0}, map[0 := READY], map[EVENT := 0], map[0 := Call(0, false)],
                        map[0 := Parked(EVENT, Some(0))], map[0 := Timeout(0, 0, EVENT)], 1, 1, 1, [Park(0, Some(0))])

  lemma FallsAsleep() returns (steps: seq<Step>)
    ensures steps == [Spawn, Pop, BeginCall, TryPark(EVENT, true, true), IdleStart]
    ensures RunAll(START, steps) == Some(ASLEEP) && InWait(START, steps) == {}
  {
    hide RunAll, InWait;
    var w: World := START;
    steps := [];
    NoSteps(START);
    w, steps := Onward(steps, w, Spawn);
    w, steps := Onward(steps, w, Pop);
    w, steps := Onward(steps, w, BeginCall);
    w, steps := Onward(steps, w, TryPark(EVENT, true, true));
    w, steps := Onward(steps, w, IdleStart);
    assert w == ASLEEP;
  }

  /** Scheduled in the wait, a fiber runs before the timeout of the one whose event has just
      fired, and waits for the same event: that timeout wakes it. */
  lemma OtherFiberIsWoken() returns (steps: seq<Step>)
    ensures RunAll(START, steps).Some? && NoCancel(InWait(START, steps))
    ensures var w := RunAll(START, steps).value;
      && w.control == Main && w.queue == [Expire(0, Timeout(0, 0, EVENT)), Resume(0)] && w.slots == map[EVENT := 1]
      && Next(w, Pop).Some? && Next(w, Pop).value.queue == [Resume(0), Resume(1)]
      && Next(w, Pop).value.log == w.log + [Ran(0, 0), Wake(1)]
  {
    hide RunAll, InWait;
    var w := ASLEEP;
    steps := FallsAsleep();
    w, steps := Onward(steps, w, Spawn);
    w, steps := Onward(steps, w, ExpireOne(0));
    w, steps := Onward(steps, w, StartFiring);
    w, steps := Onward(steps, w, Fire(EVENT));
    w, steps := Onward(steps, w, IdleEnd);
    w, steps := Onward(steps, w, Pop);
    w, steps := Onward(steps, w, BeginCall);
    w, steps := Onward(steps, w, TryPark(EVENT, false, true));
  }

  /** Woken by another thread in the wait, a fiber has come back and parked again when the
      timeout of its first park runs, which ends the second. */
  lemma StaleTimeout() returns (steps: seq<Step>)
    ensures RunAll(START, steps).Some?
    ensures RunAll(START, steps).value.log ==
            [Park(0, Some(0)), Wake(0), Back(0, Some(0), false),
             Park(0, Some(1)), Ran(0, 0), Wake(0), Back(0, Some(1), true)]
  {
    hide RunAll, InWait;
    var w := ASLEEP;
    steps := FallsAsleep();
    w, steps := Onward(steps, w, Cancel(EVENT));
    w, steps := Onward(steps, w, ExpireOne(0));
    w, steps := Onward(steps, w, StartFiring);
    w, steps := Onward(steps, w, IdleEnd);
    w, steps := Onward(steps, w, Pop);
    w, steps := Onward(steps, w, TryPark(EVENT, true, true));
    w, steps := Onward(steps, w, Pop);
    w, steps := Onward(steps, w, Pop);
  }

  // ----- What the notes mean

  function Wakes(log: seq<Note>, f: Fiber): nat {
    if log == [] then 0 else Wakes(log[..|log| - 1], f) + (if log[|log| - 1] == Wake(f) then 1 else 0)
  }

  /** Since index `i`, where it parked with `timer`, fiber `f` was woken `wakes` times and has
      not come back; its timer's callback ran if `ran`. */
  ghost predicate Since(log: seq<Note>, f: Fiber, i: nat, timer: Option<TimerId>, wakes: nat, ran: bool) {
    && i < |log| && log[i] == Park(f, timer)
    && (forall j :: i < j < |log| ==> !(log[j].Park? && log[j].f == f) && !(log[j].Back? && log[j].f == f))
    && Wakes(log[i + 1..], f) == wakes
    && (ran <==> exists j :: i < j < |log| && log[j].Ran? && log[j].f == f && timer == Some(log[j].t))
  }

  lemma WakesSnoc(log: seq<Note>, i: nat, note: Note, f: Fiber)
    requires i <= |log|
    ensures Wakes((log + [note])[i..], f) == Wakes(log[i..], f) + (if note == Wake(f) then 1 else 0)
  {
    assert (log + [note])[i..] == log[i..] + [note];
    assert (log[i..] + [note])[..|log[i..] + [note]| - 1] == log[i..];
  }

  function WakesOf(v: View): nat { if v.Woken? then 1 else 0 }

  lemma SinceGrows(l: seq<Note>, f: Fiber, i: nat, u: View, note: Note, v: View)
    requires !u.Free? && Since(l, f, i, u.timer, WakesOf(u), u.ran)
    requires Follow(u, note, f) == Some(v) && !v.Free?
    ensures Since(l + [note], f, i, v.timer, WakesOf(v), v.ran)
  {
    var log, n := l + [note], |l|;
    WakesSnoc(l, i + 1, note, f);
    assert forall j :: 0 <= j < n ==> log[j] == l[j];
    assert log[n] == note && v.timer == u.timer;
    assert !(note.Park? && note.f == f) && !(note.Back? && note.f == f);
    if u.ran {
      var j :| i < j < n && l[j].Ran? && l[j].f == f && u.timer == Some(l[j].t);
      assert log[j].Ran?;
    }
    assert v.ran <==> u.ran || (note.Ran? && note.f == f && v.timer == Some(note.t));
    hide Wakes;
  }

  lemma SinceNow(l: seq<Note>, f: Fiber, timer: Option<TimerId>)
    ensures Since(l + [Park(f, timer)], f, |l|, timer, 0, false)
  {
    assert (l + [Park(f, timer)])[|l| + 1..] == [];
  }

  lemma {:induction false} SincePark(log: seq<Note>, f: Fiber)
    requires ViewOf(log, f).Some? && !ViewOf(log, f).value.Free?
    ensures var v := ViewOf(log, f).value; exists i: nat :: Since(log, f, i, v.timer, WakesOf(v), v.ran)
    decreases |log|
  {
    hide Since, Follow, WakesOf;
    var n := |log| - 1;
    var l, note, v := log[..n], log[n], ViewOf(log, f).value;
    var u := ViewOf(l, f).value;
    assert log == l + [note];
    if u.Free? {
      FreshPark(note, f, v);
      SinceNow(l, f, v.timer);
    } else {
      SincePark(l, f);
      var i: nat :| Since(l, f, i, u.timer, WakesOf(u), u.ran);
      SinceGrows(l, f, i, u, note, v);
    }
  }

  lemma FreshPark(note: Note, f: Fiber, v: View)
    requires Follow(Free, note, f) == Some(v) && !v.Free?
    ensures v == Waiting(v.timer, false) && note == Park(f, v.timer) && WakesOf(v) == 0
  {
  }

  // ----- The law of the notes

  lemma {:induction false} StartOfLog(log: seq<Note>, n: nat, f: Fiber)
    requires n <= |log| && ViewOf(log, f).Some?
    ensures ViewOf(log[..n], f).Some?
    decreases |log|
  {
    if n < |log| {
      assert log[..|log| - 1][..n] == log[..n];
      StartOfLog(log[..|log| - 1], n, f);
    } else {
      assert log[..n] == log;
    }
  }

  lemma LogGrows(w: World, w1: World, note: Note)
    requires LogFits(w) && w1.log == w.log + [note]
    requires forall f :: Follow(Seen(w, f), note, f) == Some(Seen(w1, f))
    ensures LogFits(w1)
  {
    assert w1.log[..|w1.log| - 1] == w.log;
    hide Follow, Seen;
  }

  lemma SameSeen(w: World, w1: World)
    requires LogFits(w) && w1.log == w.log && forall f :: Seen(w1, f) == Seen(w, f)
    ensures LogFits(w1)
  {
    hide Seen, ViewOf;
  }

  /** Nothing is seen of a step that changes no park and no slot. */
  lemma Unseen(w: World, w1: World)
    requires LogFits(w) && w1.log == w.log && w1.slots == w.slots && w1.parks == w.parks
    requires forall f <- w.parks :: (f in w.calls <==> f in w1.calls) && (f in w.calls ==> w1.calls[f] == w.calls[f])
    ensures LogFits(w1)
  {
    forall f ensures Seen(w1, f) == Seen(w, f) { }
    SameSeen(w, w1);
    hide LogFits;
  }

  lemma TriggerLog(w: World, slot: Slot)
    requires LogFits(w) && ParksFit(w)
    ensures LogFits(Trigger(w, slot))
  {
    if slot in w.slots {
      var w1, g := Trigger(w, slot), w.slots[slot];
      TriggerPlaces(w, slot);
      assert InSlot(w, g);
      forall f ensures Follow(Seen(w, f), Wake(g), f) == Some(Seen(w1, f)) { }
      LogGrows(w, w1, Wake(g));
    }
    hide LogFits, Places;
  }

  lemma ParkLog(w: World, slot: Slot, withTimer: bool, w1: World)
    requires Sound(w) && LogFits(w) && Next(w, TryPark(slot, withTimer, true)) == Some(w1)
    ensures LogFits(w1)
  {
    var g, timer := w.control.fiber, if withTimer then Some(w.nextTimer) else None;
    ParkIs(w, slot, withTimer, w1);
    ParkPlaces(w, g, slot, timer);
    assert g !in w.parks && !w.calls[g].cancelled;
    forall f ensures Follow(Seen(w, f), Park(g, timer), f) == Some(Seen(w1, f)) { }
    LogGrows(w, w1, Park(g, timer));
    hide LogFits, Conserved, Places, InSlot, Next;
  }

  lemma BackSeen(w: World, f: Fiber, g: Fiber)
    requires f in w.parks && f in w.calls && !InSlot(w, f) && w.queue != []
    requires InSlot(Popped(w, f), g) == InSlot(w, g)
    ensures Follow(Seen(w, g), Back(f, w.parks[f].timer, w.calls[f].cancelled), g) == Some(Seen(Popped(w, f), g))
  {
    hide InSlot;
  }

  lemma PoppedLog(w: World, f: Fiber)
    requires LogFits(w) && Conserved(w) && ParksFit(w)
    requires w.control == Main && w.queue != [] && w.queue[0] == Resume(f)
    ensures LogFits(Popped(w, f))
  {
    var w1 := Popped(w, f);
    HeadIsFiber(w, f);
    PoppedPlaces(w, f);
    if f in w.parks {
      var timer, cancelled := w.parks[f].timer, w.calls[f].cancelled;
      assert w1.log == w.log + [Back(f, timer, cancelled)];
      forall g ensures Follow(Seen(w, g), Back(f, timer, cancelled), g) == Some(Seen(w1, g)) { BackSeen(w, f, g); }
      LogGrows(w, w1, Back(f, timer, cancelled));
    } else {
      forall g ensures Seen(w1, g) == Seen(w, g) { }
      SameSeen(w, w1);
    }
    hide LogFits, Conserved, Places, InSlot, Follow;
  }

  lemma TimedOutLog(w: World, t: TimerId, o: Timeout)
    requires LogFits(w) && ParksFit(w) && w.control == Main && w.queue != [] && w.queue[0] == Expire(t, o)
    requires FindsCall(w, o)
    ensures !Stale(w, t, o) ==> LogFits(TimedOut(w, t, o))
    ensures Stale(w, t, o) ==> ViewOf(TimedOut(w, t, o).log, o.owner) == None
  {
    var w1 := TimedOut(w, t, o);
    TimedOutPlaces(w, t, o);
    assert o.owner in w.parks;
    if !Stale(w, t, o) {
      forall f ensures Follow(Seen(w, f), Ran(o.owner, t), f) == Some(Seen(w1, f)) { }
      LogGrows(w, w1, Ran(o.owner, t));
    } else {
      assert ViewOf(w.log, o.owner) == Some(Seen(w, o.owner));
      assert w1.log[..|w1.log| - 1] == w.log;
      assert Follow(Seen(w, o.owner), Ran(o.owner, t), o.owner) == None;
    }
    hide LogFits, Places, InSlot;
  }

  /** Whether the step is that of a stale timeout. */
  predicate StaleStep(w: World, step: Step) {
    && step == Pop && w.control == Main && w.queue != []
    && w.queue[0].Expire? && Stale(w, w.queue[0].timer, w.queue[0].timeout)
  }

  lemma OnlyPopIsStale(w: World, step: Step)
    ensures StaleStep(w, step) ==> step == Pop
  {
  }

  ghost predicate NoneStale(w: World, steps: seq<Step>)
    decreases |steps|
  {
    || steps == [] || Next(w, steps[0]).None?
    || (!StaleStep(w, steps[0]) && NoneStale(Next(w, steps[0]).value, steps[1..]))
  }

  /** Some fiber's notes have broken the law. */
  ghost predicate Broken(log: seq<Note>) { exists f :: ViewOf(log, f).None? }

  lemma BrokenStays(log: seq<Note>, more: seq<Note>)
    requires Broken(log) && log <= more
    ensures Broken(more)
  {
    var f :| ViewOf(log, f).None?;
    assert more[..|log|] == log;
    if ViewOf(more, f).Some? { StartOfLog(more, |log|, f); }
    hide ViewOf;
  }

  lemma PopLog(w: World, w1: World)
    requires Sound(w) && LogFits(w) && Next(w, Pop) == Some(w1)
    ensures if StaleStep(w, Pop) then Broken(w1.log) else LogFits(w1)
  {
    hide *;
    SoundIs(w);
    PopIs(w, w1);
    match w.queue[0] {
      case Resume(f) => PoppedLog(w, f); NotStale(w, f);
      case Expire(t, o) => TimeoutLog(w, t, o, w1);
    }
  }

  lemma NotStale(w: World, f: Fiber)
    requires w.queue != [] && w.queue[0] == Resume(f)
    ensures !StaleStep(w, Pop)
  {
  }

  lemma PopIs(w: World, w1: World)
    requires Next(w, Pop) == Some(w1)
    ensures w.control == Main && w.queue != [] && (w.queue[0].Resume? ==> w1 == Popped(w, w.queue[0].fiber))
    ensures w.queue[0].Expire? ==>
      w1 == RunTimeout(w.(queue := w.queue[1..]), w.queue[0].timer, w.queue[0].timeout)
  {
    hide RunFiber, RunTimeout, Resumable;
  }

  lemma TimeoutLog(w: World, t: TimerId, o: Timeout, w1: World)
    requires Sound(w) && LogFits(w) && w.control == Main && w.queue != [] && w.queue[0] == Expire(t, o)
    requires w1 == RunTimeout(w.(queue := w.queue[1..]), t, o)
    ensures if StaleStep(w, Pop) then Broken(w1.log) else LogFits(w1)
  {
    TimeoutIs(w, t, o);
    if FindsCall(w, o) {
      TimedOutLog(w, t, o);
      TimedOutSound(w, t, o);
      if Stale(w, t, o) {
        BrokenStays(TimedOut(w, t, o).log, w1.log);
      } else {
        TriggerLog(TimedOut(w, t, o), o.slot);
      }
    } else {
      Unseen(w, w1);
    }
    hide RunTimeout, StatesFit, Conserved, LogFits, ViewOf;
  }

  lemma OtherLog(w: World, step: Step, w1: World)
    requires Sound(w) && LogFits(w) && Next(w, step) == Some(w1)
    requires !step.Pop? && !step.Fire? && !step.Cancel? && !(step.TryPark? && step.epollOk)
    ensures LogFits(w1)
  {
    assert w.control.User? ==> w.control.fiber !in w.parks;
    Unseen(w, w1);
    hide StatesFit, Conserved, ParksFit, LogFits, Trigger, RunFiber, RunTimeout;
  }

  lemma StepLog(w: World, step: Step, w1: World)
    requires Sound(w) && LogFits(w) && Next(w, step) == Some(w1)
    ensures if StaleStep(w, step) then Broken(w1.log) else LogFits(w1)
  {
    hide *;
    SoundIs(w);
    if step == Pop {
      PopLog(w, w1);
    } else {
      OnlyPopIsStale(w, step);
      match step {
        case Fire(slot) => FireIs(w, slot, w1); TriggerLog(w, slot);
        case Cancel(slot) => CancelIs(w, slot, w1); TriggerLog(w, slot);
        case TryPark(slot, withTimer, epollOk) =>
          if epollOk { ParkLog(w, slot, withTimer, w1); } else { OtherLog(w, step, w1); }
        case _ => OtherLog(w, step, w1);
      }
    }
  }

  lemma StepAppends(w: World, step: Step, w1: World)
    requires Next(w, step) == Some(w1)
    ensures w.log <= w1.log
  {
    if step == Pop {
      PopIs(w, w1);
    } else {
      OthersAppend(w, step, w1);
    }
    hide Next;
  }

  lemma OthersAppend(w: World, step: Step, w1: World)
    requires Next(w, step) == Some(w1) && step != Pop
    ensures w.log <= w1.log
  {
    hide RunTimeout, RunFiber;
  }

  lemma {:induction false} RunAppends(w: World, steps: seq<Step>)
    requires RunAll(w, steps).Some?
    ensures w.log <= RunAll(w, steps).value.log
    decreases |steps|
  {
    hide Next;
    if steps != [] {
      StepAppends(w, steps[0], Next(w, steps[0]).value);
      RunAppends(Next(w, steps[0]).value, steps[1..]);
    }
  }

  lemma {:induction false} RunFollows(w: World, steps: seq<Step>)
    requires Sound(w) && LogFits(w) && RunAll(w, steps).Some?
    ensures var w1 := RunAll(w, steps).value; if NoneStale(w, steps) then LogFits(w1) else Broken(w1.log)
    decreases |steps|
  {
    hide Sound, LogFits, Next, StaleStep, Broken;
    if steps != [] {
      var w1 := Next(w, steps[0]).value;
      StepSound(w, steps[0], w1);
      StepLog(w, steps[0], w1);
      if StaleStep(w, steps[0]) {
        RunAppends(w1, steps[1..]);
        BrokenStays(w1.log, RunAll(w, steps).value.log);
      } else {
        RunFollows(w1, steps[1..]);
      }
    }
  }

  lemma FitsOrBroken(w: World)
    ensures LogFits(w) ==> forall f :: ViewOf(w.log, f).Some?
    ensures Broken(w.log) ==> !forall f :: ViewOf(w.log, f).Some?
  {
    hide ViewOf, Seen;
  }

  /** On every run: each fiber's notes follow the law exactly when no stale timeout was run. */
  lemma LawHolds(steps: seq<Step>)
    requires RunAll(START, steps).Some?
    ensures (forall f :: ViewOf(RunAll(START, steps).value.log, f).Some?) <==> NoneStale(START, steps)
  {
    hide *;
    StartIsSound();
    RunFollows(START, steps);
    FitsOrBroken(RunAll(START, steps).value);
  }

  lemma CurrentIsFresh(w: World, t: TimerId, o: Timeout)
    requires Current(w, t, o)
    ensures !Stale(w, t, o)
  {
  }

  lemma HeadIsCurrent(w: World, step: Step)
    requires Timely(w)
    ensures !StaleStep(w, step)
  {
    if w.queue != [] && w.queue[0].Expire? {
      assert w.queue[0] in w.queue;
      CurrentIsFresh(w, w.queue[0].timer, w.queue[0].timeout);
    }
    hide Current, Stale;
  }

  lemma {:induction false} RunIsFresh(w: World, steps: seq<Step>)
    requires Sound(w) && Timely(w) && NoCancel(InWait(w, steps))
    ensures NoneStale(w, steps)
    decreases |steps|
  {
    hide Sound, Timely, Next, StaleStep;
    if steps != [] && Next(w, steps[0]).Some? {
      var w1 := Next(w, steps[0]).value;
      HeadIsCurrent(w, steps[0]);
      StepSound(w, steps[0], w1);
      StepTimely(w, steps[0], w1);
      RunIsFresh(w1, steps[1..]);
    }
  }

  /** No timeout is stale while nothing is cancelled in the wait of an idle pass. */
  lemma NoCancelIsFresh(steps: seq<Step>)
    requires NoCancel(InWait(START, steps))
    ensures NoneStale(START, steps)
  {
    StartIsSound();
    RunIsFresh(START, steps);
    hide InWait, NoneStale, Sound, Timely;
  }

  /** Every return from a park: it was woken exactly once since, and it timed out if and only
      if the timeout of that very park had come. */
  lemma BackTellsTheTruth(steps: seq<Step>, n: nat, f: Fiber, timer: Option<TimerId>, timedOut: bool)
    requires RunAll(START, steps).Some? && NoneStale(START, steps)
    requires var log := RunAll(START, steps).value.log; n < |log| && log[n] == Back(f, timer, timedOut)
    ensures exists i: nat :: Since(RunAll(START, steps).value.log[..n], f, i, timer, 1, timedOut)
  {
    var log := RunAll(START, steps).value.log;
    LawHolds(steps);
    StartOfLog(log, n + 1, f);
    assert log[..n + 1][..n] == log[..n];
    SincePark(log[..n], f);
    hide RunAll, NoneStale, Since;
  }
}
