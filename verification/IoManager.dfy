/** Descriptor events: the slots they are armed in, the kernel's interest set, and the pass
    that turns ready descriptors into tasks. */
module IoManager {
  import opened Wrappers

  datatype Event = READ | WRITE

  /** A bitmask of events. */
  datatype Events = Events(read: bool, write: bool)

  const NONE := Events(false, false)

  predicate Has(es: Events, e: Event) { if e == READ then es.read else es.write }

  function With(es: Events, e: Event): Events { if e == READ then es.(read := true) else es.(write := true) }

  function Minus(es: Events, e: Event): Events { if e == READ then es.(read := false) else es.(write := false) }

  function Count(es: Events): nat { (if es.read then 1 else 0) + (if es.write then 1 else 0) }

  type Fiber = nat
  type Callback = nat

  /** What a worker takes from the queue. */
  datatype Task = Resume(fiber: Fiber) | Call(cb: Callback)

  /** `EventContext`; the scheduler is there or not. */
  datatype Slot = Slot(scheduler: bool, fiber: Option<Fiber>, cb: Option<Callback>)

  const EMPTY := Slot(false, None, None)

  /** What triggering the slot schedules: a callback comes before the fiber. */
  function TaskOf(s: Slot): Option<Task> {
    if s.cb.Some? then Some(Call(s.cb.value)) else if s.fiber.Some? then Some(Resume(s.fiber.value)) else None
  }

  /** The slot after addEvent: a callback an earlier event left there stays. */
  function Armed(s: Slot, cb: Option<Callback>, running: Fiber): Slot {
    if cb.Some? then Slot(true, s.fiber, cb) else Slot(true, Some(running), s.cb)
  }

  datatype ContextState = ContextState(events: Events, read: Slot, write: Slot)

  /** A context with all its events let go of. */
  function Released(c: ContextState): ContextState {
    ContextState(NONE,
                 if c.events.read then c.read.(scheduler := false) else c.read,
                 if c.events.write then c.write.(scheduler := false) else c.write)
  }

  class FdContext {
    const fd: nat
    var events: Events
    var read: Slot
    var write: Slot

    constructor (fd: nat)
      ensures this.fd == fd && events == NONE && read == EMPTY && write == EMPTY
    {
      this.fd := fd;
      events, read, write := NONE, EMPTY, EMPTY;
    }

    function Now(): ContextState
      reads this
    {
      ContextState(events, read, write)
    }

    function SlotOf(e: Event): Slot
      reads this
    {
      if e == READ then read else write
    }

    /** A slot has a scheduler, and something to schedule, while its event is armed. */
    predicate Fits()
      reads this
    {
      && read.scheduler == events.read && write.scheduler == events.write
      && (events.read ==> TaskOf(read).Some?) && (events.write ==> TaskOf(write).Some?)
    }

    method SetSlot(e: Event, s: Slot)
      modifies this`read, this`write
      ensures read == (if e == READ then s else old(read)) && write == (if e == WRITE then s else old(write))
    {
      if e == READ { read := s; } else { write := s; }
    }
  }

  /** The tasks of armed events, a read before a write. */
  function TasksOf(es: Events, read: Slot, write: Slot): seq<Task> {
    (if es.read && TaskOf(read).Some? then [TaskOf(read).value] else [])
    + (if es.write && TaskOf(write).Some? then [TaskOf(write).value] else [])
  }

  function Both(a: Events, b: Events): Events { Events(a.read && b.read, a.write && b.write) }

  /** `a & ~b` */
  function Except(a: Events, b: Events): Events { Events(a.read && !b.read, a.write && !b.write) }

  /** What epoll_wait reports of a context. */
  datatype Report = Report(fd: nat, input: bool, output: bool, errorOrHangup: bool)

  /** An error or a hangup counts as both events. */
  function Ready(r: Report): Events { Events(r.input || r.errorOrHangup, r.output || r.errorOrHangup) }

  /** Whether a report makes the pass trigger an event nobody waits for. */
  predicate Overshoots(r: Report, registered: Events) {
    Both(registered, Ready(r)) != NONE && Except(Ready(r), registered) != NONE
  }

  /** What becomes of a report: handled, or a null pointer followed, or one event too many
      counted as let go of. */
  datatype HandleResult = Fine | NullScheduler | Miscounted

  /** Whether one of these slots still holds a callback or a fiber. */
  predicate HoldsAny(es: Events, c: ContextState) {
    (es.read && TaskOf(c.read).Some?) || (es.write && TaskOf(c.write).Some?)
  }

  /** An unsigned count that wraps. */
  function OneLess(n: int): int { if n == 0 then TWO_64 - 1 else n - 1 }

  /** A context after the pass has acted on `e`. */
  function Handled(c: ContextState, e: Events): ContextState {
    var es := Both(c.events, e);
    ContextState(Except(c.events, e),
                 if es.read then c.read.(scheduler := false) else c.read,
                 if es.write then c.write.(scheduler := false) else c.write)
  }

  function HandledAll(cs: seq<ContextState>, reports: seq<Report>): (r: seq<ContextState>)
    requires forall r <- reports :: r.fd < |cs|
    ensures |r| == |cs|
  {
    if reports == [] then cs
    else
      var last := reports[|reports| - 1];
      HandledAll(cs, reports[..|reports| - 1])[last.fd := Handled(cs[last.fd], Ready(last))]
  }

  /** What the pass schedules, in the order of the reports. */
  function TasksOfAll(cs: seq<ContextState>, reports: seq<Report>): seq<Task>
    requires forall r <- reports :: r.fd < |cs|
  {
    if reports == [] then []
    else
      var last := reports[|reports| - 1];
      var c := cs[last.fd];
      TasksOfAll(cs, reports[..|reports| - 1]) + TasksOf(Both(c.events, Ready(last)), c.read, c.write)
  }

  /** A context is as it was until its report's turn. */
  lemma {:induction false} NotYetHandled(cs: seq<ContextState>, reports: seq<Report>, fd: nat)
    requires (forall r <- reports :: r.fd < |cs| && r.fd != fd) && fd < |cs|
    ensures HandledAll(cs, reports)[fd] == cs[fd]
    decreases |reports|
  {
    hide Handled;
    if reports != [] { NotYetHandled(cs, reports[..|reports| - 1], fd); }
  }

  /** What a slot has to schedule. */
  function Scheduled(s: Slot): seq<Task> { if TaskOf(s).Some? then [TaskOf(s).value] else [] }

  /** What a report means for a context: input lets go of who reads, output of who writes, an error
      or a hangup of both; and it goes wrong if it names, beside one that is armed, another event. */
  lemma ReportMeans(c: ContextState, r: Report)
    ensures TasksOf(Both(c.events, Ready(r)), c.read, c.write) ==
            (if c.events.read && (r.input || r.errorOrHangup) then Scheduled(c.read) else [])
            + (if c.events.write && (r.output || r.errorOrHangup) then Scheduled(c.write) else [])
    ensures var c1 := Handled(c, Ready(r));
      && c1.events.read == (c.events.read && !r.input && !r.errorOrHangup)
      && c1.events.write == (c.events.write && !r.output && !r.errorOrHangup)
      && c1.read.fiber == c.read.fiber && c1.read.cb == c.read.cb
      && c1.write.fiber == c.write.fiber && c1.write.cb == c.write.cb
    ensures var read, write := r.input || r.errorOrHangup, r.output || r.errorOrHangup;
      Overshoots(r, c.events) <==>
      ((read && c.events.read) || (write && c.events.write)) && ((read && !c.events.read) || (write && !c.events.write))
  {
  }

  /** What is to become of a context and what is to be scheduled for a report. */
  predicate Served(c: ContextState, c1: ContextState, r: Report, tasks: seq<Task>) {
    && c1.events.read == (c.events.read && !r.input && !r.errorOrHangup)
    && c1.events.write == (c.events.write && !r.output && !r.errorOrHangup)
    && tasks == (if c.events.read && (r.input || r.errorOrHangup) then Scheduled(c.read) else [])
                + (if c.events.write && (r.output || r.errorOrHangup) then Scheduled(c.write) else [])
  }

  lemma ReportServed(c: ContextState, r: Report)
    ensures Served(c, Handled(c, Ready(r)), r, TasksOf(Both(c.events, Ready(r)), c.read, c.write))
  {
    ReportMeans(c, r);
    hide Handled, Ready, Both, TasksOf, Scheduled;
  }

  function Flat(parts: seq<seq<Task>>): seq<Task> {
    if parts == [] then [] else Flat(parts[..|parts| - 1]) + parts[|parts| - 1]
  }

  /** A pass over the reports, each served with its part of the tasks; who is not reported stays. */
  ghost predicate PassServes(cs: seq<ContextState>, cs1: seq<ContextState>, reports: seq<Report>,
                             parts: seq<seq<Task>>)
  {
    && |cs1| == |cs| && |parts| == |reports|
    && (forall i :: 0 <= i < |reports| ==>
          reports[i].fd < |cs| && Served(cs[reports[i].fd], cs1[reports[i].fd], reports[i], parts[i]))
    && (forall fd :: 0 <= fd < |cs| && (forall r <- reports :: r.fd != fd) ==> cs1[fd] == cs[fd])
  }

  lemma NoPass(cs: seq<ContextState>)
    ensures PassServes(cs, cs, [], []) && Flat([]) == []
  {
  }

  lemma PassGoesOn(cs: seq<ContextState>, cs1: seq<ContextState>, reports: seq<Report>, parts: seq<seq<Task>>, r: Report)
    requires PassServes(cs, cs1, reports, parts) && r.fd < |cs| && cs1[r.fd] == cs[r.fd]
    requires forall q <- reports :: q.fd != r.fd
    ensures var c := cs[r.fd];
      var part := TasksOf(Both(c.events, Ready(r)), c.read, c.write);
      && PassServes(cs, cs1[r.fd := Handled(c, Ready(r))], reports + [r], parts + [part])
      && Flat(parts + [part]) == Flat(parts) + part
  {
    hide Ready, Both, TasksOf, Handled, Served;
    var c, n := cs[r.fd], |reports|;
    var part := TasksOf(Both(c.events, Ready(r)), c.read, c.write);
    ReportServed(c, r);
    assert (parts + [part])[..|parts + [part]| - 1] == parts;
    assert forall i :: 0 <= i < n ==> reports[i] in reports;
    forall fd | 0 <= fd < |cs| && (forall q <- reports + [r] :: q.fd != fd)
      ensures cs1[r.fd := Handled(c, Ready(r))][fd] == cs[fd]
    {
      assert r in reports + [r] && forall q <- reports :: q in reports + [r];
    }
  }

  predicate IsNew(c: FdContext)
    reads c
  {
    c.events == NONE && c.read == EMPTY && c.write == EMPTY
  }

  // ----- Sums over the contexts

  function Sum(es: seq<Events>): nat {
    if es == [] then 0 else Sum(es[..|es| - 1]) + Count(es[|es| - 1])
  }

  lemma {:induction false} SumUpdate(es: seq<Events>, i: nat, e: Events)
    requires i < |es|
    ensures Sum(es[i := e]) + Count(es[i]) == Sum(es) + Count(e)
    decreases |es|
  {
    var n := |es| - 1;
    if i == n {
      assert es[i := e][..n] == es[..n];
    } else {
      assert es[i := e][..n] == es[..n][i := e];
      SumUpdate(es[..n], i, e);
    }
  }

  ghost function EventsOf(cs: seq<FdContext>): (es: seq<Events>)
    reads cs`events
    ensures |es| == |cs| && forall i :: 0 <= i < |cs| ==> es[i] == cs[i].events
  {
    if cs == [] then []
    else
      assert forall c <- cs[..|cs| - 1] :: c in cs;
      EventsOf(cs[..|cs| - 1]) + [cs[|cs| - 1].events]
  }

  /** The kernel is asked for exactly the events that are armed. */
  ghost predicate Mirrors(interest: map<nat, Events>, es: seq<Events>) {
    && (forall fd: nat :: fd in interest <==> fd < |es| && es[fd] != NONE)
    && (forall fd: nat :: fd in interest && fd < |es| ==> interest[fd] == es[fd])
  }

  /** EPOLL_CTL_ADD, EPOLL_CTL_MOD and EPOLL_CTL_DEL */
  datatype CtlOp = ADD | MOD | DEL

  /** What epoll_ctl is asked for, and its answer. */
  datatype Ctl = Ctl(op: CtlOp, fd: nat, es: Events, ok: bool)

  /** A descriptor can be added once, and what is not there can be neither changed nor deleted. */
  predicate Legal(interest: map<nat, Events>, op: CtlOp, fd: nat) { op == ADD <==> fd !in interest }

  function Asked(interest: map<nat, Events>, op: CtlOp, fd: nat, es: Events): map<nat, Events> {
    if op == DEL then interest - {fd} else interest[fd := es]
  }

  /** The interest set after what was asked for; `None` if any of it was not legal. */
  function Kernel(asked: seq<Ctl>): Option<map<nat, Events>> {
    if asked == [] then Some(map[])
    else
      var last := asked[|asked| - 1];
      match Kernel(asked[..|asked| - 1])
      case None => None
      case Some(interest) =>
        if !Legal(interest, last.op, last.fd) then None
        else Some(if last.ok then Asked(interest, last.op, last.fd, last.es) else interest)
  }

  lemma KernelGrows(asked: seq<Ctl>, c: Ctl, interest: map<nat, Events>)
    requires Kernel(asked) == Some(interest) && Legal(interest, c.op, c.fd)
    ensures Kernel(asked + [c]) == Some(if c.ok then Asked(interest, c.op, c.fd, c.es) else interest)
  {
    assert (asked + [c])[..|asked + [c]| - 1] == asked;
    hide Legal, Asked;
  }

  /** The source's choice: an event more, and events left over. */
  function OpToAdd(events: Events): CtlOp { if events != NONE then MOD else ADD }

  function OpToLeave(left: Events): CtlOp { if left != NONE then MOD else DEL }

  lemma ChoiceIsLegal(interest: map<nat, Events>, es: seq<Events>, fd: nat)
    requires Mirrors(interest, es) && fd < |es|
    ensures Legal(interest, OpToAdd(es[fd]), fd)
    ensures es[fd] != NONE ==> Legal(interest, MOD, fd) && Legal(interest, DEL, fd)
  {
  }

  lemma MirrorsUpdate(interest: map<nat, Events>, es: seq<Events>, op: CtlOp, fd: nat, e: Events)
    requires Mirrors(interest, es) && fd < |es| && (op == DEL <==> e == NONE)
    ensures Mirrors(Asked(interest, op, fd, e), es[fd := e])
  {
  }

  lemma MirrorsGrows(interest: map<nat, Events>, es: seq<Events>)
    requires Mirrors(interest, es)
    ensures Mirrors(interest, es + [NONE])
  {
  }

  /** What becomes of addEvent.  `Aborted`: the event is there already, an assertion of the
      source.  `OutOfBounds`: the vector was not made long enough for the descriptor. */
  datatype AddResult = Done | Failed | Aborted | OutOfBounds

  class IOManager {
    /** m_fdContexts, whose slots all point somewhere. */
    var contexts: seq<FdContext>
    var pending: nat
    /** The queue of the scheduler. */
    var queue: seq<Task>
    /** The kernel's interest set, and what has happened so far. */
    ghost var interest: map<nat, Events>
    ghost var asked: seq<Ctl>
    ghost var added: nat
    ghost var fired: nat
    ghost var deleted: nat

    /** Slot `i` of the vector is for descriptor `i`. */
    ghost predicate Indexed()
      reads this
    {
      && (forall i :: 0 <= i < |contexts| ==> contexts[i].fd == i)
      && (forall i, j :: 0 <= i < j < |contexts| ==> contexts[i] != contexts[j])
    }

    /** What is armed is counted. */
    ghost predicate Counted()
      reads this, contexts
    {
      && Indexed() && (forall c <- contexts :: c.Fits())
      && pending == Sum(EventsOf(contexts)) && added == fired + deleted + pending
    }

    /** The kernel waits for what is armed, and was asked for nothing illegal. */
    ghost predicate InStep()
      reads this, contexts`events
    {
      Mirrors(interest, EventsOf(contexts)) && Kernel(asked) == Some(interest)
    }

    ghost predicate Valid()
      reads this, contexts
    {
      Counted() && InStep()
    }

    constructor ()
      ensures Valid() && contexts == [] && pending == 0 && queue == [] && interest == map[] && asked == []
    {
      contexts, pending, queue, interest, asked := [], 0, [], map[], [];
      added, fired, deleted := 0, 0, 0;
    }

    method OneMore()
      requires Valid()
      modifies this`contexts
      ensures Valid() && |contexts| == |old(contexts)| + 1 && old(contexts) <= contexts
      ensures fresh(contexts[|old(contexts)|]) && IsNew(contexts[|old(contexts)|])
    {
      hide Mirrors, Sum, EventsOf;
      ghost var was := contexts;
      var c := new FdContext(|contexts|);
      MirrorsGrows(interest, EventsOf(was));
      OneMoreContext(was, c);
      contexts := contexts + [c];
    }

    /** `fdContextsResize`, for a size that is not smaller. */
    method Resize(size: nat)
      requires Valid() && |contexts| <= size
      modifies this`contexts
      ensures Valid() && |contexts| == size && old(contexts) <= contexts
      ensures forall i :: |old(contexts)| <= i < size ==> IsNew(contexts[i]) && fresh(contexts[i])
    {
      hide *;
      var k := |contexts|;
      while |contexts| < size
        invariant k <= |contexts| <= size && old(contexts) <= contexts
        invariant forall i :: k <= i < |contexts| ==> IsNew(contexts[i]) && fresh(contexts[i])
        invariant Valid()
      {
        OneMore();
      }
    }

    /** The context of `fd`, made if it is not there: one and a half times `fd` slots hold slot
        `fd` from 2 on only. */
    method ContextFor(fd: nat) returns (c: Option<FdContext>)
      requires Valid()
      modifies this`contexts
      ensures Valid() && old(contexts) <= contexts
      ensures forall i :: |old(contexts)| <= i < |contexts| ==> fresh(contexts[i]) && IsNew(contexts[i])
      ensures c == None <==> |old(contexts)| <= fd < 2
      ensures c.Some? ==> fd < |contexts| && contexts[fd] == c.value
      ensures |contexts| ==
        if |old(contexts)| > fd || fd * 3 / 2 <= |old(contexts)| then |old(contexts)| else fd * 3 / 2
    {
      hide *;
      if |contexts| <= fd {
        // resize(1) for descriptor 1 and resize(0) for descriptor 0 leave no slot for them
        if fd * 3 / 2 >= |contexts| { Resize(fd * 3 / 2); }
      }
      c := if fd < |contexts| then Some(contexts[fd]) else None;
    }

    /** `Scheduler::schedule` of a fiber, or of a callback. */
    method Schedule(task: Task)
      requires Valid()
      modifies this`queue
      ensures Valid() && queue == old(queue) + [task]
    {
      hide Mirrors, Sum, EventsOf, Kernel;
      queue := queue + [task];
    }

    /** What `Scheduler::run` takes from the front of its list. */
    method Take() returns (task: Task)
      requires Valid() && queue != []
      modifies this`queue
      ensures Valid() && task == old(queue[0]) && queue == old(queue[1..])
    {
      hide Mirrors, Sum, EventsOf, Kernel;
      task, queue := queue[0], queue[1..];
    }

    /** epoll_ctl, with the kernel's answer to a legal request. */
    method EpollCtl(op: CtlOp, fd: nat, es: Events, answer: bool) returns (ok: bool)
      requires Kernel(asked) == Some(interest) && Legal(interest, op, fd)
      modifies this`interest, this`asked
      ensures ok == answer && Kernel(asked) == Some(interest) && asked == old(asked) + [Ctl(op, fd, es, ok)]
      ensures interest == if ok then Asked(old(interest), op, fd, es) else old(interest)
    {
      hide Kernel, Legal, Asked;
      KernelGrows(asked, Ctl(op, fd, es, answer), interest);
      interest := if answer then Asked(interest, op, fd, es) else interest;
      asked := asked + [Ctl(op, fd, es, answer)];
      return answer;
    }

    /** An event of a context changed, with its slot, and the sum of what is armed. */
    method SetEvents(c: FdContext, ghost fd: nat, es: Events)
      requires fd < |contexts| && contexts[fd] == c && Indexed()
      modifies c`events
      ensures c.events == es && EventsOf(contexts) == old(EventsOf(contexts))[fd := es]
      ensures Sum(EventsOf(contexts)) + Count(old(c.events)) == old(Sum(EventsOf(contexts))) + Count(es)
    {
      hide Sum, EventsOf, Count;
      ghost var was := EventsOf(contexts);
      SumUpdate(was, fd, es);
      c.events := es;
      assert EventsOf(contexts) == was[fd := es];
    }

    /** `addEvent`; without a callback the event is for the running fiber.  `epollOk` is the
        kernel's answer. */
    method AddEvent(fd: nat, e: Event, cb: Option<Callback>, running: Fiber, epollOk: bool) returns (r: AddResult)
      requires Valid()
      modifies this, if fd < |contexts| then {contexts[fd]} else {}
      ensures Valid() && queue == old(queue) && old(contexts) <= contexts
      ensures forall i :: |old(contexts)| <= i < |contexts| ==> fresh(contexts[i])
      ensures forall i :: |old(contexts)| <= i < |contexts| && (i != fd || r != Done) ==> IsNew(contexts[i])
      ensures r == OutOfBounds <==> |old(contexts)| <= fd < 2
      ensures r == Aborted <==> fd < |old(contexts)| && Has(old(contexts[fd].events), e)
      ensures r == Failed ==> !epollOk
      ensures r == Done ==>
        && epollOk && fd < |contexts|
        && contexts[fd].events == With(if fd < |old(contexts)| then old(contexts[fd].events) else NONE, e)
        && pending == old(pending) + 1 && added == old(added) + 1
        && contexts[fd].SlotOf(e)
           == Armed(if fd < |old(contexts)| then old(contexts[fd].SlotOf(e)) else EMPTY, cb, running)
      ensures fd < |old(contexts)| ==> forall f :: f != e ==> contexts[fd].SlotOf(f) == old(contexts[fd].SlotOf(f))
      ensures r == Done && fd >= |old(contexts)| ==> forall f :: f != e ==> contexts[fd].SlotOf(f) == EMPTY
      ensures r != Done ==> pending == old(pending) && added == old(added) && interest == old(interest)
      ensures r != Done && fd < |old(contexts)| ==> contexts[fd].Now() == old(contexts[fd].Now())
      ensures fired == old(fired) && deleted == old(deleted)
      ensures r == Done || r == Failed ==>
                var events := if fd < |old(contexts)| then old(contexts[fd].events) else NONE;
                asked == old(asked) + [Ctl(if events != NONE then MOD else ADD, fd, With(events, e), epollOk)]
    {
      hide Valid, Mirrors, Sum, EventsOf, Kernel, Armed;
      var found := ContextFor(fd);
      if found == None { return OutOfBounds; }
      Distinct();
      r := AddTo(found.value, fd, e, cb, running, epollOk);
    }

    /** `addEvent` from where the context is found. */
    method AddTo(c: FdContext, fd: nat, e: Event, cb: Option<Callback>, running: Fiber, epollOk: bool)
      returns (r: AddResult)
      requires Valid() && fd < |contexts| && contexts[fd] == c
      modifies this`interest, this`asked, this`pending, this`added, c
      ensures Valid() && r != OutOfBounds
      ensures r == Aborted <==> Has(old(c.events), e)
      ensures r == Failed ==> !epollOk
      ensures r == Done ==>
        && epollOk && c.events == With(old(c.events), e) && c.SlotOf(e) == Armed(old(c.SlotOf(e)), cb, running)
        && pending == old(pending) + 1 && added == old(added) + 1
      ensures forall f :: f != e ==> c.SlotOf(f) == old(c.SlotOf(f))
      ensures r != Done ==>
        pending == old(pending) && added == old(added) && interest == old(interest) && c.Now() == old(c.Now())
      ensures r == Done || r == Failed ==>
                var op := if old(c.events) != NONE then MOD else ADD;
                asked == old(asked) + [Ctl(op, fd, With(old(c.events), e), epollOk)]
    {
      hide Mirrors, Sum, EventsOf, Kernel, Legal, Asked;
      if Has(c.events, e) { return Aborted; }
      ghost var was, before := EventsOf(contexts), interest;
      ChoiceIsLegal(interest, was, fd);
      var ok := EpollCtl(OpToAdd(c.events), fd, With(c.events, e), epollOk);
      if !ok { return Failed; }
      MirrorsUpdate(before, was, OpToAdd(c.events), fd, With(c.events, e));
      Arm(c, fd, e, Armed(c.SlotOf(e), cb, running));
      return Done;
    }

    /** Event and slot set, and counted. */
    method Arm(c: FdContext, ghost fd: nat, e: Event, s: Slot)
      requires Counted() && fd < |contexts| && contexts[fd] == c && !Has(c.events, e)
      requires s.scheduler && TaskOf(s).Some?
      modifies this`pending, this`added, c
      ensures Counted() && pending == old(pending) + 1 && added == old(added) + 1
      ensures c.events == With(old(c.events), e) && c.SlotOf(e) == s
      ensures forall f :: f != e ==> c.SlotOf(f) == old(c.SlotOf(f))
      ensures EventsOf(contexts) == old(EventsOf(contexts))[fd := c.events]
    {
      hide Sum, EventsOf;
      SetEvents(c, fd, With(c.events, e));
      pending, added := pending + 1, added + 1;
      c.SetSlot(e, s);
    }

    /** An armed event let go of, its slot set to `s`. */
    method Disarm(c: FdContext, ghost fd: nat, e: Event, s: Slot, ghost fires: bool)
      requires Counted() && fd < |contexts| && contexts[fd] == c && Has(c.events, e) && !s.scheduler
      modifies this`pending, this`fired, this`deleted, c
      ensures Counted() && pending == old(pending) - 1
      ensures fired == (if fires then old(fired) + 1 else old(fired))
      ensures deleted == (if fires then old(deleted) else old(deleted) + 1)
      ensures c.events == Minus(old(c.events), e) && c.SlotOf(e) == s
      ensures forall f :: f != e ==> c.SlotOf(f) == old(c.SlotOf(f))
      ensures EventsOf(contexts) == old(EventsOf(contexts))[fd := c.events]
    {
      hide Sum, EventsOf;
      SetEvents(c, fd, Minus(c.events, e));
      pending := pending - 1;
      if fires { fired := fired + 1; } else { deleted := deleted + 1; }
      c.SetSlot(e, s);
    }

    /** `triggerEvent` of an armed event, and its count. */
    method Trigger(c: FdContext, ghost fd: nat, e: Event)
      requires Counted() && fd < |contexts| && contexts[fd] == c && Has(c.events, e)
      modifies this`pending, this`fired, this`deleted, this`queue, c
      ensures Counted() && pending == old(pending) - 1 && fired == old(fired) + 1 && deleted == old(deleted)
      ensures c.events == Minus(old(c.events), e) && c.SlotOf(e) == old(c.SlotOf(e)).(scheduler := false)
      ensures forall f :: f != e ==> c.SlotOf(f) == old(c.SlotOf(f))
      ensures old(TaskOf(c.SlotOf(e))).Some? && queue == old(queue) + [old(TaskOf(c.SlotOf(e))).value]
      ensures EventsOf(contexts) == old(EventsOf(contexts))[fd := c.events]
    {
      hide Sum, EventsOf;
      assert c.Fits();
      var s := c.SlotOf(e);
      queue := queue + [TaskOf(s).value];
      Disarm(c, fd, e, s.(scheduler := false), true);
    }

    /** The events left over of a context, asked of the kernel. */
    method AskForLeft(c: FdContext, ghost fd: nat, left: Events, answer: bool) returns (ok: bool)
      requires InStep() && fd < |contexts| && contexts[fd] == c && c.events != NONE && c.fd == fd
      modifies this`interest, this`asked
      ensures ok == answer && Kernel(asked) == Some(interest)
      ensures asked == old(asked) + [Ctl(if left != NONE then MOD else DEL, fd, left, answer)]
      ensures if ok then Mirrors(interest, EventsOf(contexts)[fd := left]) else interest == old(interest)
    {
      hide Mirrors, EventsOf, Kernel, Legal, Asked;
      ChoiceIsLegal(interest, EventsOf(contexts), fd);
      ghost var before := interest;
      ok := EpollCtl(OpToLeave(left), c.fd, left, answer);
      MirrorsUpdate(before, EventsOf(contexts), OpToLeave(left), fd, left);
    }

    /** `delEvent`: nothing is scheduled. */
    method DelEvent(fd: nat, e: Event, epollOk: bool) returns (ok: bool)
      requires Valid()
      modifies this`interest, this`asked, this`pending, this`deleted, this`fired,
        if fd < |contexts| then {contexts[fd]} else {}
      ensures Valid() && fired == old(fired)
      ensures fd < |contexts| ==> forall f :: f != e ==> contexts[fd].SlotOf(f) == old(contexts[fd].SlotOf(f))
      ensures ok <==> fd < |contexts| && Has(old(contexts[fd].events), e) && epollOk
      ensures ok ==> contexts[fd].events == Minus(old(contexts[fd].events), e) && contexts[fd].SlotOf(e) == EMPTY
      ensures ok ==> pending == old(pending) - 1 && deleted == old(deleted) + 1
      ensures !ok ==> pending == old(pending) && deleted == old(deleted) && interest == old(interest)
      ensures !ok && fd < |contexts| ==> contexts[fd].Now() == old(contexts[fd].Now())
      ensures fd < |contexts| && Has(old(contexts[fd].events), e) ==>
        var left := Minus(old(contexts[fd].events), e);
        asked == old(asked) + [Ctl(if left != NONE then MOD else DEL, fd, left, epollOk)]
    {
      hide Mirrors, Sum, EventsOf, Kernel;
      if |contexts| <= fd { return false; }
      var c := contexts[fd];
      if !Has(c.events, e) { return false; }
      ok := AskForLeft(c, fd, Minus(c.events, e), epollOk);
      if ok { Disarm(c, fd, e, EMPTY, false); }
    }

    /** `cancelEvent`: what waits in the slot is scheduled. */
    method CancelEvent(fd: nat, e: Event, epollOk: bool) returns (ok: bool)
      requires Valid()
      modifies this`interest, this`asked, this`pending, this`deleted, this`fired, this`queue,
        if fd < |contexts| then {contexts[fd]} else {}
      ensures Valid() && deleted == old(deleted)
      ensures fd < |contexts| ==> forall f :: f != e ==> contexts[fd].SlotOf(f) == old(contexts[fd].SlotOf(f))
      ensures ok <==> fd < |contexts| && Has(old(contexts[fd].events), e) && epollOk
      ensures ok ==> contexts[fd].events == Minus(old(contexts[fd].events), e)
      ensures ok ==> contexts[fd].SlotOf(e) == old(contexts[fd].SlotOf(e)).(scheduler := false)
      ensures ok ==> TaskOf(old(contexts[fd].SlotOf(e))).Some?
      ensures ok ==> queue == old(queue) + [TaskOf(old(contexts[fd].SlotOf(e))).value]
      ensures ok ==> pending == old(pending) - 1 && fired == old(fired) + 1
      ensures !ok ==>
        queue == old(queue) && pending == old(pending) && fired == old(fired) && interest == old(interest)
      ensures !ok && fd < |contexts| ==> contexts[fd].Now() == old(contexts[fd].Now())
      ensures fd < |contexts| && Has(old(contexts[fd].events), e) ==>
        var left := Minus(old(contexts[fd].events), e);
        asked == old(asked) + [Ctl(if left != NONE then MOD else DEL, fd, left, epollOk)]
    {
      hide Mirrors, Sum, EventsOf, Kernel;
      if |contexts| <= fd { return false; }
      var c := contexts[fd];
      if !Has(c.events, e) { return false; }
      ok := AskForLeft(c, fd, Minus(c.events, e), epollOk);
      if ok { Trigger(c, fd, e); }
    }

    /** `cancelAll` */
    method CancelAll(fd: nat, epollOk: bool) returns (ok: bool)
      requires Valid()
      modifies this`interest, this`asked, this`pending, this`deleted, this`fired, this`queue,
        if fd < |contexts| then {contexts[fd]} else {}
      ensures Valid() && deleted == old(deleted)
      ensures ok <==> fd < |contexts| && old(contexts[fd].events) != NONE && epollOk
      ensures ok ==> contexts[fd].Now() == Released(old(contexts[fd].Now()))
      ensures ok ==>
        queue == old(queue) + TasksOf(old(contexts[fd].events), old(contexts[fd].read), old(contexts[fd].write))
      ensures ok ==> pending == old(pending) - Count(old(contexts[fd].events))
      ensures ok ==> fired == old(fired) + Count(old(contexts[fd].events))
      ensures !ok ==>
        queue == old(queue) && pending == old(pending) && fired == old(fired) && interest == old(interest)
      ensures !ok && fd < |contexts| ==> contexts[fd].Now() == old(contexts[fd].Now())
      ensures fd < |contexts| && old(contexts[fd].events) != NONE ==>
        asked == old(asked) + [Ctl(DEL, fd, NONE, epollOk)]
    {
      hide Mirrors, Sum, EventsOf, Kernel;
      if |contexts| <= fd { return false; }
      var c := contexts[fd];
      if c.events == NONE { return false; }
      ok := AskForLeft(c, fd, NONE, epollOk);
      if ok { var _ := TriggerEach(c, fd, c.events); }
    }

    /** `triggerEvent` for each of `e`, a read before a write.  What is not armed is triggered too:
        that follows a null scheduler if the slot holds anything, and else only counts. */
    method TriggerEach(c: FdContext, ghost fd: nat, e: Events) returns (result: HandleResult)
      requires Counted() && fd < |contexts| && contexts[fd] == c
      modifies this`pending, this`deleted, this`fired, this`queue, c
      ensures result == NullScheduler <==> HoldsAny(Except(e, old(c.events)), old(c.Now()))
      ensures result != Miscounted <==> result == NullScheduler || Except(e, old(c.events)) == NONE
      ensures result != NullScheduler ==>
        && deleted == old(deleted) && c.Now() == Handled(old(c.Now()), e)
        && queue == old(queue) + TasksOf(Both(old(c.events), e), old(c.read), old(c.write))
        && fired == old(fired) + Count(Both(old(c.events), e))
        && EventsOf(contexts) == old(EventsOf(contexts))[fd := Except(old(c.events), e)]
      ensures result != NullScheduler ==> pending == old(pending) - Count(Both(old(c.events), e))
      ensures result == Fine ==> Counted()
    {
      hide Sum, EventsOf;
      assert c.Fits();
      ghost var w := c.SlotOf(WRITE);
      result := Fine;
      if e.read {
        if c.read.scheduler { Trigger(c, fd, READ); }
        else if TaskOf(c.read).Some? { return NullScheduler; }
        else { result := Miscounted; }
      }
      assert c.SlotOf(WRITE) == w;
      ghost var r1 := c.SlotOf(READ);
      if e.write {
        if c.write.scheduler { Trigger(c, fd, WRITE); }
        else if TaskOf(c.write).Some? { return NullScheduler; }
        else { result := Miscounted; }
      }
      assert c.SlotOf(READ) == r1;
    }

    ghost function States(): (cs: seq<ContextState>)
      reads this, contexts
      ensures |cs| == |contexts| && forall i :: 0 <= i < |contexts| ==> cs[i] == contexts[i].Now()
    {
      StatesOf(contexts)
    }

    /** What the idle pass does with one report. */
    method Handle(r: Report) returns (result: HandleResult)
      requires Valid() && r.fd < |contexts|
      modifies this`interest, this`asked, this`pending, this`deleted, this`fired, this`queue, contexts[r.fd]
      ensures result == Fine <==> !Overshoots(r, old(contexts[r.fd].events))
      ensures result == NullScheduler <==>
        Overshoots(r, old(contexts[r.fd].events))
        && HoldsAny(Except(Ready(r), old(contexts[r.fd].events)), old(contexts[r.fd].Now()))
      ensures result == Fine ==> Valid()
      ensures result != NullScheduler ==>
        && deleted == old(deleted) && contexts[r.fd].Now() == Handled(old(contexts[r.fd].Now()), Ready(r))
        && queue == old(queue) + TasksOf(Both(old(contexts[r.fd].events), Ready(r)),
                                         old(contexts[r.fd].read), old(contexts[r.fd].write))
        && fired == old(fired) + Count(Both(old(contexts[r.fd].events), Ready(r)))
      ensures result == Fine ==> pending == old(pending) - Count(Both(old(contexts[r.fd].events), Ready(r)))
      // who waits to read is woken by input, who waits to write by output, and both by an error
      ensures result == Fine ==>
        var c := old(contexts[r.fd].Now());
        && contexts[r.fd].events.read == (c.events.read && !r.input && !r.errorOrHangup)
        && contexts[r.fd].events.write == (c.events.write && !r.output && !r.errorOrHangup)
        && queue == old(queue) + (if c.events.read && (r.input || r.errorOrHangup) then Scheduled(c.read) else [])
                    + (if c.events.write && (r.output || r.errorOrHangup) then Scheduled(c.write) else [])
      ensures result == Miscounted ==>
        pending == OneLess(old(pending) - Count(Both(old(contexts[r.fd].events), Ready(r))))
      ensures asked == old(asked) +
                       if Both(old(contexts[r.fd].events), Ready(r)) == NONE then []
                       else var left := Except(old(contexts[r.fd].events), Ready(r));
                            [Ctl(if left != NONE then MOD else DEL, r.fd, left, true)]
    {
      hide Mirrors, Sum, EventsOf, Kernel;
      var c := contexts[r.fd];
      var e := Ready(r);
      ReportMeans(c.Now(), r);
      if Both(c.events, e) == NONE { return Fine; }
      assert c.Fits();
      var ok := AskForLeft(c, r.fd, Except(c.events, e), true);
      result := TriggerEach(c, r.fd, e);
      if result == Miscounted { pending := OneLess(pending); }
    }

    /** The idle pass over what epoll_wait reports, one entry for a descriptor.  It comes to
        its end exactly when every report it acts on is within what is armed. */
    method HandleAll(reports: seq<Report>) returns (result: HandleResult, ghost parts: seq<seq<Task>>)
      requires Valid() && forall r <- reports :: r.fd < |contexts|
      requires forall i, j :: 0 <= i < j < |reports| ==> reports[i].fd != reports[j].fd
      modifies this`interest, this`asked, this`pending, this`deleted, this`fired, this`queue, contexts
      ensures result != Fine <==> exists r :: r in reports && Overshoots(r, old(States())[r.fd].events)
      ensures result == Fine ==> Valid() && deleted == old(deleted)
      ensures result == Fine ==> States() == HandledAll(old(States()), reports)
      ensures result == Fine ==> queue == old(queue) + TasksOfAll(old(States()), reports)
      ensures result == Fine ==> fired - old(fired) == |queue| - |old(queue)| == old(pending) - pending
      ensures result == Fine ==> PassServes(old(States()), States(), reports, parts) && queue == old(queue) + Flat(parts)
    {
      hide *;
      ghost var cs := States();
      NoReports(cs);
      NoPass(cs);
      parts := [];
      assert reports[..0] == [];
      for k := 0 to |reports|
        invariant Valid() && deleted == old(deleted) && contexts == old(contexts)
        invariant States() == HandledAll(cs, reports[..k])
        invariant queue == old(queue) + TasksOfAll(cs, reports[..k])
        invariant PassServes(cs, States(), reports[..k], parts) && Flat(parts) == TasksOfAll(cs, reports[..k])
        invariant fired - old(fired) == |queue| - |old(queue)| == old(pending) - pending
        invariant forall i :: 0 <= i < k ==> !Overshoots(reports[i], cs[reports[i].fd].events)
      {
        var r := reports[k];
        ghost var before, c := States(), contexts[r.fd];
        assert reports[..k + 1] == reports[..k] + [r];
        NotYetHandled(cs, reports[..k], r.fd);
        OneReport(cs, reports[..k], r);
        PassGoesOn(cs, before, reports[..k], parts, r);
        ghost var c0 := cs[r.fd];
        parts := parts + [TasksOf(Both(c0.events, Ready(r)), c0.read, c0.write)];
        TasksCounted(this, r.fd, Ready(r));
        NowIs(c);
        result := Handle(r);
        if result != Fine { return; }
        NowIs(c);
        Distinct();
        assert States() == before[r.fd := c.Now()];
      }
      assert reports[..|reports|] == reports;
      result := Fine;
    }

    lemma Distinct()
      requires Valid()
      ensures forall i, j :: 0 <= i < j < |contexts| ==> contexts[i] != contexts[j]
    {
    }
  }

  ghost function StatesOf(contexts: seq<FdContext>): (cs: seq<ContextState>)
    reads contexts
    ensures |cs| == |contexts| && forall i :: 0 <= i < |contexts| ==> cs[i] == contexts[i].Now()
  {
    if contexts == [] then []
    else
      assert forall c <- contexts[..|contexts| - 1] :: c in contexts;
      StatesOf(contexts[..|contexts| - 1]) + [contexts[|contexts| - 1].Now()]
  }

  lemma NowIs(c: FdContext)
    ensures c.Now() == ContextState(c.events, c.read, c.write)
  {
  }

  lemma NoReports(cs: seq<ContextState>)
    ensures HandledAll(cs, []) == cs && TasksOfAll(cs, []) == []
  {
  }

  lemma OneReport(cs: seq<ContextState>, reports: seq<Report>, r: Report)
    requires forall q <- reports + [r] :: q.fd < |cs|
    ensures forall q <- reports :: q.fd < |cs|
    ensures r.fd < |cs| && HandledAll(cs, reports + [r]) == HandledAll(cs, reports)[r.fd := Handled(cs[r.fd], Ready(r))]
    ensures var c := cs[r.fd];
      TasksOfAll(cs, reports + [r]) == TasksOfAll(cs, reports) + TasksOf(Both(c.events, Ready(r)), c.read, c.write)
  {
    assert r in reports + [r] && forall q <- reports :: q in reports + [r];
    assert (reports + [r])[..|reports + [r]| - 1] == reports;
    hide Handled, Ready, Both, TasksOf;
  }

  /** An armed event has something to schedule. */
  lemma TasksCounted(io: IOManager, fd: nat, e: Events)
    requires io.Valid() && fd < |io.contexts|
    ensures var c := io.contexts[fd]; |TasksOf(Both(c.events, e), c.read, c.write)| == Count(Both(c.events, e))
  {
    assert io.contexts[fd].Fits();
    hide Mirrors, Sum, EventsOf, Kernel;
  }

  /** A fiber that waits in a slot an earlier callback was left in is not what is scheduled
      when its event fires: the callback is, again. */
  method StaleCallback(fd: nat, cb: Callback, fiber: Fiber) returns (io: IOManager)
    requires fd >= 2
    ensures io.Valid() && io.queue == [Call(cb), Call(cb)]
  {
    hide IOManager.Valid, IOManager.Counted, IOManager.InStep;
    io := new IOManager();
    var first := io.AddEvent(fd, READ, Some(cb), fiber, true);
    var fired := io.CancelEvent(fd, READ, true);
    var second := io.AddEvent(fd, READ, None, fiber, true);
    assert io.contexts[fd].SlotOf(READ) == Slot(true, Some(fiber), Some(cb));
    fired := io.CancelEvent(fd, READ, true);
  }

  /** It is, where none was left. */
  lemma FiberIsScheduled(s: Slot, fiber: Fiber)
    ensures TaskOf(Armed(s, None, fiber)) == Some(Resume(fiber)) <==> s.cb == None
  {
  }

  /** A hangup of a descriptor only a reader waits for counts one event too many as let go of. */
  method HangupIsMiscounted(fd: nat, fiber: Fiber) returns (io: IOManager, result: HandleResult)
    requires fd >= 2
    ensures result == Miscounted && io.queue == [Resume(fiber)] && io.pending == TWO_64 - 1
  {
    hide IOManager.Valid, IOManager.Counted, IOManager.InStep;
    io := new IOManager();
    var added := io.AddEvent(fd, READ, None, fiber, true);
    assert io.contexts[fd].write == io.contexts[fd].SlotOf(WRITE) == EMPTY;
    result := io.Handle(Report(fd, false, false, true));
  }

  /** If a writer waited there before, it follows a null pointer. */
  method HangupFollowsNull(fd: nat, fiber: Fiber) returns (io: IOManager, result: HandleResult)
    requires fd >= 2
    ensures result == NullScheduler
  {
    hide IOManager.Valid, IOManager.Counted, IOManager.InStep;
    io := new IOManager();
    var added := io.AddEvent(fd, WRITE, None, fiber, true);
    var cancelled := io.CancelEvent(fd, WRITE, true);
    added := io.AddEvent(fd, READ, None, fiber, true);
    result := io.Handle(Report(fd, false, false, true));
  }

  lemma OneMoreContext(cs: seq<FdContext>, c: FdContext)
    requires c.events == NONE
    ensures EventsOf(cs + [c]) == EventsOf(cs) + [NONE] && Sum(EventsOf(cs + [c])) == Sum(EventsOf(cs))
  {
    assert (cs + [c])[..|cs + [c]| - 1] == cs;
    assert EventsOf(cs + [c])[..|cs|] == EventsOf(cs);
  }
}
