/** Timers, and the ordered set they wait in. */
module Timers {
  import opened Wrappers

  /** getNextTimer's answer when nothing waits. */
  const FOREVER: nat := TWO_64 - 1

  type Callback = nat

  /** A timer; `addr` is where it is in memory, which breaks ties of the order. */
  class Timer {
    const recurring: bool
    const ms: nat
    const addr: nat
    var next: nat
    var cb: Option<Callback>

    constructor (ms: nat, cb: Callback, recurring: bool, now: nat, addr: nat)
      ensures this.ms == ms && this.recurring == recurring && this.addr == addr
      ensures this.cb == Some(cb) && next == Due(now, ms)
    {
      this.ms, this.recurring, this.addr := ms, recurring, addr;
      this.cb, next := Some(cb), Due(now, ms);
    }
  }

  /** Times are 64 bits wide. */
  function Due(now: nat, ms: nat): nat { (now + ms) % TWO_64 }

  /** `Comparator`: by time, then by address. */
  predicate KeyBefore(u: Timer, next: nat, addr: nat)
    reads u`next
  {
    u.next < next || (u.next == next && u.addr < addr)
  }

  predicate Less(t: Timer, u: Timer)
    reads t`next, u`next
  {
    KeyBefore(t, u.next, u.addr)
  }

  ghost predicate Sorted(ts: seq<Timer>)
    reads ts`next
  {
    forall i, j :: 0 <= i < j < |ts| ==> Less(ts[i], ts[j])
  }

  /** Timers in the set are alive, so each has an address of its own. */
  ghost predicate Apart(ts: seq<Timer>) {
    forall i, j :: 0 <= i < j < |ts| ==> ts[i].addr != ts[j].addr
  }

  /** What happens to timers. */
  datatype Event =
    | Added(timer: Timer, at: nat)
    | Fired(timer: Timer, at: nat, cb: Option<Callback>)
    | Cancelled(timer: Timer)
    | Refreshed(timer: Timer, at: nat)

  predicate Arms(e: Event) { e.Added? || e.Refreshed? }

  /** Whether the event says a time. */
  predicate Timed(e: Event) { !e.Cancelled? }

  /** `t` is due `ms` after `at`, unless that is past the end of time. */
  predicate NotBefore(at: nat, ms: nat, due: nat) { at + ms < TWO_64 ==> at + ms <= due }

  /** No timer fires early, after it was cancelled, or again, but for a recurring one, whose
      firings are its interval apart. */
  ghost predicate Lawful(log: seq<Event>) {
    && (forall j :: 0 <= j < |log| && log[j].Fired? ==>
          exists i :: 0 <= i < j && log[i].Added? && log[i].timer == log[j].timer)
    && (forall i, j :: 0 <= i < j < |log| && Arms(log[i]) && log[j].Fired? && log[i].timer == log[j].timer ==>
          NotBefore(log[i].at, log[i].timer.ms, log[j].at))
    && (forall i, j :: 0 <= i < j < |log| && log[i].Fired? && log[j].Fired? && log[i].timer == log[j].timer ==>
          log[i].timer.recurring && NotBefore(log[i].at, log[i].timer.ms, log[j].at))
    && (forall i, j :: 0 <= i < j < |log| && log[i].Cancelled? && log[j].Fired? ==> log[i].timer != log[j].timer)
  }

  ghost predicate WasAdded(t: Timer, log: seq<Event>) {
    exists i :: 0 <= i < |log| && log[i].Added? && log[i].timer == t
  }

  function Later(a: nat, b: nat): nat { if a > b then a else b }

  /** What the past says of a timer that will not fire before `next`. */
  ghost predicate PastOf(t: Timer, log: seq<Event>, next: nat) {
    forall i :: 0 <= i < |log| && log[i].timer == t ==> EventFits(log[i], t, next)
  }

  lemma PastLater(t: Timer, log: seq<Event>, next: nat, later: nat)
    requires PastOf(t, log, next) && next <= later
    ensures PastOf(t, log, later)
  {
    forall i | 0 <= i < |log| && log[i].timer == t ensures EventFits(log[i], t, later) {
      assert EventFits(log[i], t, next);
    }
  }

  predicate EventFits(e: Event, t: Timer, next: nat) {
    match e
    case Added(_, at) => NotBefore(at, t.ms, next)
    case Fired(_, at, _) => t.recurring && NotBefore(at, t.ms, next)
    case Cancelled(_) => false
    case Refreshed(_, at) => NotBefore(at, t.ms, next)
  }

  // ----- When a timer is due

  /** When the timer was armed last, if it still waits. */
  ghost function ArmedAt(log: seq<Event>, t: Timer): Option<nat> {
    if log == [] then None
    else
      var e := log[|log| - 1];
      if e.timer != t then ArmedAt(log[..|log| - 1], t)
      else if e.Cancelled? || (e.Fired? && !t.recurring) then None
      else Some(e.at)
  }

  lemma ArmedNow(log: seq<Event>, e: Event, t: Timer)
    ensures ArmedAt(log + [e], t) ==
            if e.timer != t then ArmedAt(log, t)
            else if e.Cancelled? || (e.Fired? && !t.recurring) then None
            else Some(e.at)
  {
    assert (log + [e])[..|log + [e]| - 1] == log;
  }

  /** A timer is in the set exactly while it is armed, and then it is due its interval after. */
  ghost predicate OnTime(t: Timer, ts: seq<Timer>, log: seq<Event>)
    reads t`next
  {
    && (t in ts <==> ArmedAt(log, t).Some?)
    && (t in ts ==> t.next == (ArmedAt(log, t).value + t.ms) % TWO_64)
  }

  /** So is every timer. */
  ghost predicate Punctual(m: TimerManager)
    reads m, m.made
  {
    forall t <- m.made :: OnTime(t, m.timers, m.log)
  }

  lemma NowOnTime(t: Timer, ts: seq<Timer>, log: seq<Event>, e: Event)
    requires e.timer == t && (t in ts <==> !e.Cancelled? && !(e.Fired? && !t.recurring))
    requires t in ts ==> t.next == (e.at + t.ms) % TWO_64
    ensures OnTime(t, ts, log + [e])
  {
    ArmedNow(log, e, t);
    hide ArmedAt;
  }

  /** An event of another timer changes nothing. */
  lemma OnTimeStays(t: Timer, ts: seq<Timer>, ts1: seq<Timer>, log: seq<Event>, e: Event)
    requires OnTime(t, ts, log) && e.timer != t && (t in ts <==> t in ts1)
    ensures OnTime(t, ts1, log + [e])
  {
    ArmedNow(log, e, t);
    hide ArmedAt;
  }

  lemma PastGrows(t: Timer, log: seq<Event>, e: Event, next: nat)
    requires PastOf(t, log, next) && (e.timer == t ==> EventFits(e, t, next))
    ensures PastOf(t, log + [e], next)
  {
    hide EventFits;
  }

  lemma NoPast(t: Timer, log: seq<Event>, next: nat)
    requires forall e <- log :: e.timer != t
    ensures PastOf(t, log, next)
  {
    hide EventFits;
  }

  lemma AddedGrows(t: Timer, log: seq<Event>, e: Event)
    ensures WasAdded(t, log) ==> WasAdded(t, log + [e])
    ensures e.Added? ==> WasAdded(e.timer, log + [e])
  {
    if WasAdded(t, log) {
      var i :| 0 <= i < |log| && log[i].Added? && log[i].timer == t;
      assert (log + [e])[i] == log[i];
    }
    assert (log + [e])[|log|] == e;
  }

  lemma DueIs(now: nat, ms: nat)
    ensures Due(now, ms) == (now + ms) % TWO_64
  {
  }

  lemma DueAre(now: nat)
    ensures forall ms: nat :: Due(now, ms) == (now + ms) % TWO_64
  {
  }

  lemma DueIsNotBefore(now: nat, ms: nat)
    ensures NotBefore(now, ms, Due(now, ms))
  {
  }

  lemma NotCancelled(t: Timer, log: seq<Event>, next: nat)
    requires PastOf(t, log, next)
    ensures forall i :: 0 <= i < |log| && log[i].timer == t ==> !log[i].Cancelled? && (log[i].Fired? ==> t.recurring)
  {
    forall i | 0 <= i < |log| && log[i].timer == t
      ensures !log[i].Cancelled? && (log[i].Fired? ==> t.recurring)
    {
      assert EventFits(log[i], t, next);
    }
  }

  lemma RefreshFits(t: Timer, log: seq<Event>, now: nat)
    requires now + t.ms < TWO_64 && (forall e <- log :: Timed(e) ==> e.at <= now)
    requires forall i :: 0 <= i < |log| && log[i].timer == t ==> !log[i].Cancelled? && (log[i].Fired? ==> t.recurring)
    ensures PastOf(t, log + [Refreshed(t, now)], Later(Due(now, t.ms), now))
  {
    DueIsNotBefore(now, t.ms);
  }

  lemma AddedFits(t: Timer, now: nat, next: nat)
    requires Due(now, t.ms) <= next
    ensures EventFits(Added(t, now), t, next)
  {
    DueIsNotBefore(now, t.ms);
  }

  lemma FiredFits(t: Timer, now: nat, cb: Option<Callback>, next: nat)
    requires t.recurring && Due(now, t.ms) <= next
    ensures EventFits(Fired(t, now, cb), t, next)
  {
    DueIsNotBefore(now, t.ms);
  }

  /** The log speaks of timers that were made, by now. */
  ghost predicate LogOf(made: set<Timer>, log: seq<Event>, now: nat) {
    && (forall e <- log :: e.timer in made && (Timed(e) ==> e.at <= now))
    && (forall t <- made :: WasAdded(t, log))
  }

  lemma LogGrows(made: set<Timer>, log: seq<Event>, now: nat, e: Event)
    requires LogOf(made, log, now) && e.timer in made && (Timed(e) ==> e.at <= now)
    ensures LogOf(made, log + [e], now)
  {
    hide WasAdded;
    forall t <- made ensures WasAdded(t, log + [e]) { AddedGrows(t, log, e); }
  }

  lemma LogOfAdded(made: set<Timer>, log: seq<Event>, now: nat, t: Timer)
    requires LogOf(made, log, now) && t in made
    ensures WasAdded(t, log)
  {
    hide WasAdded;
  }

  ghost predicate Waiting(ts: seq<Timer>, log: seq<Event>, now: nat)
    reads ts`next
  {
    forall u <- ts :: PastOf(u, log, Later(u.next, now))
  }

  /** After a firing of a timer that was not in the set, but now may be. */
  lemma WaitingGrows(ts: seq<Timer>, more: seq<Timer>, log: seq<Event>, now: nat, e: Event)
    requires Waiting(ts, log, now) && e.timer !in ts && forall u <- more :: u in ts || u == e.timer
    requires e.timer in more ==> PastOf(e.timer, log + [e], Later(e.timer.next, now))
    ensures Waiting(more, log + [e], now)
  {
    hide PastOf;
    forall u <- more ensures PastOf(u, log + [e], Later(u.next, now)) {
      if u != e.timer { PastGrows(u, log, e, Later(u.next, now)); }
    }
  }

  lemma Split(ts: seq<Timer>, taken: seq<Timer>, rest: seq<Timer>)
    requires exists i :: 0 <= i <= |ts| && taken == ts[..i] && rest == ts[i..]
    ensures ts == taken + rest
  {
  }

  lemma LogLater(made: set<Timer>, log: seq<Event>, clock: nat, now: nat)
    requires LogOf(made, log, clock) && clock <= now
    ensures LogOf(made, log, now)
  {
    hide WasAdded;
  }

  /** Of the timers whose time has come, and of the others. */
  lemma Ripe(ts: seq<Timer>, i: nat, log: seq<Event>, clock: nat, now: nat)
    requires Waiting(ts, log, clock) && i <= |ts| && clock <= now && forall t <- ts[..i] :: t.next <= now
    ensures Waiting(ts[i..], log, now) && forall t <- ts[..i] :: PastOf(t, log, now)
  {
    hide PastOf;
    forall t <- ts[..i] ensures PastOf(t, log, now) {
      assert t in ts;
      PastLater(t, log, Later(t.next, clock), now);
    }
    forall t <- ts[i..] ensures PastOf(t, log, Later(t.next, now)) {
      assert t in ts;
      PastLater(t, log, Later(t.next, clock), Later(t.next, now));
    }
  }

  lemma AroundKey(ts: seq<Timer>, i: nat, now: nat, addr: nat)
    requires i <= |ts| && forall j :: 0 <= j < i ==> KeyBefore(ts[j], now, addr)
    requires forall j :: i <= j < |ts| ==> !KeyBefore(ts[j], now, addr)
    ensures forall j :: 0 <= j < i ==> ts[j].next <= now
    ensures forall j :: i <= j < |ts| ==> ts[j].next >= now
  {
  }

  /** The set cut in two by time. */
  lemma Divided(ts: seq<Timer>, i: nat, now: nat)
    requires Sorted(ts) && Apart(ts) && i <= |ts|
    requires (forall j :: 0 <= j < i ==> ts[j].next <= now) && (i < |ts| ==> ts[i].next > now)
    ensures Sorted(ts[i..]) && Apart(ts[i..])
    ensures forall u <- ts[..i] :: u.next <= now && u !in ts[i..] && u in ts
    ensures forall u <- ts[i..] :: u.next > now && u in ts
    ensures forall u <- ts :: u in ts[..i] || u in ts[i..]
    ensures Apart(ts[..i]) && forall j, k :: 0 <= j < k < i ==> ts[j].next <= ts[k].next
    ensures forall t <- ts[..i] :: forall u <- ts[i..] :: u.addr != t.addr
  {
    forall u <- ts[i..] ensures u.next > now && u in ts {
      var k :| i <= k < |ts| && ts[k] == u;
      if k > i { assert Less(ts[i], ts[k]); }
    }
    forall j, k | 0 <= j < k < i ensures ts[j].next <= ts[k].next {
      assert Less(ts[j], ts[k]);
    }
    forall a, b | 0 <= a < b < |ts| - i ensures Less(ts[i..][a], ts[i..][b]) {
      assert Less(ts[i + a], ts[i + b]);
    }
  }

  /** Only a firing can break the law. */
  lemma LawfulQuiet(log: seq<Event>, e: Event)
    requires Lawful(log) && !e.Fired?
    ensures Lawful(log + [e])
  {
    hide NotBefore;
    var l := log + [e];
    assert forall i :: 0 <= i < |l| && l[i].Fired? ==> i < |log| && l[i] == log[i];
  }

  /** And a firing that comes when it is due does not. */
  lemma LawfulFiring(log: seq<Event>, t: Timer, at: nat, cb: Option<Callback>, next: nat)
    requires Lawful(log) && WasAdded(t, log) && PastOf(t, log, next) && next <= at
    ensures Lawful(log + [Fired(t, at, cb)])
  {
    var l, n := log + [Fired(t, at, cb)], |log|;
    assert forall i :: 0 <= i < n ==> l[i] == log[i];
    var k :| 0 <= k < n && log[k].Added? && log[k].timer == t;
    assert l[k].Added? && l[k].timer == t;
    forall i | 0 <= i < n && log[i].timer == t
      ensures !log[i].Cancelled? && (log[i].Fired? ==> t.recurring) && NotBefore(log[i].at, t.ms, at)
    {
      assert EventFits(log[i], t, next);
    }
    hide NotBefore, EventFits;
  }

  /** How often a timer has fired. */
  ghost function Firings(log: seq<Event>, t: Timer): nat {
    if log == [] then 0
    else Firings(log[..|log| - 1], t) + (var e := log[|log| - 1]; if e.Fired? && e.timer == t then 1 else 0)
  }

  lemma {:induction false} NoFirings(log: seq<Event>, t: Timer)
    requires forall i :: 0 <= i < |log| && log[i].Fired? ==> log[i].timer != t
    ensures Firings(log, t) == 0
  {
    if log != [] { NoFirings(log[..|log| - 1], t); }
  }

  /** In a lawful past a one-shot has fired at most once, and a cancelled timer not since. */
  lemma {:induction false} FiresOnce(log: seq<Event>, t: Timer)
    requires Lawful(log) && !t.recurring
    ensures Firings(log, t) <= 1
    decreases |log|
  {
    if log != [] {
      var n := |log| - 1;
      LawfulStart(log, n);
      if log[n].Fired? && log[n].timer == t {
        NoFirings(log[..n], t);
      } else {
        FiresOnce(log[..n], t);
      }
    }
    hide NotBefore;
  }

  lemma LawfulStart(log: seq<Event>, n: nat)
    requires Lawful(log) && n <= |log|
    ensures Lawful(log[..n])
  {
    var l := log[..n];
    forall j | 0 <= j < n && l[j].Fired? ensures exists i :: 0 <= i < j && l[i].Added? && l[i].timer == l[j].timer {
      var i :| 0 <= i < j && log[i].Added? && log[i].timer == log[j].timer;
      assert l[i] == log[i];
    }
    hide NotBefore;
  }

  class TimerManager {
    /** m_timers, in its order. */
    var timers: seq<Timer>
    ghost var made: set<Timer>
    ghost var log: seq<Event>
    ghost var clock: nat

    /** The ordered set. */
    ghost predicate InOrder()
      reads this, timers`next
    {
      Sorted(timers) && Apart(timers)
    }

    /** A callback that is still there belongs to a timer in the set. */
    ghost predicate Live()
      reads this, made
    {
      (forall t <- timers :: t in made) && (forall t <- made :: t.cb != None ==> t in timers)
    }

    ghost predicate Past()
      reads this, timers`next
    {
      LogOf(made, log, clock) && Waiting(timers, log, clock)
    }

    ghost predicate Valid()
      reads this, timers, made
    {
      InOrder() && Live() && Past() && Lawful(log)
    }

    constructor ()
      ensures Valid() && timers == [] && made == {} && log == [] && clock == 0
    {
      timers, made, log, clock := [], {}, [], 0;
    }

    /** std::set::lower_bound: the first element not before the key. */
    method LowerBound(next: nat, addr: nat) returns (i: nat)
      requires Sorted(timers)
      ensures i <= |timers|
      ensures forall j :: 0 <= j < i ==> KeyBefore(timers[j], next, addr)
      ensures forall j :: i <= j < |timers| ==> !KeyBefore(timers[j], next, addr)
    {
      i := 0;
      while i < |timers| && KeyBefore(timers[i], next, addr)
        invariant i <= |timers| && forall j :: 0 <= j < i ==> KeyBefore(timers[j], next, addr)
      {
        i := i + 1;
      }
    }

    method Insert(t: Timer) returns (i: nat)
      requires InOrder() && forall u <- timers :: u.addr != t.addr
      modifies this`timers
      ensures InOrder() && i <= |old(timers)| && timers == old(timers)[..i] + [t] + old(timers)[i..]
    {
      i := LowerBound(t.next, t.addr);
      SortedInsert(timers, i, t);
      timers := timers[..i] + [t] + timers[i..];
    }

    /** Where a timer in the set is found, by its key. */
    method Find(t: Timer) returns (i: nat)
      requires InOrder() && t in timers
      ensures i < |timers| && timers[i] == t
    {
      i := LowerBound(t.next, t.addr);
      ghost var k :| 0 <= k < |timers| && timers[k] == t;
      assert !KeyBefore(timers[k], t.next, t.addr);
      assert forall j :: 0 <= j < k ==> Less(timers[j], timers[k]);
    }

    method AddTimer(ms: nat, cb: Callback, recurring: bool, now: nat, addr: nat) returns (t: Timer, front: bool)
      requires Valid() && now >= clock && forall u <- timers :: u.addr != addr
      modifies this
      ensures Valid() && fresh(t) && made == old(made) + {t}
      ensures t.ms == ms && t.recurring == recurring && t.cb == Some(cb) && t.next == (now + ms) % TWO_64
      ensures log == old(log) + [Added(t, now)] && clock == now
      ensures front <==> timers[0] == t
      ensures exists i :: 0 <= i <= |old(timers)| && timers == old(timers)[..i] + [t] + old(timers)[i..]
    {
      hide PastOf, Sorted, Lawful, WasAdded, EventFits, Apart, Due;
      ghost var timers0, log0, clock0 := timers, log, clock;
      DueIs(now, ms);
      t := new Timer(ms, cb, recurring, now, addr);
      ghost var e := Added(t, now);
      var i := Insert(t);
      made, clock, log := made + {t}, now, log + [e];
      front := i == 0;
      LawfulQuiet(log0, e);
      forall u <- made ensures WasAdded(u, log) { AddedGrows(u, log0, e); }
      NoPast(t, log0, Later(t.next, now));
      AddedFits(t, now, Later(t.next, now));
      forall u <- timers ensures PastOf(u, log, Later(u.next, now)) {
        assert u == t || u in timers0;
        if u != t { PastLater(u, log0, Later(u.next, clock0), Later(u.next, now)); }
        PastGrows(u, log0, e, Later(u.next, now));
      }
    }

    /** `Timer::cancel` */
    method Cancel(t: Timer) returns (ok: bool)
      requires Valid() && t in made
      modifies this, t`cb
      ensures Valid() && clock == old(clock) && made == old(made)
      ensures ok <==> old(t.cb) != None
      ensures !ok ==> timers == old(timers) && log == old(log)
      ensures t.cb == None
      ensures ok ==> t in old(timers) && t !in timers && log == old(log) + [Cancelled(t)]
      ensures forall u :: u != t ==> (u in timers <==> u in old(timers))
    {
      hide PastOf, Sorted, Lawful, WasAdded, EventFits, Apart;
      if t.cb == None { return false; }
      ghost var timers0, log0 := timers, log;
      t.cb := None;
      var i := Find(t);
      Without(timers, i);
      timers := timers[..i] + timers[i + 1..];
      ghost var e := Cancelled(t);
      log := log + [e];
      LawfulQuiet(log0, e);
      forall u <- made ensures WasAdded(u, log) { AddedGrows(u, log0, e); }
      forall u <- timers ensures PastOf(u, log, Later(u.next, clock)) {
        PastGrows(u, log0, e, Later(u.next, clock));
      }
      return true;
    }

    method GetNextTimer(now: nat) returns (d: nat)
      requires Valid()
      ensures timers == [] ==> d == FOREVER
      ensures timers != [] ==> (d == 0 <==> exists u :: u in timers && u.next <= now)
      ensures timers != [] && d > 0 ==>
        (forall u <- timers :: now + d <= u.next) && exists u :: u in timers && u.next == now + d
    {
      if timers == [] { return FOREVER; }
      assert timers[0] in timers;
      assert forall u <- timers :: timers[0].next <= u.next by {
        assert forall j :: 0 < j < |timers| ==> Less(timers[0], timers[j]);
      }
      d := if now >= timers[0].next then 0 else timers[0].next - now;
    }

    /** `Timer::refresh`: the callback is gone, but the timer waits on. */
    method Refresh(t: Timer, now: nat) returns (ok: bool)
      requires Valid() && t in made && now >= clock
      modifies this, t
      ensures ok <==> old(t.cb) != None
      ensures ok ==> t.cb == None && t in timers && t.next == (now + t.ms) % TWO_64
      ensures log == (if ok then old(log) + [Refreshed(t, now)] else old(log))
      ensures !ok ==> timers == old(timers) && t.next == old(t.next)
      ensures InOrder() && Live() && made == old(made)
      ensures forall u :: u != t ==> (u in timers <==> u in old(timers))
      ensures now + t.ms < TWO_64 ==> Valid()
    {
      hide PastOf, Sorted, Lawful, WasAdded, EventFits, Apart, Due;
      DueIs(now, t.ms);
      if t.cb == None { return false; }
      ghost var timers0, clock0, bound := timers, clock, Later(t.next, clock);
      t.cb := None;
      var i := Find(t);
      Without(timers, i);
      timers := timers[..i] + timers[i + 1..];
      t.next := Due(now, t.ms);
      var k := Insert(t);
      ghost var log0, e := log, Refreshed(t, now);
      clock, log := now, log + [e];
      LawfulQuiet(log0, e);
      forall u <- made ensures WasAdded(u, log) { AddedGrows(u, log0, e); }
      forall u <- timers | u != t ensures PastOf(u, log, Later(u.next, now)) {
        assert u in timers0;
        PastLater(u, log0, Later(u.next, clock0), Later(u.next, now));
        PastGrows(u, log0, e, Later(u.next, now));
      }
      if now + t.ms < TWO_64 {
        NotCancelled(t, log0, bound);
        RefreshFits(t, log0, now);
      }
      return true;
    }

    /** What the expiry does with one timer, taken out of the set. */
    method Expire(t: Timer, now: nat) returns (cb: Option<Callback>)
      requires InOrder() && t !in timers && (forall u <- timers :: u.addr != t.addr)
      requires Lawful(log) && WasAdded(t, log) && PastOf(t, log, now)
      modifies this`timers, this`log, t
      ensures InOrder() && cb == old(t.cb) && log == old(log) + [Fired(t, now, cb)]
      ensures t.cb == (if t.recurring then cb else None)
      ensures t.next == (if t.recurring then Due(now, t.ms) else old(t.next))
      ensures forall u :: u in timers <==> u in old(timers) || (u == t && t.recurring)
      ensures Lawful(log) && (t.recurring ==> PastOf(t, log, Later(t.next, now)))
    {
      hide PastOf, Sorted, Lawful, WasAdded, EventFits, Apart, Due;
      cb := t.cb;
      LawfulFiring(log, t, now, cb, now);
      PastLater(t, log, now, Later(Due(now, t.ms), now));
      if t.recurring {
        FiredFits(t, now, cb, Later(Due(now, t.ms), now));
        PastGrows(t, log, Fired(t, now, cb), Later(Due(now, t.ms), now));
        t.next := Due(now, t.ms);
        ghost var timers0 := timers;
        var i := Insert(t);
        assert timers0 == timers0[..i] + timers0[i..];
      } else {
        t.cb := None;
      }
      log := log + [Fired(t, now, cb)];
    }

    /** The probe of the ordered set is a timer of its own, somewhere in memory. */
    method GetExpired(now: nat, probe: nat) returns (cbs: seq<Option<Callback>>, ghost expired: seq<Timer>)
      requires Valid() && now >= clock
      modifies this, timers
      ensures Valid() && clock == now && made == old(made)
      ensures expired <= old(timers) && |cbs| == |expired|
      ensures forall u <- old(timers) :: u in expired <==> old(u.next) <= now
      ensures forall j, k :: 0 <= j < k < |expired| ==> old(expired[j].next) <= old(expired[k].next)
      ensures forall j :: 0 <= j < |expired| ==> cbs[j] == old(expired[j].cb)
      ensures forall u :: u in timers <==> u in old(timers) && (u in expired ==> u.recurring)
      ensures forall u <- expired :: if u.recurring then u.next == (now + u.ms) % TWO_64 && u.cb == old(u.cb) else u.cb == None
      ensures forall u <- old(timers) :: u !in expired ==> u.next == old(u.next) && u.cb == old(u.cb)
      ensures |log| == |old(log)| + |expired| && old(log) <= log
      ensures forall j :: 0 <= j < |expired| ==> log[|old(log)| + j] == Fired(expired[j], now, cbs[j])
    {
      hide *;
      ghost var was := timers;
      Unfolded();
      var taken := TakeExpired(now, probe);
      expired := taken;
      ghost var rest := timers;
      assert forall j :: 0 <= j < |taken| ==> was[j] == taken[j];
      cbs := ExpireAll(taken, timers, now);
      DueAre(now);
      assert forall u :: u in was <==> u in taken || u in rest;
      Unfolded();
    }

    lemma TimersAreMade()
      requires Valid()
      ensures forall t <- timers :: t in made
    {
      hide Sorted, Apart, Lawful, LogOf, Waiting;
    }

    lemma NoneTwice()
      requires Valid()
      ensures forall i, j :: 0 <= i < j < |timers| ==> timers[i] != timers[j]
    {
      hide Sorted, Lawful;
    }

    lemma Unfolded()
      ensures Valid() <==>
        InOrder() && Lawful(log) && LogOf(made, log, clock) && Waiting(timers, log, clock)
        && (forall t <- timers :: t in made) && (forall t <- made :: t.cb != None ==> t in timers)
    {
      hide Sorted, Apart, Lawful, LogOf, Waiting;
    }

    /** Where in the set the timers end whose time has come, wherever the probe is. */
    method EndOfExpired(now: nat, probe: nat) returns (i: nat)
      requires Sorted(timers)
      ensures i <= |timers| && (forall j :: 0 <= j < i ==> timers[j].next <= now)
      ensures i < |timers| ==> timers[i].next > now
    {
      hide *;
      i := LowerBound(now, probe);
      AroundKey(timers, i, now, probe);
      while i < |timers| && timers[i].next == now
        invariant i <= |timers| && forall j :: 0 <= j < i ==> timers[j].next <= now
      {
        i := i + 1;
      }
    }

    /** The part of the set whose time has come, taken out of it. */
    method TakeExpired(now: nat, probe: nat) returns (taken: seq<Timer>)
      requires Valid() && now >= clock
      modifies this`timers, this`clock
      ensures clock == now && InOrder() && Lawful(log) && LogOf(made, log, now) && Waiting(timers, log, now)
      ensures old(timers) == taken + timers
      ensures forall t <- taken :: t.next <= now && t in made && t !in timers && PastOf(t, log, now)
      ensures forall t <- taken :: forall u <- timers :: u.addr != t.addr
      ensures forall t <- timers :: t.next > now && t in made
      ensures Apart(taken) && forall j, k :: 0 <= j < k < |taken| ==> taken[j].next <= taken[k].next
    {
      hide *;
      Unfolded();
      OrderIs();
      var ts := timers;
      var i := EndOfExpired(now, probe);
      taken := ts[..i];
      Divided(ts, i, now);
      Ripe(ts, i, log, clock, now);
      LogLater(made, log, clock, now);
      Split(ts, taken, ts[i..]);
      clock, timers := now, ts[i..];
      OrderIs();
    }

    lemma OrderIs()
      ensures InOrder() <==> Sorted(timers) && Apart(timers)
    {
      hide Sorted, Apart;
    }

    /** The expired timers in turn, each handing over its callback. */
    method ExpireAll(taken: seq<Timer>, ghost rest: seq<Timer>, now: nat) returns (cbs: seq<Option<Callback>>)
      requires InOrder() && timers == rest && Lawful(log) && LogOf(made, log, now) && Waiting(timers, log, now)
      requires forall t <- taken :: t in made && t !in timers && (forall u <- timers :: u.addr != t.addr)
      requires Apart(taken) && forall t <- taken :: PastOf(t, log, now)
      modifies this`timers, this`log, taken
      ensures InOrder() && Lawful(log) && LogOf(made, log, now) && Waiting(timers, log, now)
      ensures forall u :: u in timers <==> u in rest || (u in taken && u.recurring)
      ensures |cbs| == |taken| && |log| == |old(log)| + |taken| && old(log) <= log
      ensures forall j :: 0 <= j < |taken| ==>
        cbs[j] == old(taken[j].cb) && log[|old(log)| + j] == Fired(taken[j], now, cbs[j])
      ensures forall t <- taken :: if t.recurring then t.next == Due(now, t.ms) && t.cb == old(t.cb) else t.cb == None
    {
      hide PastOf, Sorted, Lawful, WasAdded, EventFits, Due, LogOf, Waiting;
      cbs := [];
      ghost var log0 := log;
      for k := 0 to |taken|
        invariant InOrder() && Lawful(log) && LogOf(made, log, now) && Waiting(timers, log, now)
        invariant |cbs| == k && |log| == |log0| + k && log0 <= log
        invariant forall u :: u in timers <==> u in rest || (u in taken[..k] && u.recurring)
        invariant forall j :: 0 <= j < k ==> cbs[j] == old(taken[j].cb) && log[|log0| + j] == Fired(taken[j], now, cbs[j])
        invariant forall j :: 0 <= j < k ==>
          if taken[j].recurring then taken[j].next == Due(now, taken[j].ms) && taken[j].cb == old(taken[j].cb)
          else taken[j].cb == None
        invariant forall j :: k <= j < |taken| ==> taken[j].cb == old(taken[j].cb) && PastOf(taken[j], log, now)
      {
        ghost var t, log1, timers1 := taken[k], log, timers;
        LogOfAdded(made, log, now, t);
        var cb := Expire(taken[k], now);
        ghost var e := Fired(t, now, cb);
        cbs := cbs + [cb];
        LogGrows(made, log1, now, e);
        WaitingGrows(timers1, timers, log1, now, e);
        forall j | k < j < |taken| ensures PastOf(taken[j], log, now) { PastGrows(taken[j], log1, e, now); }
      }
    }
  }

  // ----- Every operation keeps the deadlines

  method AddOnTime(m: TimerManager, ms: nat, cb: Callback, recurring: bool, now: nat, addr: nat) returns (t: Timer)
    requires m.Valid() && Punctual(m) && now >= m.clock && forall u <- m.timers :: u.addr != addr
    modifies m
    ensures m.Valid() && Punctual(m) && fresh(t) && m.made == old(m.made) + {t} && ArmedAt(m.log, t) == Some(now)
  {
    hide *;
    PunctualIs(m);
    ghost var ts, log := m.timers, m.log;
    var front;
    t, front := m.AddTimer(ms, cb, recurring, now, addr);
    ghost var e := Added(t, now);
    assert t in m.timers;
    NowOnTime(t, m.timers, log, e);
    ArmedNow(log, e, t);
    forall u <- m.made | u != t ensures OnTime(u, m.timers, m.log) { OnTimeStays(u, ts, m.timers, log, e); }
    PunctualIs(m);
  }

  lemma PunctualIs(m: TimerManager)
    ensures Punctual(m) <==> forall t <- m.made :: OnTime(t, m.timers, m.log)
  {
    hide OnTime;
  }

  method CancelOnTime(m: TimerManager, t: Timer) returns (ok: bool)
    requires m.Valid() && Punctual(m) && t in m.made
    modifies m, t`cb
    ensures m.Valid() && Punctual(m) && m.made == old(m.made)
    ensures ok <==> old(t.cb) != None
    ensures ok ==> ArmedAt(m.log, t) == None
  {
    hide *;
    PunctualIs(m);
    ghost var ts, log := m.timers, m.log;
    ok := m.Cancel(t);
    if ok {
      ghost var e := Cancelled(t);
      NowOnTime(t, m.timers, log, e);
      ArmedNow(log, e, t);
      forall u <- m.made | u != t ensures OnTime(u, m.timers, m.log) { OnTimeStays(u, ts, m.timers, log, e); }
    }
    PunctualIs(m);
  }

  method RefreshOnTime(m: TimerManager, t: Timer, now: nat) returns (ok: bool)
    requires m.Valid() && Punctual(m) && t in m.made && now >= m.clock
    modifies m, t
    ensures Punctual(m) && m.made == old(m.made) && (now + t.ms < TWO_64 ==> m.Valid())
    ensures ok <==> old(t.cb) != None
    ensures ok ==> ArmedAt(m.log, t) == Some(now)
  {
    hide *;
    PunctualIs(m);
    ghost var ts, log := m.timers, m.log;
    ok := m.Refresh(t, now);
    if ok {
      ghost var e := Refreshed(t, now);
      NowOnTime(t, m.timers, log, e);
      ArmedNow(log, e, t);
      forall u <- m.made | u != t ensures OnTime(u, m.timers, m.log) { OnTimeStays(u, ts, m.timers, log, e); }
    }
    PunctualIs(m);
  }

  /** The firings of a pass, in the log. */
  lemma {:induction false} PassArms(log: seq<Event>, log1: seq<Event>, t: Timer, expired: seq<Timer>, now: nat,
                                    cbs: seq<Option<Callback>>)
    requires |cbs| == |expired| && |log1| == |log| + |expired| && log <= log1
    requires forall j :: 0 <= j < |expired| ==> log1[|log| + j] == Fired(expired[j], now, cbs[j])
    ensures ArmedAt(log1, t) ==
            if t !in expired then ArmedAt(log, t) else if t.recurring then Some(now) else None
    decreases |expired|
  {
    if expired == [] {
      assert log1 == log;
    } else {
      var n := |expired| - 1;
      assert log1[|log| + n] == Fired(expired[n], now, cbs[n]) && expired == expired[..n] + [expired[n]];
      PassArms(log, log1[..|log1| - 1], t, expired[..n], now, cbs[..n]);
    }
  }

  /** A pass fires exactly the timers that were armed their interval ago or more, be it when they
      were added, when they fired last, or when they were refreshed; and arms the recurring ones
      among them anew. */
  method PassOnTime(m: TimerManager, now: nat, probe: nat)
    returns (cbs: seq<Option<Callback>>, ghost expired: seq<Timer>)
    requires m.Valid() && Punctual(m) && now >= m.clock
    modifies m, m.made
    ensures m.Valid() && Punctual(m) && m.made == old(m.made) && m.clock == now && |cbs| == |expired|
    ensures expired <= old(m.timers) && forall j :: 0 <= j < |expired| ==> cbs[j] == old(expired[j].cb)
    ensures forall t <- m.made :: t in expired <==>
      old(ArmedAt(m.log, t)).Some? && (old(ArmedAt(m.log, t)).value + t.ms) % TWO_64 <= now
    ensures forall t <- m.made ::
      ArmedAt(m.log, t) == if t !in expired then old(ArmedAt(m.log, t)) else if t.recurring then Some(now) else None
  {
    hide *;
    m.TimersAreMade();
    ArmedAre(m);
    ghost var ts, log := m.timers, m.log;
    cbs, expired := m.GetExpired(now, probe);
    assert forall u <- expired :: u in ts;
    forall t <- m.made
      ensures ArmedAt(m.log, t) == if t !in expired then ArmedAt(log, t) else if t.recurring then Some(now) else None
    {
      PassArms(log, m.log, t, expired, now, cbs);
    }
    ArmedMeans(m);
  }

  /** `Punctual`, opened. */
  lemma ArmedAre(m: TimerManager)
    requires Punctual(m)
    ensures forall t <- m.made :: t in m.timers <==> ArmedAt(m.log, t).Some?
    ensures forall t <- m.made :: t in m.timers ==> t.next == (ArmedAt(m.log, t).value + t.ms) % TWO_64
  {
    assert forall t <- m.made :: OnTime(t, m.timers, m.log);
    hide ArmedAt;
  }

  lemma ArmedMeans(m: TimerManager)
    requires forall t <- m.made :: t in m.timers <==> ArmedAt(m.log, t).Some?
    requires forall t <- m.made :: t in m.timers ==> t.next == (ArmedAt(m.log, t).value + t.ms) % TWO_64
    ensures Punctual(m)
  {
    hide ArmedAt;
  }

  /** Of two passes around a timer's deadline exactly the second fires it. */
  method AroundDeadline(m: TimerManager, t: Timer, early: nat, late: nat, probe: nat)
    returns (ghost first: seq<Timer>, ghost second: seq<Timer>)
    requires m.Valid() && Punctual(m) && t in m.made
    requires ArmedAt(m.log, t).Some? && ArmedAt(m.log, t).value + t.ms < TWO_64
    requires m.clock <= early < ArmedAt(m.log, t).value + t.ms <= late
    modifies m, m.made
    ensures m.Valid() && Punctual(m) && t !in first && t in second
  {
    hide *;
    NoWrap(ArmedAt(m.log, t).value + t.ms);
    var cbs;
    cbs, first := PassOnTime(m, early, probe);
    cbs, second := PassOnTime(m, late, probe);
  }

  lemma NoWrap(n: nat)
    ensures n < TWO_64 ==> n % TWO_64 == n
  {
  }

  /** A timer taken out of the set. */
  lemma Without(ts: seq<Timer>, i: nat)
    requires Sorted(ts) && Apart(ts) && i < |ts|
    ensures var r := ts[..i] + ts[i + 1..];
      && Sorted(r) && Apart(r) && ts[i] !in r && (forall u :: u != ts[i] ==> (u in r <==> u in ts))
      && (forall u <- r :: u.addr != ts[i].addr)
  {
    var r := ts[..i] + ts[i + 1..];
    assert forall a :: 0 <= a < |r| ==> r[a] == if a < i then ts[a] else ts[a + 1];
    forall u | u in ts && u != ts[i] ensures u in r {
      var k :| 0 <= k < |ts| && ts[k] == u;
      assert u == if k < i then r[k] else r[k - 1];
    }
    hide Less;
  }

  lemma SortedInsert(ts: seq<Timer>, i: nat, t: Timer)
    requires Sorted(ts) && i <= |ts| && forall u <- ts :: u.addr != t.addr
    requires forall j :: 0 <= j < i ==> KeyBefore(ts[j], t.next, t.addr)
    requires forall j :: i <= j < |ts| ==> !KeyBefore(ts[j], t.next, t.addr)
    ensures Sorted(ts[..i] + [t] + ts[i..])
  {
    var r := ts[..i] + [t] + ts[i..];
    forall a, b | 0 <= a < b < |r| ensures Less(r[a], r[b]) {
      assert a < i ==> r[a] == ts[a];
      assert b > i ==> r[b] == ts[b - 1];
      assert a > i ==> r[a] == ts[a - 1];
      assert b < i ==> r[b] == ts[b];
    }
  }
}
