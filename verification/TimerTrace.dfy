/** What a timing wheel promises, told from the events of a run alone. */
module TimerTrace {
  import opened Arith
  import opened Options

  datatype Reply = Success | Close | Other   // what a callback returns

  /** Added says whether the cursor has passed the slot under it, as it has between two sweeps; Fired, which
      stands for the return of a callback, whether the timer was the last of that slot. */
  datatype Event =
    | Trigger
    | Added(id: nat, ms: nat, passed: bool)
    | Deleted(id: nat)
    | Fired(id: nat, reply: Reply, last: bool)

  /** When a timer is due, and its interval. */
  datatype Entry = Entry(ms: nat, due: nat)

  function Now(log: seq<Event>): nat {
    if log == [] then 0 else Now(log[..|log|-1]) + (if log[|log|-1].Trigger? then 1 else 0)
  }

  function Ticks(ms: nat): nat {
    ms / 10
  }

  /** The interval is a whole number of turns. */
  predicate Whole(ms: nat, size: nat)
    requires size > 0
  {
    Ticks(ms) % size == 0
  }

  /** A timer is due after its interval. One whose interval is a whole number of turns enters the slot
      under the cursor and loses a turn, unless the sweep of that slot still comes by. */
  function Delay(ms: nat, size: nat, passed: bool): nat
    requires size > 0
  {
    if passed && Whole(ms, size) then Ticks(ms) + size else Ticks(ms)
  }

  /** How one event at time now changes the book. */
  function Booked(b: map<nat, Entry>, now: nat, e: Event, size: nat): map<nat, Entry>
    requires size > 0
  {
    match e
    case Trigger => b
    case Added(id, ms, passed) => b[id := Entry(ms, now + Delay(ms, size, passed))]
    case Deleted(id) => b - {id}
    case Fired(id, reply, last) => if id !in b then b else Rebooked(b, id, reply, last, now, size)
  }

  function Rebooked(b: map<nat, Entry>, id: nat, reply: Reply, last: bool, now: nat, size: nat): map<nat, Entry>
    requires id in b && size > 0
  {
    match reply
    case Success => b[id := Entry(b[id].ms, now + Delay(b[id].ms, size, last))]
    case Close => b - {id}
    case Other => b[id := Entry(b[id].ms, now + size)]
  }

  function Book(log: seq<Event>, size: nat): map<nat, Entry>
    requires size > 0
  {
    if log == [] then map[] else Booked(Book(log[..|log|-1], size), Now(log[..|log|-1]), log[|log|-1], size)
  }

  /** Timers fire when they are due, and no trigger passes one that is due. */
  ghost predicate Punctual(b: map<nat, Entry>, now: nat, e: Event) {
    match e
    case Trigger => forall id | id in b :: b[id].due > now
    case Added(id, ms, passed) => id !in b
    case Deleted(id) => id in b
    case Fired(id, reply, last) => id in b && b[id].due == now
  }

  ghost predicate TraceOk(log: seq<Event>, size: nat)
    requires size > 0
  {
    log == [] ||
    var front := log[..|log|-1];
    TraceOk(front, size) && Punctual(Book(front, size), Now(front), log[|log|-1])
  }

  function Firings(log: seq<Event>): nat {
    if log == [] then 0 else Firings(log[..|log|-1]) + (if log[|log|-1].Fired? then 1 else 0)
  }

  /** One more event. */
  lemma LogGrows(log: seq<Event>, e: Event, size: nat)
    requires size > 0
    ensures (log + [e])[..|log|] == log
    ensures Now(log + [e]) == Now(log) + (if e.Trigger? then 1 else 0)
    ensures Firings(log + [e]) == Firings(log) + (if e.Fired? then 1 else 0)
    ensures Book(log + [e], size) == Booked(Book(log, size), Now(log), e, size)
    ensures TraceOk(log + [e], size) <==> TraceOk(log, size) && Punctual(Book(log, size), Now(log), e)
  {
    assert (log + [e])[..|log|] == log;
  }

  // ----- what the callbacks do

  /** A callback may add timers, and delete any but its own and the next one of the slot. */
  datatype Act = Add(id: nat, ms: nat) | Del(id: nat)
  datatype Answer = Answer(reply: Reply, acts: seq<Act>)

  /** One call of a sweep: the timer, and the one that the sweep goes on with. */
  datatype Call = Call(id: nat, next: Option<nat>)

  /** What an act is good for when the timers in use are ids: a timer in use is not added again, and a callback
      does not add one that is due at once. */
  function ActEvents(ids: set<nat>, c: Call, act: Act): (es: seq<Event>)
    ensures |es| <= 1
  {
    match act
    case Add(id, ms) => if id in ids || ms < 10 then [] else [Added(id, ms, c.next.None?)]
    case Del(id) => if id !in ids || id == c.id || c.next == Some(id) then [] else [Deleted(id)]
  }

  /** The events of the acts of one call, after those of log. */
  function ActsEvents(log: seq<Event>, size: nat, c: Call, acts: seq<Act>): seq<Event>
    requires size > 0
  {
    if acts == [] then []
    else
      var es := ActsEvents(log, size, c, acts[..|acts|-1]);
      es + ActEvents(Book(log + es, size).Keys, c, acts[|acts|-1])
  }

  /** The events of one call. */
  function CallEvents(log: seq<Event>, size: nat, c: Call, a: Answer): seq<Event>
    requires size > 0
  {
    ActsEvents(log, size, c, a.acts) + [Fired(c.id, a.reply, c.next.None?)]
  }

  /** The events of some calls, of which the first is the n-th of all: the callbacks do what env says. */
  function CallsEvents(log: seq<Event>, size: nat, calls: seq<Call>, env: nat -> Answer, n: nat): seq<Event>
    requires size > 0
  {
    if calls == [] then []
    else
      var es := CallsEvents(log, size, calls[..|calls|-1], env, n);
      es + CallEvents(log + es, size, calls[|calls|-1], env(n + |calls| - 1))
  }

  lemma NoActs(log: seq<Event>, size: nat, c: Call)
    requires size > 0
    ensures ActsEvents(log, size, c, []) == []
  {
  }

  lemma ActsSnoc(log: seq<Event>, size: nat, c: Call, acts: seq<Act>, j: nat)
    requires size > 0 && j < |acts|
    ensures var es := ActsEvents(log, size, c, acts[..j]);
      ActsEvents(log, size, c, acts[..j+1]) == es + ActEvents(Book(log + es, size).Keys, c, acts[j])
  {
    hide Book, ActEvents;
    assert acts[..j+1][..j] == acts[..j];
  }

  lemma CallsSnoc(log: seq<Event>, size: nat, calls: seq<Call>, c: Call, env: nat -> Answer, n: nat)
    requires size > 0
    ensures var es := CallsEvents(log, size, calls, env, n);
      CallsEvents(log, size, calls + [c], env, n) == es + CallEvents(log + es, size, c, env(n + |calls|))
  {
    hide CallEvents;
    assert (calls + [c])[..|calls|] == calls;
  }

  // ----- the first firing

  /** The events do not concern the timer. */
  predicate LeftAlone(log: seq<Event>, id: nat) {
    forall e | e in log :: e.Trigger? || e.id != id
  }

  lemma {:induction false} StaysBooked(log: seq<Event>, after: seq<Event>, size: nat, id: nat)
    requires size > 0 && id in Book(log, size) && LeftAlone(after, id)
    ensures id in Book(log + after, size) && Book(log + after, size)[id] == Book(log, size)[id]
  {
    hide Delay;
    if after == [] {
      assert log + after == log;
    } else {
      var rest, e := after[..|after|-1], after[|after|-1];
      StaysBooked(log, rest, size, id);
      assert log + after == (log + rest) + [e];
      LogGrows(log + rest, e, size);
    }
  }

  /** A timer first fires as many triggers after it was added as its interval has, exactly if these are no whole
      number of turns or the cursor has yet to pass; otherwise one turn later. */
  lemma FirstFiring(before: seq<Event>, id: nat, ms: nat, passed: bool, after: seq<Event>, fired: Event, size: nat)
    requires size > 0 && fired.Fired? && fired.id == id && LeftAlone(after, id)
    requires TraceOk(before + [Added(id, ms, passed)] + after + [fired], size)
    ensures var at := Now(before + [Added(id, ms, passed)] + after);
      && (at == Now(before) + ms / 10 <==> !passed || (ms / 10) % size != 0)
      && (at != Now(before) + ms / 10 ==> at == Now(before) + ms / 10 + size)
  {
    hide Book, TraceOk, Now;
    var log := before + [Added(id, ms, passed)];
    LogGrows(before, Added(id, ms, passed), size);
    StaysBooked(log, after, size, id);
    LogGrows(log + after, fired, size);
  }

  // ----- every n-th trigger

  function Fires(log: seq<Event>, id: nat): nat {
    if log == [] then 0 else
      Fires(log[..|log|-1], id) + (if log[|log|-1].Fired? && log[|log|-1].id == id then 1 else 0)
  }

  /** The event leaves the timer alone, or is a firing that asks for another one. */
  predicate Fits(e: Event, id: nat) {
    (e.Added? || e.Deleted? ==> e.id != id) && (e.Fired? && e.id == id ==> e.reply == Success)
  }

  predicate KeptUp(log: seq<Event>, id: nat) {
    forall e | e in log :: Fits(e, id)
  }

  /** Nothing is ever overdue. */
  lemma {:induction false} NeverLate(log: seq<Event>, size: nat, id: nat)
    requires size > 0 && TraceOk(log, size) && id in Book(log, size)
    ensures Book(log, size)[id].due >= Now(log)
  {
    var front := log[..|log|-1];
    if id in Book(front, size) {
      NeverLate(front, size, id);
    }
  }

  /** f intervals of n triggers after t. */
  function Nth(t: nat, n: nat, f: nat): nat {
    t + n * f
  }

  lemma NthNext(t: nat, n: nat, f: nat)
    ensures Nth(t, n, 0) == t && Nth(t, n, f + 1) == Nth(t, n, f) + n
  {
    MulDistributes(f, 1, n);
  }

  /** A timer added at time t has fired f times, each time n triggers after the last, and is due n later. */
  predicate OnSchedule(b: map<nat, Entry>, now: nat, id: nat, ms: nat, t: nat, f: nat) {
    id in b && b[id] == Entry(ms, Nth(t, Ticks(ms), f + 1)) && Nth(t, Ticks(ms), f) <= now <= Nth(t, Ticks(ms), f + 1)
  }

  lemma ScheduleGoesOn(b: map<nat, Entry>, now: nat, e: Event, size: nat, id: nat, ms: nat, t: nat, f: nat)
    requires size > 0 && !Whole(ms, size) && OnSchedule(b, now, id, ms, t, f) && Punctual(b, now, e) && Fits(e, id)
    ensures var fires := e.Fired? && e.id == id;
      && OnSchedule(Booked(b, now, e, size), now + (if e.Trigger? then 1 else 0), id, ms, t, if fires then f + 1 else f)
      && (fires ==> now == Nth(t, Ticks(ms), f + 1))
  {
    hide Nth, Whole, Delay, Ticks;
    NthNext(t, Ticks(ms), f + 1);
    DelayPassed(ms, size);
  }

  lemma {:induction false} Schedule(before: seq<Event>, id: nat, ms: nat, passed: bool, after: seq<Event>, size: nat)
    requires size > 0 && !Whole(ms, size)
    requires TraceOk(before + [Added(id, ms, passed)] + after, size) && KeptUp(after, id)
    ensures var log, t, n := before + [Added(id, ms, passed)] + after, Now(before), Ticks(ms);
      && OnSchedule(Book(log, size), Now(log), id, ms, t, Fires(after, id))
      && (after != [] && after[|after|-1].Fired? && after[|after|-1].id == id ==> Now(log) == Nth(t, n, Fires(after, id)))
  {
    hide Book, TraceOk, Now, Delay, Ticks, Fires, Nth, Whole, OnSchedule, Booked;
    var log := before + [Added(id, ms, passed)] + after;
    if after == [] {
      assert log == before + [Added(id, ms, passed)];
      LogGrows(before, Added(id, ms, passed), size);
      NoFires(id);
      ScheduleStarts(Book(before, size), Now(before), id, ms, passed, size);
    } else {
      var rest, e := after[..|after|-1], after[|after|-1];
      var front := before + [Added(id, ms, passed)] + rest;
      assert after == rest + [e] && log == front + [e];
      LogGrows(front, e, size);
      Schedule(before, id, ms, passed, rest, size);
      FiresSnoc(rest, e, id);
      assert e in after;
      ScheduleGoesOn(Book(front, size), Now(front), e, size, id, ms, Now(before), Fires(rest, id));
    }
  }

  lemma ScheduleStarts(b: map<nat, Entry>, now: nat, id: nat, ms: nat, passed: bool, size: nat)
    requires size > 0 && !Whole(ms, size)
    ensures OnSchedule(Booked(b, now, Added(id, ms, passed), size), now, id, ms, now, 0)
  {
    NthNext(now, Ticks(ms), 0);
    DelayPassed(ms, size);
  }

  lemma NoFires(id: nat)
    ensures Fires([], id) == 0
  {
  }

  lemma FiresSnoc(log: seq<Event>, e: Event, id: nat)
    ensures Fires(log + [e], id) == Fires(log, id) + (if e.Fired? && e.id == id then 1 else 0)
  {
    assert (log + [e])[..|log|] == log;
  }

  lemma DelayPassed(ms: nat, size: nat)
    requires size > 0
    ensures !Whole(ms, size) ==> Delay(ms, size, true) == Delay(ms, size, false) == Ticks(ms)
  {
  }

  /** A timer of n = ms / 10 triggers, added at time t and answering TW_SUCCESS, fires at t + n, t + 2n, ... and at no
      other time. */
  lemma EveryNth(before: seq<Event>, id: nat, ms: nat, passed: bool, after: seq<Event>, size: nat)
    requires size > 0 && (ms / 10) % size != 0
    requires TraceOk(before + [Added(id, ms, passed)] + after, size) && KeptUp(after, id)
    ensures var log, t, n, f := before + [Added(id, ms, passed)] + after, Now(before), ms / 10, Fires(after, id);
      && id in Book(log, size) && Book(log, size)[id] == Entry(ms, t + n * (f + 1))
      && t + n * f <= Now(log) <= t + n * (f + 1)
      && (after != [] && after[|after|-1].Fired? && after[|after|-1].id == id ==> Now(log) == t + n * f)
  {
    hide Book, TraceOk, Now, Fires, KeptUp;
    Schedule(before, id, ms, passed, after, size);
  }

  // ----- timers that are closed, deleted or kept waiting

  /** Nothing adds the timer. */
  predicate NotAdded(log: seq<Event>, id: nat) {
    forall e | e in log :: e.Added? ==> e.id != id
  }

  predicate Silent(log: seq<Event>, id: nat) {
    forall e | e in log :: e.Fired? ==> e.id != id
  }

  lemma {:induction false} StaysSilent(log: seq<Event>, after: seq<Event>, size: nat, id: nat)
    requires size > 0 && TraceOk(log + after, size) && id !in Book(log, size) && NotAdded(after, id)
    ensures id !in Book(log + after, size) && Silent(after, id)
  {
    hide Delay, Book, TraceOk, Now;
    if after == [] {
      assert log + after == log;
    } else {
      var rest, e := after[..|after|-1], after[|after|-1];
      assert log + after == (log + rest) + [e];
      LogGrows(log + rest, e, size);
      StaysSilent(log, rest, size, id);
      assert after == rest + [e];
    }
  }

  /** A timer that was deleted or answered TW_CLOSE does not fire again, unless it is added again. */
  lemma GoneForGood(before: seq<Event>, e: Event, after: seq<Event>, size: nat, id: nat)
    requires size > 0 && (e == Deleted(id) || (e.Fired? && e.id == id && e.reply == Close))
    requires TraceOk(before + [e] + after, size) && NotAdded(after, id)
    ensures Silent(after, id)
  {
    hide Book, TraceOk, Now, Silent;
    LogGrows(before, e, size);
    StaysSilent(before + [e], after, size, id);
  }

  /** A timer with another answer fires next after one turn of the wheel. */
  lemma OneTurnLater(before: seq<Event>, id: nat, last: bool, after: seq<Event>, fired: Event, size: nat)
    requires size > 0 && fired.Fired? && fired.id == id && LeftAlone(after, id)
    requires TraceOk(before + [Fired(id, Other, last)] + after + [fired], size)
    ensures Now(before + [Fired(id, Other, last)] + after) == Now(before) + size
  {
    hide Book, TraceOk, Now;
    var log := before + [Fired(id, Other, last)];
    LogGrows(log + after, fired, size);
    PrefixOk(log, after, size);
    LogGrows(before, Fired(id, Other, last), size);
    StaysBooked(log, after, size, id);
  }

  lemma {:induction false} PrefixOk(log: seq<Event>, after: seq<Event>, size: nat)
    requires size > 0 && TraceOk(log + after, size)
    ensures TraceOk(log, size)
  {
    hide Punctual;
    if after == [] {
      assert log + after == log;
    } else {
      assert (log + after)[..|log + after|-1] == log + after[..|after|-1];
      PrefixOk(log, after[..|after|-1], size);
    }
  }
}
