/** What becomes of the items sent to a netgraph node (lib/ff_ng_base.c), told from what can be observed of the
    steps of the gate: where an activation was, where it is, and what the queue holds. */
module NetgraphItems {
  import opened Options
  import opened NetgraphGate

  datatype Event =
    | Sent(t: Tid, i: Item)       // ng_snd_item was called
    | Direct(t: Tid, i: Item)     // the sender starts to apply the item itself
    | Arrived(t: Tid, i: Item)    // the item is at the end of the queue
    | Taken(t: Tid, i: Item)      // an ngthread starts to apply the item
    | Freed(t: Tid, i: Item)      // a flush frees the item

  /** What can be seen of a step of activation t from s to s'. */
  function Observed(s: State, s': State, t: Tid, c: Choice): (log: seq<Event>)
    requires t in s.pc && t in s'.pc
    ensures |log| <= 1
  {
    var p, q := s.pc[t], s'.pc[t];
    if p.Idle? && (c.Send? || c.SendQueued?) then [Sent(t, c.i)]
    else if !p.Hold? && q.Hold? then [if q.worker then Taken(t, q.i) else Direct(t, q.i)]
    else if |s.queue| < |s'.queue| then [Arrived(t, s'.queue[|s.queue|])]
    else if p.Hold? && p.h.FlushUnlock? && p.h.freed.Some? then [Freed(t, p.h.freed.value)]
    else []
  }

  function Stepped(s: State, step: (Tid, Choice)): State {
    if step.0 in s.pc then Next(s, step.0, step.1) else s
  }

  function Seen(s: State, step: (Tid, Choice)): (log: seq<Event>)
    ensures |log| <= 1
  {
    if step.0 in s.pc then Observed(s, Next(s, step.0, step.1), step.0, step.1) else []
  }

  /** What can be seen of a run. */
  function Log(s: State, steps: seq<(Tid, Choice)>): seq<Event> {
    if steps == [] then [] else Log(s, steps[..|steps|-1]) + Seen(Run(s, steps[..|steps|-1]), steps[|steps|-1])
  }

  function SentBy(e: Event, t: Tid): seq<Item> {
    if e.Sent? && e.t == t then [e.i] else []
  }

  function EnteredBy(e: Event, t: Tid): seq<Item> {
    if (e.Direct? || e.Arrived?) && e.t == t then [e.i] else []
  }

  function Arriving(e: Event): seq<Item> {
    if e.Arrived? then [e.i] else []
  }

  function Departing(e: Event): seq<Item> {
    if e.Taken? || e.Freed? then [e.i] else []
  }

  function SentIn(log: seq<Event>, t: Tid): seq<Item> {
    if log == [] then [] else SentBy(log[0], t)
  }

  function EnteredIn(log: seq<Event>, t: Tid): seq<Item> {
    if log == [] then [] else EnteredBy(log[0], t)
  }

  function ArrivingIn(log: seq<Event>): seq<Item> {
    if log == [] then [] else Arriving(log[0])
  }

  function DepartingIn(log: seq<Event>): seq<Item> {
    if log == [] then [] else Departing(log[0])
  }

  /** The items that t was given to send. */
  function Sends(log: seq<Event>, t: Tid): seq<Item> {
    if log == [] then [] else Sends(log[..|log|-1], t) + SentBy(log[|log|-1], t)
  }

  /** The items that t applied directly or queued. */
  function Entries(log: seq<Event>, t: Tid): seq<Item> {
    if log == [] then [] else Entries(log[..|log|-1], t) + EnteredBy(log[|log|-1], t)
  }

  /** The items that were queued. */
  function Arrivals(log: seq<Event>): seq<Item> {
    if log == [] then [] else Arrivals(log[..|log|-1]) + Arriving(log[|log|-1])
  }

  /** The items that ngthreads started to apply and that flushes freed. */
  function Departures(log: seq<Event>): seq<Item> {
    if log == [] then [] else Departures(log[..|log|-1]) + Departing(log[|log|-1])
  }

  /** The item that an activation has been given and neither applied nor queued yet. */
  function Carried(p: Pc): seq<Item> {
    match p
    case Acq(_, i) => [i]
    case Que(q, i) => if q.QueueLock? || q.QueueSet? || q.QueueInsert? then [i] else []
    case _ => []
  }

  /** The item that an activation has taken off the queue and not started to apply or freed yet. */
  function Hand(p: Pc): seq<Item> {
    match p
    case Wrk(d) => if d.DequeueClear? || d.DequeueUnlock? then [d.i] else []
    case Hold(h, _, _) =>
      if h.FlushClear? then [h.f] else if h.FlushUnlock? && h.freed.Some? then [h.freed.value] else []
    case _ => []
  }

  /** The one that is between the queue and its end: its holder has the mutex. */
  function InHand(s: State): seq<Item> {
    if s.mtx.Some? && s.mtx.value in s.pc then Hand(s.pc[s.mtx.value]) else []
  }

  lemma Grows(log: seq<Event>, more: seq<Event>, t: Tid)
    requires |more| <= 1
    ensures Sends(log + more, t) == Sends(log, t) + SentIn(more, t)
    ensures Entries(log + more, t) == Entries(log, t) + EnteredIn(more, t)
    ensures Arrivals(log + more) == Arrivals(log) + ArrivingIn(more)
    ensures Departures(log + more) == Departures(log) + DepartingIn(more)
  {
    hide SentBy, EnteredBy, Arriving, Departing;
    if more == [] {
      assert log + more == log;
    } else {
      assert (log + more)[..|log|] == log;
    }
  }

  // ----- one step

  lemma ActCarries(s: State, p: Pc, c: Choice)
    ensures var (q, e) := Act(s, p, c);
      && Carried(p) + (if p.Idle? && (c.Send? || c.SendQueued?) then [c.i] else []) ==
         (if !p.Hold? && q.Hold? && !q.worker then [q.i] else if e.Insert? then [e.i] else []) + Carried(q)
      && (p.Idle? ==> !q.Hold? && !e.Insert?) && (e.Insert? ==> !q.Hold?)
  {
  }

  /** What a step applies or frees that was in the hand of the activation. */
  function Released(p: Pc, q: Pc): seq<Item> {
    if !p.Hold? && q.Hold? && q.worker then [q.i]
    else if p.Hold? && p.h.FlushUnlock? && p.h.freed.Some? then [p.h.freed.value]
    else []
  }

  lemma ActHands(s: State, p: Pc, c: Choice)
    ensures var (q, e) := Act(s, p, c);
      Hand(p) + (if e.Remove? && s.queue != [] then [s.queue[0]] else []) == Released(p, q) + Hand(q)
  {
    hide CanProceed;
    match p {
      case Idle =>
      case Acq(a, i) =>
      case Que(k, i) =>
      case Hold(h, i, worker) =>
      case Chk(k) =>
      case Wrk(d) =>
    }
  }

  lemma HandLocked(p: Pc)
    ensures !p.Locks() ==> Hand(p) == []
  {
  }

  lemma LockingHand(s: State, p: Pc, c: Choice)
    ensures var (q, e) := Act(s, p, c); e.LockMtx? ==> Hand(q) == []
  {
  }

  /** What is observed, by the effect of the step. */
  lemma ObservedIs(s: State, t: Tid, c: Choice)
    requires t in s.pc
    ensures var s', p := Next(s, t, c), s.pc[t];
      var (q, e) := Act(s, p, c);
      && s'.pc == s.pc[t := q]
      && Observed(s, s', t, c) ==
         if p.Idle? && (c.Send? || c.SendQueued?) then [Sent(t, c.i)]
         else if !p.Hold? && q.Hold? then [if q.worker then Taken(t, q.i) else Direct(t, q.i)]
         else if e.Insert? then [Arrived(t, e.i)]
         else if p.Hold? && p.h.FlushUnlock? && p.h.freed.Some? then [Freed(t, p.h.freed.value)]
         else []
  {
    hide Act;
  }

  /** An activation goes on with the item it was given, until it applies or queues that item. */
  lemma StepCarries(s: State, t: Tid, c: Choice, u: Tid)
    requires t in s.pc && u in s.pc
    ensures var s' := Next(s, t, c);
      var log := Observed(s, s', t, c);
      && u in s'.pc
      && Carried(s.pc[u]) + SentIn(log, u) ==
         EnteredIn(log, u) + Carried(s'.pc[u])
  {
    hide Act, Next, Observed, Carried;
    ObservedIs(s, t, c);
    ActCarries(s, s.pc[t], c);
    assert Carried(s.pc[u]) + [] == [] + Carried(s.pc[u]);
  }

  lemma StepArrives(s: State, t: Tid, c: Choice)
    requires t in s.pc
    ensures var s' := Next(s, t, c);
      var log := Observed(s, s', t, c);
      s'.arrived == s.arrived + ArrivingIn(log)
  {
    hide Act, Observed;
    ObservedIs(s, t, c);
    ActCarries(s, s.pc[t], c);
  }

  lemma HandMoves(s: State, t: Tid, c: Choice)
    requires t in s.pc && Mutexed(s)
    ensures var s', e, log := Next(s, t, c), Act(s, s.pc[t], c).1, Observed(s, Next(s, t, c), t, c);
      InHand(s) + (if e.Remove? && s.queue != [] then [s.queue[0]] else []) ==
      DepartingIn(log) + InHand(s')
  {
    hide Act, Observed, Hand, Pc.Locks;
    ObservedIs(s, t, c);
    ActHands(s, s.pc[t], c);
    HandLocked(s.pc[t]);
    HandLocked(Act(s, s.pc[t], c).0);
    LockingHand(s, s.pc[t], c);
    ActLocks(s, s.pc[t], c);
    ActCarries(s, s.pc[t], c);
  }

  lemma LeftAfter(s: State, t: Tid, c: Choice)
    requires t in s.pc
    ensures Next(s, t, c).left == s.left + if Act(s, s.pc[t], c).1.Remove? && s.queue != [] then [s.queue[0]] else []
  {
    hide Act;
  }

  /** What leaves the queue is what is then in the hand of the activation that took it, and what is in a hand is
      what that activation applies or frees. */
  lemma StepDeparts(s: State, t: Tid, c: Choice, gone: seq<Item>)
    requires t in s.pc && Mutexed(s) && s.left == gone + InHand(s)
    ensures Stepped(s, (t, c)).left == gone + DepartingIn(Seen(s, (t, c))) + InHand(Stepped(s, (t, c)))
  {
    hide Act, Observed, InHand, DepartingIn, Do;
    HandMoves(s, t, c);
    LeftAfter(s, t, c);
    Regrouped(gone, InHand(s), if Act(s, s.pc[t], c).1.Remove? && s.queue != [] then [s.queue[0]] else []);
    Regrouped(gone, DepartingIn(Seen(s, (t, c))), InHand(Next(s, t, c)));
  }

  lemma Regrouped(a: seq<Item>, b: seq<Item>, c: seq<Item>)
    ensures a + b + c == a + (b + c) && a + [] == a && [] + a == a
  {
  }

  // ----- every interleaving

  lemma OneMore(s: State, steps: seq<(Tid, Choice)>, u: Tid)
    requires steps != []
    ensures var before, last := steps[..|steps|-1], steps[|steps|-1];
      var r, log := Run(s, before), Log(s, before);
      var more, all := Seen(r, last), Log(s, steps);
      && Run(s, steps) == Stepped(r, last)
      && Sends(all, u) == Sends(log, u) + SentIn(more, u) && Entries(all, u) == Entries(log, u) + EnteredIn(more, u)
      && Arrivals(all) == Arrivals(log) + ArrivingIn(more) && Departures(all) == Departures(log) + DepartingIn(more)
  {
    hide Next, Seen, SentBy, EnteredBy, Arriving, Departing;
    var before := steps[..|steps|-1];
    Grows(Log(s, before), Seen(Run(s, before), steps[|steps|-1]), u);
  }

  lemma AnyCarries(s: State, step: (Tid, Choice), u: Tid)
    requires u in s.pc
    ensures u in Stepped(s, step).pc
    ensures Carried(s.pc[u]) + SentIn(Seen(s, step), u) == EnteredIn(Seen(s, step), u) + Carried(Stepped(s, step).pc[u])
  {
    hide Next, Observed, Carried, SentBy, EnteredBy;
    if step.0 in s.pc {
      StepCarries(s, step.0, step.1, u);
    } else {
      Regrouped(Carried(s.pc[u]), [], []);
    }
  }

  /** Every item that an activation was given to send is applied directly or queued by that activation, once and in
      the order given, and nothing else is; only the last one may still be under way. */
  lemma {:induction false} EverythingEnters(s: State, steps: seq<(Tid, Choice)>, t: Tid)
    requires Init(s) && t in s.pc
    ensures var r, log := Run(s, steps), Log(s, steps);
      t in r.pc && Sends(log, t) == Entries(log, t) + Carried(r.pc[t])
  {
    hide Run, Log, Carried, Stepped, SentIn, EnteredIn, Seen, Sends, Entries;
    NothingYet(s, t);
    if steps != [] {
      var before, last := steps[..|steps|-1], steps[|steps|-1];
      EverythingEnters(s, before, t);
      OneMore(s, steps, t);
      var r, log := Run(s, before), Log(s, before);
      AnyCarries(r, last, t);
      Regrouped(Entries(log, t), Carried(r.pc[t]), SentIn(Seen(r, last), t));
      Regrouped(Entries(log, t), EnteredIn(Seen(r, last), t), Carried(Run(s, steps).pc[t]));
    }
  }

  lemma NothingYet(s: State, t: Tid)
    ensures Run(s, []) == s && Log(s, []) == [] && Carried(Idle) == []
    ensures Sends([], t) == [] && Entries([], t) == [] && Arrivals([]) == [] && Departures([]) == []
  {
  }

  lemma AnyServes(s: State, step: (Tid, Choice), gone: seq<Item>)
    requires Inv(s) && s.left == gone + InHand(s)
    ensures var s', log := Stepped(s, step), Seen(s, step);
      s'.arrived == s.arrived + ArrivingIn(log) && s'.left == gone + DepartingIn(log) + InHand(s')
  {
    hide Next, Observed, InHand, Arriving, Departing, Counted, Flagged, Informed, Scheduled, Awake, Mutexed, Fifo;
    if step.0 in s.pc {
      StepArrives(s, step.0, step.1);
      StepDeparts(s, step.0, step.1, gone);
    } else {
      Regrouped(gone, [], []);
      Regrouped(s.arrived, [], []);
    }
  }

  /** What ngthreads start to apply and flushes free, in order, followed by the one item that is between the queue
      and its end, is what left the queue; and with what is queued it is everything that was queued, in the order
      of arrival. */
  lemma {:induction false} ServedInOrder(s: State, steps: seq<(Tid, Choice)>)
    requires Init(s)
    ensures var r, log := Run(s, steps), Log(s, steps);
      && r.arrived == Arrivals(log) && r.left == Departures(log) + InHand(r)
      && Arrivals(log) == Departures(log) + InHand(r) + r.queue
  {
    hide Run, Log, Stepped, ArrivingIn, DepartingIn, Seen, Arrivals, Departures, Inv;
    NothingYet(s, 0);
    if steps != [] {
      var before := steps[..|steps|-1];
      ServedInOrder(s, before);
      RunInv(s, before);
      OneMore(s, steps, 0);
      AnyServes(Run(s, before), steps[|steps|-1], Departures(Log(s, before)));
    }
    FirstInFirstOut(s, steps);
  }

  /** The item that an ngthread is about to apply is the last one that left the queue. */
  lemma TakenIsLast(s: State, steps: seq<(Tid, Choice)>, t: Tid)
    requires Init(s) && t in Run(s, steps).pc
    ensures var r := Run(s, steps);
      r.pc[t].Wrk? && (r.pc[t].d.DequeueClear? || r.pc[t].d.DequeueUnlock?) ==>
        r.left != [] && r.left[|r.left|-1] == r.pc[t].d.i
  {
    hide Run, Log;
    ServedInOrder(s, steps);
    RunInv(s, steps);
  }

  /** At rest nothing is under way: everything sent was applied directly or queued, and everything queued was applied
      by an ngthread, was freed by a flush, or is in the queue. */
  lemma NothingLost(s: State, steps: seq<(Tid, Choice)>, t: Tid)
    requires Init(s) && t in s.pc && forall u :: u in Run(s, steps).pc ==> Run(s, steps).pc[u].Idle?
    ensures var r, log := Run(s, steps), Log(s, steps);
      Sends(log, t) == Entries(log, t) && Arrivals(log) == Departures(log) + r.queue
  {
    hide Run, Log, Sends, Entries, Arrivals, Departures;
    EverythingEnters(s, steps, t);
    ServedInOrder(s, steps);
    var r, log := Run(s, steps), Log(s, steps);
    assert InHand(r) == [];
    assert Entries(log, t) + [] == Entries(log, t) && Departures(log) + [] == Departures(log);
  }
}
