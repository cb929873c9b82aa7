/** The levelled timing wheel of the example (example/fstack0/timingwheel.c) as an object. Timers are numbers, a
    slot is the list of its timers, and a callback is what it does to the wheel and what it returns. */
module TimingWheel {
  import opened Lists
  import opened Options
  import opened TimerTrace
  import opened TimingSpec

  /** The slots a wheel for so many milliseconds has, rounded up. */
  function Slots(ms: nat): nat {
    if ms % 10 == 0 then ms / 10 else ms / 10 + 1
  }

  /** The place of x in a list. */
  function Position(l: seq<nat>, x: nat): (i: nat)
    requires x in l
    ensures i < |l| && l[i] == x
  {
    if l[0] == x then 0 else Position(l[1..], x) + 1
  }

  lemma PositionIs(l: seq<nat>, i: nat)
    requires Distinct(l) && i < |l|
    ensures Position(l, l[i]) == i
  {
  }

  /** The timer will fire with the next trigger and be due again at once. */
  predicate ShortDue(b: map<nat, Entry>, now: nat, id: nat) {
    id in b && b[id].ms < 10 && b[id].due == now + 1
  }

  ghost predicate OneShortDue(b: map<nat, Entry>, now: nat) {
    forall x, y | ShortDue(b, now, x) && ShortDue(b, now, y) :: x == y
  }

  lemma NextWait(p: nat, q: nat, size: nat)
    requires p < size && q < size
    ensures Wait(p, q, 0, false, size) == 1 <==> q == if p + 1 == size then 0 else p + 1
  {
  }

  /** Such timers are the short ones of the next slot. */
  lemma ShortSlot(s: State, b: map<nat, Entry>, now: nat, id: nat)
    requires Inv(s, {}, b, now)
    ensures var t := Advanced(s);
      t.p < |t.slots| && (ShortDue(b, now, id) <==> id in t.slots[t.p] && Short(t.timers, id))
  {
    hide Wait;
    var t := Advanced(s);
    assert SlotOk(s, t.p);
    if id in b {
      assert TimerOk(s, id, false, b[id].due, now);
      NextWait(s.p, s.spot[id], s.size);
    }
  }

  lemma OneShortSlot(s: State, b: map<nat, Entry>, now: nat)
    requires Inv(s, {}, b, now)
    ensures var t := Advanced(s); t.p < |t.slots| && (OneShortDue(b, now) <==> OneShort(t.slots[t.p], t.timers))
  {
    hide Inv, ShortDue, Short;
    InvSlots(s, {}, b, now);
    var t := Advanced(s);
    ShortSlot(s, b, now, 0);
    forall id ensures ShortDue(b, now, id) <==> id in t.slots[t.p] && Short(t.timers, id) {
      ShortSlot(s, b, now, id);
    }
  }

  class Wheel {
    const size: nat
    const env: nat -> Answer      // what the callbacks do
    var p: nat
    var slots: seq<seq<nat>>
    var timers: map<nat, Timer>
    var spot: map<nat, nat>       // the slot whose list the timer's node is in
    var calls: nat                // how many callbacks have returned
    ghost var log: seq<Event>

    ghost function Look(): State
      reads this
    {
      State(p, size, slots, timers, spot)
    }

    /** The events so far are right, and count the calls. */
    ghost predicate Told()
      reads this
    {
      size > 0 && TraceOk(log, size) && calls == Firings(log)
    }

    /** The timers are where the events so far say, and fired when they should; the sweep has yet to reach
        those in pend. */
    ghost predicate Swept(pend: set<nat>)
      reads this
    {
      Told() && Inv(Look(), pend, Book(log, size), Now(log))
    }

    ghost predicate Valid()
      reads this
    {
      Swept({})
    }

    /** tw_open. */
    constructor (ms: nat, env: nat -> Answer)
      requires ms > 0
      ensures Valid() && log == [] && size == Slots(ms) == (ms + 9) / 10 && this.env == env && calls == 0
    {
      this.env := env;
      size := if ms % 10 == 0 then ms / 10 else ms / 10 + 1;
      p, timers, spot, calls, log := 0, map[], map[], 0, [];
      slots := seq(if ms % 10 == 0 then ms / 10 else ms / 10 + 1, _ => []);
    }

    /** tw_add_timer, between two sweeps or inside one that goes on or ends with the current timer. */
    method AddTimer(id: nat, ms: nat, ghost pend: set<nat>, ghost goesOn: bool)
      requires Swept(pend) && id !in timers
      modifies this`slots, this`timers, this`spot, this`log
      ensures Swept(if Back(old(Look()), ms, goesOn) then pend + {id} else pend)
      ensures log == old(log) + [Added(id, ms, !goesOn)] && Now(log) == old(Now(log)) && Look() == Put(old(Look()), id, ms)
      ensures Book(log, size) == old(Book(log, size))[id := Entry(ms, Now(log) + Delay(ms, size, !goesOn))]
    {
      hide Inv, Delay, TraceOk, Book, Target, Level, Firings, Now;
      ghost var s, b := Look(), Book(log, size);
      InvSlots(s, pend, b, Now(log));
      PutKeeps(s, pend, b, Now(log), id, ms, goesOn);
      LogGrows(log, Added(id, ms, !goesOn), size);
      TargetWaits(p, ms, size);
      var q := Target(p, ms, size);
      timers := timers[id := Timer(ms, Level(ms, size))];
      slots := slots[q := slots[q] + [id]];
      spot := spot[id := q];
      log := log + [Added(id, ms, !goesOn)];
    }

    /** tw_del_timer. */
    method DelTimer(id: nat, ghost pend: set<nat>)
      requires Swept(pend) && id in timers
      modifies this`slots, this`timers, this`spot, this`log
      ensures Swept(pend - {id}) && log == old(log) + [Deleted(id)] && Now(log) == old(Now(log))
      ensures id in old(spot) && old(spot)[id] < |old(slots)| && Look() == Taken(old(Look()), id)
      ensures Book(log, size) == old(Book(log, size)) - {id}
    {
      hide Inv, TraceOk, Book, Firings, Now, Minus;
      ghost var s, b := Look(), Book(log, size);
      InvSlots(s, pend, b, Now(log));
      TakenKeeps(s, pend, b, Now(log), id);
      LogGrows(log, Deleted(id), size);
      slots := slots[spot[id] := Minus(slots[spot[id]], id)];
      timers := timers - {id};
      spot := spot - {id};
      log := log + [Deleted(id)];
    }

    /** One thing that a callback does. */
    method DoAct(c: Call, act: Act, ghost a: seq<nat>, ghost r: seq<nat>) returns (ghost a': seq<nat>, ghost r': seq<nat>)
      requires Told() && Visiting(Look(), c, a, r, Book(log, size), Now(log))
      modifies this`slots, this`timers, this`spot, this`log
      ensures Told() && Visiting(Look(), c, a', r', Book(log, size), Now(log)) && Now(log) == old(Now(log))
      ensures log == old(log) + ActEvents(old(Book(log, size)).Keys, c, act)
      ensures Urgent(r', timers) <= old(Urgent(r, timers))
      ensures c.id in timers && c.id in old(timers) && timers[c.id] == old(timers)[c.id]
    {
      hide Inv, Delay, TraceOk, Book, Firings, Now, Put, Taken, Urgent, Pending, OneShort, Target, Back;
      ghost var s, b := Look(), Book(log, size);
      InvSlots(s, Pending(c, r), b, Now(log));
      a', r' := ActKeeps(s, c, a, r, b, Now(log), act);
      match act {
        case Add(id, ms) =>
          if id !in timers && ms >= 10 {
            AddTimer(id, ms, Pending(c, r), c.next.Some?);
          }
        case Del(id) =>
          if id in timers && id != c.id && c.next != Some(id) {
            DelTimer(id, Pending(c, r));
          }
      }
    }

    /** The body of a callback. */
    method RunCallback(c: Call, acts: seq<Act>, ghost a: seq<nat>, ghost r: seq<nat>) returns (ghost a': seq<nat>, ghost r': seq<nat>)
      requires Told() && Visiting(Look(), c, a, r, Book(log, size), Now(log)) && c.id in timers
      modifies this`slots, this`timers, this`spot, this`log
      ensures Told() && Visiting(Look(), c, a', r', Book(log, size), Now(log)) && Now(log) == old(Now(log))
      ensures log == old(log) + ActsEvents(old(log), size, c, acts)
      ensures Urgent(r', timers) <= old(Urgent(r, timers))
      ensures c.id in timers && timers[c.id] == old(timers)[c.id]
    {
      hide Visiting, TraceOk, Book, Firings, Now, Urgent, ActsEvents, ActEvents;
      a', r' := a, r;
      assert acts[..0] == [];
      NoActs(log, size, c);
      ghost var start := log;
      for j := 0 to |acts|
        invariant Told() && Visiting(Look(), c, a', r', Book(log, size), Now(log)) && Now(log) == old(Now(log))
        invariant log == start + ActsEvents(start, size, c, acts[..j])
        invariant Urgent(r', timers) <= old(Urgent(r, timers))
        invariant c.id in timers && timers[c.id] == old(timers)[c.id]
      {
        ActsSnoc(start, size, c, acts, j);
        a', r' := DoAct(c, acts[j], a', r');
      }
      assert acts[..|acts|] == acts;
    }

    /** What becomes of a timer whose callback has returned, and where the sweep goes on. */
    method Settle(c: Call, reply: Reply, ghost a: seq<nat>, ghost r: seq<nat>) returns (next: nat)
      requires Told() && Visiting(Look(), c, a, r, Book(log, size), Now(log)) && c.id in timers && timers[c.id].level == 0
      modifies this`slots, this`timers, this`spot, this`log, this`calls
      ensures log == old(log) + [Fired(c.id, reply, c.next.None?)] && calls == old(calls) + 1 && Now(log) == old(Now(log))
      ensures p < |slots| && next <= |slots[p]| && Swept(Elements(slots[p][next..])) && OneShort(slots[p], timers)
      ensures Urgent(slots[p][next..], timers) <= old(Urgent(r, timers))
      ensures old(Short(timers, c.id)) ==> !Ahead(slots[p][next..], timers)
      ensures c.next.None? ==> next == |slots[p]|
    {
      hide Inv, TraceOk, Book, Firings, Now, Urgent, Pending, OneShort, Target, Level, Minus, Ahead, Short, Rebooked, Elements, Visiting;
      ghost var s, b, now := Look(), Book(log, size), Now(log);
      ghost var n := Settled(s, c, a, r, b, now, reply);
      LogGrows(log, Fired(c.id, reply, c.next.None?), size);
      TargetWaits(p, timers[c.id].ms, size);
      log := log + [Fired(c.id, reply, c.next.None?)];
      calls := calls + 1;
      match reply {
        case Success =>
          var q := Target(p, timers[c.id].ms, size);
          timers := timers[c.id := Timer(timers[c.id].ms, Level(timers[c.id].ms, size))];
          slots := slots[p := Minus(slots[p], c.id)];
          slots := slots[q := slots[q] + [c.id]];
          spot := spot[c.id := q];
        case Close =>
          slots := slots[p := Minus(slots[p], c.id)];
          timers := timers - {c.id};
          spot := spot - {c.id};
        case Other =>
      }
      assert Look() == Replied(s, c.id, reply);
      if c.next.Some? {
        PositionIs(slots[p], n);
        next := Position(slots[p], c.next.value);
      } else {
        next := |slots[p]|;
      }
    }

    /** The sweep comes to a timer on level 0 and calls it. */
    method Fire(i: nat) returns (next: nat, ghost c: Call)
      requires p < |slots| && i < |slots[p]| && Swept(Elements(slots[p][i..])) && OneShort(slots[p], timers)
      requires slots[p][i] in timers && timers[slots[p][i]].level == 0
      modifies this`slots, this`timers, this`spot, this`log, this`calls
      ensures p < |slots| && next <= |slots[p]| && Swept(Elements(slots[p][next..])) && OneShort(slots[p], timers)
      ensures c == Call(old(slots[p][i]), if i + 1 < old(|slots[p]|) then Some(old(slots[p])[i + 1]) else None)
      ensures log == old(log) + CallEvents(old(log), size, c, env(old(calls))) && calls == old(calls) + 1 && Now(log) == old(Now(log))
      ensures Closer(old(slots[p][i..]), old(timers), slots[p][next..], timers)
    {
      hide Inv, TraceOk, Book, Firings, Now, Urgent, Pending, OneShort, Ahead, Short, Elements, Visiting, Closer, ActsEvents;
      ghost var timers0 := timers;
      var id := slots[p][i];
      var call := Call(id, if i + 1 < |slots[p]| then Some(slots[p][i + 1]) else None);
      ghost var a, r := slots[p][..i], slots[p][i+1..];
      assert slots[p][i..] == [id] + r;
      VisitStarts(Look(), i, call, Book(log, size), Now(log));
      var answer := env(calls);
      ghost var a', r' := RunCallback(call, answer.acts, a, r);
      ghost var timers1 := timers;
      next := Settle(call, answer.reply, a', r');
      c := call;
      SameShort(timers0, timers1, id);
      assert r == [] ==> slots[p][next..] == [];
      CallCloser(id, r, timers0, r', timers1, slots[p][next..], timers);
    }

    /** The sweep comes to a timer on a higher level. */
    method Lower(i: nat)
      requires p < |slots| && i < |slots[p]| && Swept(Elements(slots[p][i..])) && OneShort(slots[p], timers)
      requires slots[p][i] in timers && timers[slots[p][i]].level > 0
      modifies this`timers
      ensures Swept(Elements(slots[p][i+1..])) && OneShort(slots[p], timers)
      ensures Closer(old(slots[p][i..]), old(timers), slots[p][i+1..], timers)
    {
      hide Inv, TraceOk, Book, Firings, Now, Urgent, Ahead, Closer;
      ghost var pend := Elements(slots[p][i..]);
      InvSlots(Look(), pend, Book(log, size), Now(log));
      var id := slots[p][i];
      RestElements(slots[p], i);
      LoweredKeeps(Look(), pend, Book(log, size), Now(log), id);
      LowerCloser(Look(), i, pend, Book(log, size), Now(log));
      timers := timers[id := timers[id].(level := timers[id].level - 1)];
    }

    /** One turn of the loop of tw_trigger. */
    method Visit(i: nat) returns (next: nat, ghost visits: seq<Call>)
      requires p < |slots| && i < |slots[p]| && Swept(Elements(slots[p][i..])) && OneShort(slots[p], timers)
      modifies this`slots, this`timers, this`spot, this`log, this`calls
      ensures p < |slots| && next <= |slots[p]| && Swept(Elements(slots[p][next..])) && OneShort(slots[p], timers)
      ensures |visits| <= 1 && calls == old(calls) + |visits| && Now(log) == old(Now(log))
      ensures log == old(log) + if visits == [] then [] else CallEvents(old(log), size, visits[0], env(old(calls)))
      ensures Closer(old(slots[p][i..]), old(timers), slots[p][next..], timers)
    {
      hide Inv, TraceOk, Book, Firings, Now, Urgent, Ahead, Closer, OneShort, CallEvents;
      RestElements(slots[p], i);
      DueNow(Look(), Elements(slots[p][i..]), Book(log, size), Now(log), slots[p][i]);
      if timers[slots[p][i]].level == 0 {
        ghost var c;
        next, c := Fire(i);
        visits := [c];
      } else {
        Lower(i);
        next, visits := i + 1, [];
      }
    }

    /** The loop of tw_trigger. */
    method Sweep() returns (ghost visits: seq<Call>)
      requires p < |slots| && Swept(Elements(slots[p])) && OneShort(slots[p], timers)
      modifies this`slots, this`timers, this`spot, this`log, this`calls
      ensures Valid() && calls == old(calls) + |visits| && Now(log) == old(Now(log))
      ensures log == old(log) + CallsEvents(old(log), size, visits, env, old(calls))
    {
      hide Inv, TraceOk, Book, Firings, Now, Urgent, Ahead, Closer, OneShort, CallsEvents, CallEvents;
      ghost var start, n := log, calls;
      visits := [];
      NoCalls(start, size, env, n);
      var i: nat := 0;
      assert slots[p][0..] == slots[p];
      while i < |slots[p]|
        invariant p < |slots| && i <= |slots[p]| && Swept(Elements(slots[p][i..])) && OneShort(slots[p], timers)
        invariant Now(log) == old(Now(log)) && calls == n + |visits|
        invariant log == start + CallsEvents(start, size, visits, env, n)
        decreases Urgent(slots[p][i..], timers), if Ahead(slots[p][i..], timers) then 1 else 0, |slots[p]| - i
      {
        ghost var l, timers0 := slots[p][i..], timers;
        ghost var more;
        i, more := Visit(i);
        CloserMeans(l, timers0, slots[p][i..], timers);
        if more != [] {
          assert more == [more[0]];
          CallsSnoc(start, size, visits, more[0], env, n);
        } else {
          assert visits + more == visits;
        }
        visits := visits + more;
      }
      assert Elements(slots[p][i..]) == {};
    }

    /** tw_trigger. The callbacks could keep the sweep going for ever if two timers of the slot had intervals
        under 10 ms. */
    method Tick() returns (ghost visits: seq<Call>)
      requires Valid() && OneShortDue(Book(log, size), Now(log))
      modifies this
      ensures Valid() && Now(log) == old(Now(log)) + 1 && calls == old(calls) + |visits|
      ensures log == old(log) + [Trigger] + CallsEvents(old(log) + [Trigger], size, visits, env, old(calls))
    {
      hide Inv, TraceOk, Book, Firings, Now, OneShort, OneShortDue, CallsEvents, Elements;
      ghost var s, b := Look(), Book(log, size);
      InvSlots(s, {}, b, Now(log));
      Turned(s, b, Now(log));
      NoneDue(s, b, Now(log));
      OneShortSlot(s, b, Now(log));
      LogGrows(log, Trigger, size);
      p := p + 1;
      if p == size {
        p := 0;
      }
      log := log + [Trigger];
      visits := Sweep();
    }
  }

  lemma VisitStarts(s: State, i: nat, c: Call, b: map<nat, Entry>, now: nat)
    requires s.p < |s.slots| && i < |s.slots[s.p]| && Inv(s, Elements(s.slots[s.p][i..]), b, now) && OneShort(s.slots[s.p], s.timers)
    requires c == Call(s.slots[s.p][i], if i + 1 < |s.slots[s.p]| then Some(s.slots[s.p][i + 1]) else None)
    ensures Visiting(s, c, s.slots[s.p][..i], s.slots[s.p][i+1..], b, now)
  {
    hide Inv, OneShort;
    var l := s.slots[s.p];
    assert l == l[..i] + [l[i]] + l[i+1..];
    assert l[i..] == [l[i]] + l[i+1..];
    assert Pending(c, l[i+1..]) == Elements(l[i..]);
  }

  lemma SameShort(a: map<nat, Timer>, b: map<nat, Timer>, id: nat)
    requires id in a && id in b && a[id] == b[id]
    ensures Short(a, id) <==> Short(b, id)
  {
  }

  /** The rest of a slot, one timer later. */
  lemma RestElements(l: seq<nat>, i: nat)
    requires i < |l|
    ensures l[i] in l && l[i] in Elements(l[i..]) && (Distinct(l) ==> Elements(l[i+1..]) == Elements(l[i..]) - {l[i]})
  {
    assert l[i..] == [l[i]] + l[i+1..];
    assert l[i..][0] == l[i];
  }

  lemma NoCalls(log: seq<Event>, size: nat, env: nat -> Answer, n: nat)
    requires size > 0
    ensures CallsEvents(log, size, [], env, n) == [] && log + [] == log
  {
  }

  lemma CloserMeans(l: seq<nat>, timers: map<nat, Timer>, l': seq<nat>, timers': map<nat, Timer>)
    requires Closer(l, timers, l', timers')
    ensures var (u, u', h, h') := (Urgent(l, timers), Urgent(l', timers'), Ahead(l, timers), Ahead(l', timers'));
      u' < u || (u' == u && ((h && !h') || (h == h' && |l'| < |l|)))
  {
  }

  // ----- sweeps that do not end

  /** One turn of the loop of tw_trigger when the callbacks do nothing but ask for another call: the state, and
      where the sweep goes on. */
  function AskingTurn(s: State, i: nat): (State, nat)
    requires s.p < s.size == |s.slots| && i < |s.slots[s.p]| && s.slots[s.p][i] in s.timers
  {
    var id := s.slots[s.p][i];
    if s.timers[id].level > 0 then (Lowered(s, id), i + 1)
    else (Moved(s, id), if i + 1 == |s.slots[s.p]| then |Moved(s, id).slots[s.p]| else i)
  }

  /** Two timers under 10 ms are still ahead of the sweep. */
  ghost predicate TwoAhead(s: State, i: nat, x: nat, y: nat) {
    && s.p < s.size == |s.slots| && i < |s.slots[s.p]| && SlotOk(s, s.p) && s.slots[s.p][i] in s.timers
    && x != y && x in s.slots[s.p][i..] && y in s.slots[s.p][i..]
    && Short(s.timers, x) && Short(s.timers, y) && s.timers[x].level == 0 && s.timers[y].level == 0
  }

  /** The list of the slot after a timer of it was called. */
  lemma AskingSlot(s: State, i: nat)
    requires s.p < s.size == |s.slots| && i < |s.slots[s.p]| && SlotOk(s, s.p) && s.slots[s.p][i] in s.timers
    ensures var l, id := s.slots[s.p], s.slots[s.p][i];
      && SlotOk(Moved(s, id), s.p) && id !in l[i+1..]
      && Moved(s, id).slots[s.p] ==
           if Target(s.p, s.timers[id].ms, s.size) == s.p then l[..i] + l[i+1..] + [id] else l[..i] + l[i+1..]
  {
    hide Target, Level, Minus;
    var l, id := s.slots[s.p], s.slots[s.p][i];
    TargetWaits(s.p, s.timers[id].ms, s.size);
    assert l == l[..i] + [id] + l[i+1..] && l == l[..i] + ([id] + l[i+1..]);
    PartsDistinct(l[..i], id, l[i+1..]);
    MinusParts(l[..i], [id] + l[i+1..], id);
    MinusHead(id, l[i+1..]);
    MovedSlot(s, id, s.p);
  }

  /** They still are after the turn: the one that was called is the last of the list again. */
  lemma StillAhead(s: State, i: nat, x: nat, y: nat)
    requires TwoAhead(s, i, x, y)
    ensures var (t, j) := AskingTurn(s, i); TwoAhead(t, j, x, y)
  {
    hide TwoAhead, Lowered, Moved;
    TwoMeans(s, i, x, y);
    if s.timers[s.slots[s.p][i]].level > 0 {
      LowerAhead(s, i, x, y);
    } else {
      MoveAhead(s, i, x, y);
    }
  }

  lemma TwoMeans(s: State, i: nat, x: nat, y: nat)
    requires TwoAhead(s, i, x, y)
    ensures s.p < s.size == |s.slots| && i + 1 < |s.slots[s.p]| && s.slots[s.p][i] in s.timers
  {
  }

  lemma LowerAhead(s: State, i: nat, x: nat, y: nat)
    requires TwoAhead(s, i, x, y) && s.timers[s.slots[s.p][i]].level > 0
    ensures TwoAhead(Lowered(s, s.slots[s.p][i]), i + 1, x, y)
  {
    var l := s.slots[s.p];
    assert l[i..] == [l[i]] + l[i+1..] && l[i+1] in l;
  }

  lemma MoveAhead(s: State, i: nat, x: nat, y: nat)
    requires TwoAhead(s, i, x, y)
    ensures TwoAhead(Moved(s, s.slots[s.p][i]), i, x, y)
  {
    hide Target, Level, Minus, SlotOk, Moved, Short;
    var l, id := s.slots[s.p], s.slots[s.p][i];
    ShortTargets(s, x);
    ShortTargets(s, y);
    AskingSlot(s, i);
    AskingTimers(s, id, x);
    AskingTimers(s, id, y);
    var back := Target(s.p, s.timers[id].ms, s.size) == s.p;
    StaysBehind(l, i, back, x);
    StaysBehind(l, i, back, y);
    SlotTimers(Moved(s, id), s.p, i);
  }

  lemma ShortTargets(s: State, x: nat)
    requires s.p < s.size && Short(s.timers, x)
    ensures Target(s.p, s.timers[x].ms, s.size) == s.p
  {
    TargetShort(s.p, s.timers[x].ms, s.size);
  }

  /** The list after the entry at place i was taken out and perhaps put at the end. */
  lemma StaysBehind(l: seq<nat>, i: nat, back: bool, x: nat)
    requires i < |l| && x in l[i..] && (x == l[i] ==> back)
    ensures var l' := if back then l[..i] + l[i+1..] + [l[i]] else l[..i] + l[i+1..];
      i < |l'| && x in l'[i..]
  {
    assert l[i..] == [l[i]] + l[i+1..];
    var l' := if back then l[..i] + l[i+1..] + [l[i]] else l[..i] + l[i+1..];
    assert l'[i..] == if back then l[i+1..] + [l[i]] else l[i+1..];
  }

  lemma AskingTimers(s: State, id: nat, x: nat)
    requires s.p < s.size == |s.slots| && id in s.timers && Short(s.timers, x) && s.timers[x].level == 0
    ensures var t := Moved(s, id);
      t.p == s.p && t.size == |t.slots| == s.size && Short(t.timers, x) && t.timers[x].level == 0
  {
    hide Target, Level, Minus;
    TargetWaits(s.p, s.timers[id].ms, s.size);
    TargetShort(s.p, s.timers[x].ms, s.size);
  }

  lemma SlotTimers(s: State, q: nat, i: nat)
    requires q < |s.slots| && SlotOk(s, q) && i < |s.slots[q]|
    ensures s.slots[q][i] in s.timers
  {
  }

  /** The place of the sweep after n turns, as long as it does not end. */
  ghost function AskingSweep(s: State, i: nat, x: nat, y: nat, n: nat): (r: (State, nat))
    requires TwoAhead(s, i, x, y)
    ensures TwoAhead(r.0, r.1, x, y)
  {
    if n == 0 then (s, i)
    else
      var (t, j) := AskingSweep(s, i, x, y, n - 1);
      StillAhead(t, j, x, y);
      AskingTurn(t, j)
  }

  /** If two of the timers that are due with the next trigger have intervals under 10 ms, then callbacks that ask
      for another call keep its sweep going for ever: after any number of turns it is not at the end of the slot. */
  lemma SweepForever(s: State, b: map<nat, Entry>, now: nat, n: nat)
    requires Inv(s, {}, b, now) && !OneShortDue(b, now)
    ensures exists x, y :: TwoAhead(Advanced(s), 0, x, y) &&
              var (t, j) := AskingSweep(Advanced(s), 0, x, y, n); t.p == Advanced(s).p < |t.slots| && j < |t.slots[t.p]|
  {
    hide Inv, TwoAhead, ShortDue, Short;
    InvSlots(s, {}, b, now);
    var x, y :| ShortDue(b, now, x) && ShortDue(b, now, y) && x != y;
    DueAhead(s, b, now, x, y);
    SweepStays(Advanced(s), x, y, n);
  }

  lemma DueAhead(s: State, b: map<nat, Entry>, now: nat, x: nat, y: nat)
    requires Inv(s, {}, b, now) && ShortDue(b, now, x) && ShortDue(b, now, y) && x != y
    ensures TwoAhead(Advanced(s), 0, x, y)
  {
    hide Wait;
    ShortSlot(s, b, now, x);
    ShortSlot(s, b, now, y);
    var t := Advanced(s);
    assert SlotOk(s, t.p) && t.slots[t.p][0..] == t.slots[t.p];
    assert TimerOk(s, x, false, b[x].due, now) && TimerOk(s, y, false, b[y].due, now);
    assert t.slots[t.p][0] in t.slots[t.p];
  }

  lemma {:induction false} SweepStays(s: State, x: nat, y: nat, n: nat)
    requires TwoAhead(s, 0, x, y)
    ensures var (t, j) := AskingSweep(s, 0, x, y, n); t.p == s.p < |t.slots| && j < |t.slots[t.p]|
  {
    hide SlotOk, Short, Moved, Lowered;
    if n > 0 {
      SweepStays(s, x, y, n - 1);
      var (t, j) := AskingSweep(s, 0, x, y, n - 1);
      StillAhead(t, j, x, y);
      SamePlace(t, j);
    }
  }

  lemma SamePlace(s: State, i: nat)
    requires s.p < s.size == |s.slots| && i < |s.slots[s.p]| && s.slots[s.p][i] in s.timers
    ensures AskingTurn(s, i).0.p == s.p
  {
    hide Target, Level, Minus;
    TargetWaits(s.p, s.timers[s.slots[s.p][i]].ms, s.size);
  }

  lemma TargetShort(p: nat, ms: nat, size: nat)
    requires p < size && ms < 10
    ensures Target(p, ms, size) == p && Level(ms, size) == 0
  {
  }

  // ----- runs

  datatype Step = DoAdd(id: nat, ms: nat) | DoDel(id: nat) | DoTrigger

  function Triggers(steps: seq<Step>): nat {
    if steps == [] then 0 else Triggers(steps[..|steps|-1]) + (if steps[|steps|-1].DoTrigger? then 1 else 0)
  }

  /** The events of a step: a timer in use is not added again, only one in use is deleted, and a trigger is
      followed by the calls of its sweep, with what the callbacks do. A trigger that two timers under 10 ms could
      keep busy for ever is not given. */
  ghost predicate Did(log: seq<Event>, es: seq<Event>, size: nat, env: nat -> Answer, step: Step)
    requires size > 0
  {
    match step
    case DoAdd(id, ms) => es == if id in Book(log, size) then [] else [Added(id, ms, true)]
    case DoDel(id) => es == if id in Book(log, size) then [Deleted(id)] else []
    case DoTrigger =>
      if OneShortDue(Book(log, size), Now(log)) then exists visits :: Sweeps(log, es, size, env, visits) else es == []
  }

  ghost predicate Sweeps(log: seq<Event>, es: seq<Event>, size: nat, env: nat -> Answer, visits: seq<Call>)
    requires size > 0
  {
    es == [Trigger] + CallsEvents(log + [Trigger], size, visits, env, Firings(log))
  }

  /** One step. */
  method Perform(w: Wheel, step: Step) returns (ghost es: seq<Event>)
    requires w.Valid()
    modifies w
    ensures w.Valid() && w.log == old(w.log) + es && Did(old(w.log), es, w.size, w.env, step)
  {
    hide Inv, TraceOk, Book, Firings, Now, OneShortDue, Put, Taken, CallsEvents, Delay, Target, OneShort;
    InvSlots(w.Look(), {}, Book(w.log, w.size), Now(w.log));
    es := [];
    match step {
      case DoAdd(id, ms) =>
        if id !in w.timers {
          w.AddTimer(id, ms, {}, false);
          es := [Added(id, ms, true)];
        }
      case DoDel(id) =>
        if id in w.timers {
          ghost var none: set<nat> := {};
          w.DelTimer(id, none);
          assert none - {id} == none;
          es := [Deleted(id)];
        }
      case DoTrigger =>
        OneShortSlot(w.Look(), Book(w.log, w.size), Now(w.log));
        var next := if w.p + 1 == w.size then 0 else w.p + 1;
        if OneShort(w.slots[next], w.timers) {
          ghost var visits := w.Tick();
          es := [Trigger] + CallsEvents(old(w.log) + [Trigger], w.size, visits, w.env, Firings(old(w.log)));
          assert Sweeps(old(w.log), es, w.size, w.env, visits);
        }
    }
  }

  /** The timers in use have intervals of at least 10 ms. */
  ghost predicate NoneShort(b: map<nat, Entry>) {
    forall id | id in b :: b[id].ms >= 10
  }

  /** The log from one step to the next. */
  ghost predicate Follows(log: seq<Event>, cuts: seq<nat>, i: nat, size: nat, env: nat -> Answer, step: Step)
    requires size > 0
  {
    i + 1 < |cuts| && cuts[i] <= cuts[i + 1] <= |log| && Did(log[..cuts[i]], log[cuts[i]..cuts[i + 1]], size, env, step)
  }

  /** Whatever is added, deleted and triggered, and whatever the callbacks do and answer: the log consists of the
      events of the steps, one after the other, and is a trace of which TimerTrace speaks. */
  method AnyRun(ms: nat, steps: seq<Step>, env: nat -> Answer) returns (w: Wheel, ghost cuts: seq<nat>)
    requires ms > 0
    ensures w.Valid() && w.size == Slots(ms) > 0 && w.env == env && TraceOk(w.log, w.size)
    ensures |cuts| == |steps| + 1 && cuts[0] == 0 && cuts[|steps|] == |w.log|
    ensures forall i | 0 <= i < |steps| :: Follows(w.log, cuts, i, w.size, env, steps[i])
    ensures (forall s | s in steps && s.DoAdd? :: s.ms >= 10) ==> Now(w.log) == Triggers(steps)
  {
    hide Inv, TraceOk, Book, Firings, Now, Did, Slots, NoneShort, Triggers;
    w := new Wheel(ms, env);
    cuts := [0];
    assert steps[..0] == [];
    RunStarts(w.size);
    for i := 0 to |steps|
      invariant fresh(w) && w.Valid() && w.size == Slots(ms) && w.env == env
      invariant |cuts| == i + 1 && cuts[0] == 0 && cuts[i] == |w.log|
      invariant forall j | 0 <= j < i :: Follows(w.log, cuts, j, w.size, env, steps[j])
      invariant (forall s | s in steps && s.DoAdd? :: s.ms >= 10) ==> NoneShort(Book(w.log, w.size)) && Now(w.log) == Triggers(steps[..i])
    {
      ghost var log := w.log;
      ghost var es := Perform(w, steps[i]);
      ghost var cuts' := cuts + [|w.log|];
      forall j | 0 <= j < i + 1 ensures Follows(w.log, cuts', j, w.size, env, steps[j]) {
        FollowsOn(log, es, cuts, j, w.size, env, steps[j]);
      }
      cuts := cuts';
      if forall s | s in steps && s.DoAdd? :: s.ms >= 10 {
        assert steps[i] in steps;
        DidCounts(log, es, w.size, env, steps, i);
      }
    }
    assert steps[..|steps|] == steps;
  }

  lemma RunStarts(size: nat)
    requires size > 0
    ensures NoneShort(Book([], size)) && Now([]) == 0 == Triggers([])
  {
  }

  /** More events do not change what was before. */
  lemma FollowsOn(log: seq<Event>, es: seq<Event>, cuts: seq<nat>, j: nat, size: nat, env: nat -> Answer, step: Step)
    requires size > 0 && j < |cuts| && cuts[|cuts|-1] == |log|
    requires if j + 1 < |cuts| then Follows(log, cuts, j, size, env, step) else Did(log, es, size, env, step)
    ensures Follows(log + es, cuts + [|log + es|], j, size, env, step)
  {
    hide Did;
    var cuts', log' := cuts + [|log + es|], log + es;
    if j + 1 < |cuts| {
      assert log'[..cuts[j]] == log[..cuts[j]] && log'[cuts[j]..cuts[j+1]] == log[cuts[j]..cuts[j+1]];
    } else {
      assert log'[..|log|] == log && log'[|log|..|log'|] == es;
    }
  }

  /** Without short timers every trigger is given. */
  lemma DidCounts(log: seq<Event>, es: seq<Event>, size: nat, env: nat -> Answer, steps: seq<Step>, i: nat)
    requires size > 0 && i < |steps| && Did(log, es, size, env, steps[i]) && NoneShort(Book(log, size))
    requires steps[i].DoAdd? ==> steps[i].ms >= 10
    requires Now(log) == Triggers(steps[..i])
    ensures NoneShort(Book(log + es, size)) && Now(log + es) == Triggers(steps[..i+1])
  {
    hide Book, Now, CallsEvents, NoneShort, Booked;
    assert steps[..i+1][..i] == steps[..i];
    if es == [] {
      assert log + es == log;
      NoneShortDue(Book(log, size), Now(log));
    } else if !steps[i].DoTrigger? {
      LogGrows(log, es[0], size);
      BookedShort(Book(log, size), Now(log), es[0], size);
    } else {
      NoneShortDue(Book(log, size), Now(log));
      var visits :| Sweeps(log, es, size, env, visits);
      LogGrows(log, Trigger, size);
      BookedShort(Book(log, size), Now(log), Trigger, size);
      CallsShort(log + [Trigger], size, visits, env, Firings(log));
      assert log + es == log + [Trigger] + CallsEvents(log + [Trigger], size, visits, env, Firings(log));
    }
  }

  lemma NoneShortDue(b: map<nat, Entry>, now: nat)
    requires NoneShort(b)
    ensures OneShortDue(b, now)
  {
  }

  lemma BookedShort(b: map<nat, Entry>, now: nat, e: Event, size: nat)
    requires size > 0 && NoneShort(b) && (e.Added? ==> e.ms >= 10)
    ensures NoneShort(Booked(b, now, e, size))
  {
    hide Delay;
  }

  /** Events that add no short timer and pass no time. */
  predicate Quiet(es: seq<Event>) {
    forall e | e in es :: !e.Trigger? && (e.Added? ==> e.ms >= 10)
  }

  lemma {:induction false} QuietKeeps(log: seq<Event>, es: seq<Event>, size: nat)
    requires size > 0 && Quiet(es) && NoneShort(Book(log, size))
    ensures NoneShort(Book(log + es, size)) && Now(log + es) == Now(log)
  {
    hide Book, Now, NoneShort, Booked;
    if es == [] {
      assert log + es == log;
    } else {
      var front, e := es[..|es|-1], es[|es|-1];
      QuietKeeps(log, front, size);
      assert log + es == (log + front) + [e];
      LogGrows(log + front, e, size);
      BookedShort(Book(log + front, size), Now(log + front), e, size);
    }
  }

  lemma {:induction false} ActsQuiet(log: seq<Event>, size: nat, c: Call, acts: seq<Act>)
    requires size > 0
    ensures Quiet(ActsEvents(log, size, c, acts))
  {
    hide Book;
    if acts != [] {
      ActsQuiet(log, size, c, acts[..|acts|-1]);
    }
  }

  lemma {:induction false} CallsQuiet(log: seq<Event>, size: nat, calls: seq<Call>, env: nat -> Answer, n: nat)
    requires size > 0
    ensures Quiet(CallsEvents(log, size, calls, env, n))
  {
    hide ActsEvents;
    if calls != [] {
      var front := calls[..|calls|-1];
      CallsQuiet(log, size, front, env, n);
      ActsQuiet(log + CallsEvents(log, size, front, env, n), size, calls[|calls|-1], env(n + |calls| - 1).acts);
    }
  }

  lemma CallsShort(log: seq<Event>, size: nat, calls: seq<Call>, env: nat -> Answer, n: nat)
    requires size > 0 && NoneShort(Book(log, size))
    ensures var log' := log + CallsEvents(log, size, calls, env, n); NoneShort(Book(log', size)) && Now(log') == Now(log)
  {
    hide CallsEvents, Quiet, Book, Now, NoneShort;
    CallsQuiet(log, size, calls, env, n);
    QuietKeeps(log, CallsEvents(log, size, calls, env, n), size);
  }
}
