/** The levelled timing wheel of the example (example/fstack0/timingwheel.c): its state, what each operation
    and each turn of a sweep does to it, and the invariant that these keep. */
module TimingSpec {
  import opened Arith
  import opened Lists
  import opened Options
  import opened TimerTrace

  datatype Timer = Timer(ms: nat, level: nat)

  // ----- when the cursor comes by

  /** How many triggers until the cursor, now on slot p, next moves to slot q. */
  function Distance(p: nat, q: nat, size: nat): nat
    requires p < size && q < size
  {
    if q > p then q - p else q + size - p
  }

  /** When a timer will fire: level more turns after the cursor's next visit, which is this one for
      timers that the sweep has yet to reach. */
  function Wait(p: nat, q: nat, level: nat, pending: bool, size: nat): nat
    requires p < size && q < size
  {
    level * size + (if pending then 0 else Distance(p, q, size))
  }

  function Target(p: nat, ms: nat, size: nat): nat
    requires size > 0
  {
    (p + Ticks(ms)) % size
  }

  function Level(ms: nat, size: nat): nat
    requires size > 0
  {
    Ticks(ms) / size
  }

  /** A timer that is put in its target slot waits as long as it should. */
  lemma TargetWaits(p: nat, ms: nat, size: nat)
    requires p < size
    ensures Target(p, ms, size) < size
    ensures Wait(p, Target(p, ms, size), Level(ms, size), false, size) == Delay(ms, size, true)
    ensures Target(p, ms, size) == p <==> Whole(ms, size)
    ensures Target(p, ms, size) == p ==> Wait(p, p, Level(ms, size), true, size) == Delay(ms, size, false)
    ensures Ticks(ms) > 0 && Target(p, ms, size) == p ==> Level(ms, size) > 0
  {
    var n := Ticks(ms);
    var l, r := n / size, n % size;
    assert n == l * size + r;
    var q := if p + r < size then p + r else p + r - size;
    if p + r < size {
      DivModUnique(p + n, l, q, size);
    } else {
      MulDistributes(l, 1, size);
      DivModUnique(p + n, l + 1, q, size);
    }
  }

  lemma WaitPositive(p: nat, q: nat, level: nat, size: nat)
    requires p < size && q < size
    ensures Wait(p, q, level, false, size) > 0
  {
    MulNonNegative(level, size);
  }

  /** The cursor moves on: one trigger less to wait. */
  lemma CursorMoves(p: nat, q: nat, level: nat, size: nat)
    requires p < size && q < size
    ensures var p' := if p + 1 == size then 0 else p + 1;
      Wait(p', q, level, q == p', size) + 1 == Wait(p, q, level, false, size)
  {
  }

  // ----- the invariant

  datatype State = State(p: nat, size: nat, slots: seq<seq<nat>>, timers: map<nat, Timer>, spot: map<nat, nat>)

  /** The timer is in its slot, and due when the cursor has come by often enough. */
  ghost predicate TimerOk(s: State, id: nat, pending: bool, due: nat, now: nat)
    requires id in s.timers && s.p < s.size == |s.slots|
  {
    && id in s.spot && s.spot[id] < s.size && id in s.slots[s.spot[id]]
    && (s.timers[id].ms < 10 ==> s.timers[id].level == 0)
    && due == now + Wait(s.p, s.spot[id], s.timers[id].level, pending, s.size)
  }

  ghost predicate SlotOk(s: State, q: nat)
    requires q < |s.slots|
  {
    && Distinct(s.slots[q])
    && (forall id | id in s.slots[q] :: id in s.timers && id in s.spot && s.spot[id] == q)
  }

  /** The book says when the timers are due; pend are those that the sweep has yet to reach. */
  ghost predicate Inv(s: State, pend: set<nat>, b: map<nat, Entry>, now: nat) {
    && s.p < s.size == |s.slots|
    && b.Keys == s.timers.Keys && pend <= b.Keys
    && (forall q | 0 <= q < s.size :: SlotOk(s, q))
    && (forall id | id in s.timers :: b[id].ms == s.timers[id].ms && TimerOk(s, id, id in pend, b[id].due, now))
  }

  lemma InvSlots(s: State, pend: set<nat>, b: map<nat, Entry>, now: nat)
    requires Inv(s, pend, b, now)
    ensures s.p < s.size == |s.slots| && b.Keys == s.timers.Keys && SlotOk(s, s.p)
  {
  }

  function Elements(l: seq<nat>): set<nat> {
    set k | k in l
  }

  // ----- what happens to a timer

  /** A timer that is not due goes down a level. */
  function Lowered(s: State, id: nat): State
    requires id in s.timers && s.timers[id].level > 0
  {
    s.(timers := s.timers[id := s.timers[id].(level := s.timers[id].level - 1)])
  }

  lemma LoweredKeeps(s: State, pend: set<nat>, b: map<nat, Entry>, now: nat, id: nat)
    requires Inv(s, pend, b, now) && id in s.slots[s.p] && id in pend && id in s.timers && s.timers[id].level > 0
    ensures Inv(Lowered(s, id), pend - {id}, b, now)
  {
    assert SlotOk(s, s.p);
    var t := Lowered(s, id);
    forall q | 0 <= q < t.size ensures SlotOk(t, q) {
      assert SlotOk(s, q);
    }
    forall k | k in t.timers ensures b[k].ms == t.timers[k].ms && TimerOk(t, k, k in pend - {id}, b[k].due, now) {
      assert TimerOk(s, k, k in pend, b[k].due, now);
      MulDistributes(s.timers[id].level, 1, s.size);
    }
  }

  /** list_del and list_add_tail: a timer of the slot under the cursor starts anew in its target slot. */
  function Moved(s: State, id: nat): State
    requires s.p < s.size == |s.slots| && id in s.timers
  {
    var ms := s.timers[id].ms;
    var q := Target(s.p, ms, s.size);
    var out := s.slots[s.p := Minus(s.slots[s.p], id)];
    s.(slots := out[q := out[q] + [id]], timers := s.timers[id := Timer(ms, Level(ms, s.size))], spot := s.spot[id := q])
  }

  /** Whether the sweep comes by again: only if it goes on, and the timer enters the slot that is swept. */
  predicate Back(s: State, ms: nat, goesOn: bool)
    requires s.size > 0
  {
    goesOn && Target(s.p, ms, s.size) == s.p
  }

  lemma MovedKeeps(s: State, pend: set<nat>, b: map<nat, Entry>, now: nat, id: nat, goesOn: bool)
    requires Inv(s, pend, b, now) && id in s.slots[s.p] && id in s.timers
    ensures Inv(Moved(s, id), if Back(s, s.timers[id].ms, goesOn) then pend + {id} else pend - {id},
              b[id := Entry(b[id].ms, now + Delay(b[id].ms, s.size, !goesOn))], now)
  {
    hide Delay, Wait, Target, Level, SlotOk, TimerOk, Minus, Back;
    var t := Moved(s, id);
    var b' := b[id := Entry(b[id].ms, now + Delay(b[id].ms, s.size, !goesOn))];
    var pend' := if Back(s, s.timers[id].ms, goesOn) then pend + {id} else pend - {id};
    TargetWaits(s.p, s.timers[id].ms, s.size);
    forall q | 0 <= q < t.size ensures SlotOk(t, q) {
      MovedSlot(s, id, q);
    }
    forall k | k in t.timers ensures b'[k].ms == t.timers[k].ms && TimerOk(t, k, k in pend', b'[k].due, now) {
      if k == id {
        MovedTimer(s, id, now, goesOn);
      } else {
        MovedOther(s, id, k, k in pend, b[k].due, now);
      }
    }
  }

  lemma MovedSlot(s: State, id: nat, q: nat)
    requires s.p < s.size == |s.slots| && id in s.slots[s.p] && id in s.timers
    requires q < s.size && SlotOk(s, s.p) && SlotOk(s, q)
    ensures SlotOk(Moved(s, id), q)
  {
    hide Target, Level, Minus;
    TargetWaits(s.p, s.timers[id].ms, s.size);
    MinusIn(s.slots[s.p], id);
  }

  lemma MovedTimer(s: State, id: nat, now: nat, goesOn: bool)
    requires s.p < s.size == |s.slots| && id in s.slots[s.p] && id in s.timers
    ensures TimerOk(Moved(s, id), id, Back(s, s.timers[id].ms, goesOn), now + Delay(s.timers[id].ms, s.size, !goesOn), now)
  {
    hide Delay, Wait, Minus;
    TargetWaits(s.p, s.timers[id].ms, s.size);
    LevelShort(s.timers[id].ms, s.size);
    DelayPassed(s.timers[id].ms, s.size);
  }

  lemma MovedOther(s: State, id: nat, k: nat, pending: bool, due: nat, now: nat)
    requires s.p < s.size == |s.slots| && id in s.slots[s.p] && id in s.timers && SlotOk(s, s.p)
    requires k in s.timers && k != id && TimerOk(s, k, pending, due, now)
    ensures TimerOk(Moved(s, id), k, pending, due, now)
  {
    hide Target, Level, Wait, Minus;
    TargetWaits(s.p, s.timers[id].ms, s.size);
    MinusIn(s.slots[s.p], id);
  }

  lemma LevelShort(ms: nat, size: nat)
    requires size > 0
    ensures ms < 10 ==> Level(ms, size) == 0
  {
  }

  /** Another answer leaves the timer where it is, for the next turn. */
  lemma StayedKeeps(s: State, pend: set<nat>, b: map<nat, Entry>, now: nat, id: nat)
    requires Inv(s, pend, b, now) && id in s.slots[s.p] && id in s.timers && s.timers[id].level == 0
    ensures Inv(s, pend - {id}, b[id := Entry(b[id].ms, now + s.size)], now)
  {
    assert SlotOk(s, s.p);
    var b' := b[id := Entry(b[id].ms, now + s.size)];
    forall k | k in s.timers ensures b'[k].ms == s.timers[k].ms && TimerOk(s, k, k in pend - {id}, b'[k].due, now) {
      assert TimerOk(s, k, k in pend, b[k].due, now);
    }
  }

  /** tw_add_timer. */
  function Put(s: State, id: nat, ms: nat): State
    requires s.p < s.size == |s.slots|
  {
    var q := Target(s.p, ms, s.size);
    s.(slots := s.slots[q := s.slots[q] + [id]], timers := s.timers[id := Timer(ms, Level(ms, s.size))], spot := s.spot[id := q])
  }

  lemma PutKeeps(s: State, pend: set<nat>, b: map<nat, Entry>, now: nat, id: nat, ms: nat, goesOn: bool)
    requires Inv(s, pend, b, now) && id !in s.timers
    ensures Inv(Put(s, id, ms), if Back(s, ms, goesOn) then pend + {id} else pend,
              b[id := Entry(ms, now + Delay(ms, s.size, !goesOn))], now)
  {
    hide Delay, Wait, Target, Level, SlotOk, TimerOk, Back;
    var t := Put(s, id, ms);
    var b' := b[id := Entry(ms, now + Delay(ms, s.size, !goesOn))];
    var pend' := if Back(s, ms, goesOn) then pend + {id} else pend;
    TargetWaits(s.p, ms, s.size);
    forall q | 0 <= q < t.size ensures SlotOk(t, q) {
      PutSlot(s, id, ms, q);
    }
    forall k | k in t.timers ensures b'[k].ms == t.timers[k].ms && TimerOk(t, k, k in pend', b'[k].due, now) {
      if k == id {
        PutTimer(s, id, ms, now, goesOn);
      } else {
        PutOther(s, id, ms, k, k in pend, b[k].due, now);
      }
    }
  }

  lemma PutSlot(s: State, id: nat, ms: nat, q: nat)
    requires s.p < s.size == |s.slots| && id !in s.timers && q < s.size && SlotOk(s, q)
    ensures SlotOk(Put(s, id, ms), q)
  {
    hide Target, Level;
    TargetWaits(s.p, ms, s.size);
  }

  lemma PutTimer(s: State, id: nat, ms: nat, now: nat, goesOn: bool)
    requires s.p < s.size == |s.slots|
    ensures TimerOk(Put(s, id, ms), id, Back(s, ms, goesOn), now + Delay(ms, s.size, !goesOn), now)
  {
    hide Delay, Wait;
    TargetWaits(s.p, ms, s.size);
    LevelShort(ms, s.size);
    DelayPassed(ms, s.size);
  }

  lemma PutOther(s: State, id: nat, ms: nat, k: nat, pending: bool, due: nat, now: nat)
    requires s.p < s.size == |s.slots| && k in s.timers && k != id && TimerOk(s, k, pending, due, now)
    ensures TimerOk(Put(s, id, ms), k, pending, due, now)
  {
    hide Target, Level, Wait;
    TargetWaits(s.p, ms, s.size);
  }

  /** list_del and free. */
  function Taken(s: State, id: nat): State
    requires id in s.spot && s.spot[id] < |s.slots|
  {
    var q := s.spot[id];
    s.(slots := s.slots[q := Minus(s.slots[q], id)], timers := s.timers - {id}, spot := s.spot - {id})
  }

  lemma TakenKeeps(s: State, pend: set<nat>, b: map<nat, Entry>, now: nat, id: nat)
    requires Inv(s, pend, b, now) && id in s.timers
    ensures id in s.spot && s.spot[id] < |s.slots| && id in s.slots[s.spot[id]]
    ensures Inv(Taken(s, id), pend - {id}, b - {id}, now)
  {
    hide Wait, Minus;
    assert TimerOk(s, id, id in pend, b[id].due, now);
    var t := Taken(s, id);
    assert SlotOk(s, s.spot[id]);
    MinusIn(s.slots[s.spot[id]], id);
    forall q | 0 <= q < t.size ensures SlotOk(t, q) {
      assert SlotOk(s, q);
    }
    forall k | k in t.timers ensures b[k].ms == t.timers[k].ms && TimerOk(t, k, k in pend - {id}, b[k].due, now) {
      assert TimerOk(s, k, k in pend, b[k].due, now);
    }
  }

  /** The timer that the sweep finds on level 0 is due, and the sweep leaves none behind that is. */
  lemma DueNow(s: State, pend: set<nat>, b: map<nat, Entry>, now: nat, id: nat)
    requires Inv(s, pend, b, now) && id in s.slots[s.p] && id in pend
    ensures id in s.timers && id in b && (s.timers[id].level == 0 ==> b[id].due == now)
  {
    assert SlotOk(s, s.p);
    assert TimerOk(s, id, true, b[id].due, now);
  }

  lemma NoneDue(s: State, b: map<nat, Entry>, now: nat)
    requires Inv(s, {}, b, now)
    ensures forall id | id in b :: b[id].due > now
  {
    hide Wait, SlotOk;
    forall id | id in b ensures b[id].due > now {
      assert TimerOk(s, id, false, b[id].due, now);
      WaitPositive(s.p, s.spot[id], s.timers[id].level, s.size);
    }
  }

  function Advanced(s: State): State
    requires s.size > 0
  {
    s.(p := if s.p + 1 == s.size then 0 else s.p + 1)
  }

  /** The cursor moves on and a new sweep starts. */
  lemma Turned(s: State, b: map<nat, Entry>, now: nat)
    requires Inv(s, {}, b, now)
    ensures var t := Advanced(s); t.p < t.size && Inv(t, Elements(t.slots[t.p]), b, now + 1)
  {
    hide Wait;
    var t := Advanced(s);
    assert SlotOk(s, t.p);
    forall q | 0 <= q < t.size ensures SlotOk(t, q) {
      assert SlotOk(s, q);
    }
    forall k | k in t.timers ensures b[k].ms == t.timers[k].ms && TimerOk(t, k, k in Elements(t.slots[t.p]), b[k].due, now + 1) {
      assert TimerOk(s, k, false, b[k].due, now);
      CursorMoves(s.p, s.spot[k], s.timers[k].level, s.size);
    }
  }

  // ----- how far the sweep is

  predicate Short(timers: map<nat, Timer>, id: nat) {
    id in timers && timers[id].ms < 10
  }

  /** At most one timer of the list is due again as soon as it has fired. */
  predicate OneShort(l: seq<nat>, timers: map<nat, Timer>) {
    forall x, y | x in l && y in l && Short(timers, x) && Short(timers, y) :: x == y
  }

  /** How many other timers of a list are on level 0. */
  ghost function Urgent(l: seq<nat>, timers: map<nat, Timer>): nat {
    if l == [] then 0 else (if l[0] in timers && timers[l[0]].level == 0 && timers[l[0]].ms >= 10 then 1 else 0) + Urgent(l[1..], timers)
  }

  /** A short timer is still to fire before the last place. */
  ghost predicate Ahead(l: seq<nat>, timers: map<nat, Timer>) {
    l != [] && exists id :: id in l[..|l|-1] && Short(timers, id)
  }

  lemma {:induction false} UrgentSame(l: seq<nat>, a: map<nat, Timer>, b: map<nat, Timer>)
    requires forall x | x in l :: x in a && x in b && a[x] == b[x]
    ensures Urgent(l, a) == Urgent(l, b)
  {
    if l != [] {
      UrgentSame(l[1..], a, b);
    }
  }

  lemma {:induction false} UrgentLast(l: seq<nat>, x: nat, timers: map<nat, Timer>)
    ensures Urgent(l + [x], timers) == Urgent(l, timers) + (if x in timers && timers[x].level == 0 && timers[x].ms >= 10 then 1 else 0)
  {
    if l == [] {
      assert l + [x] == [x];
    } else {
      assert (l + [x])[1..] == l[1..] + [x];
      UrgentLast(l[1..], x, timers);
    }
  }

  lemma {:induction false} UrgentMinus(l: seq<nat>, x: nat, timers: map<nat, Timer>)
    ensures Urgent(Minus(l, x), timers) <= Urgent(l, timers)
  {
    if l != [] && l[0] != x {
      UrgentMinus(l[1..], x, timers);
      assert Minus(l, x)[1..] == Minus(l[1..], x);
    }
  }

  lemma {:induction false} MinusParts(a: seq<nat>, b: seq<nat>, x: nat)
    ensures Minus(a + b, x) == if x in a then Minus(a, x) + b else a + Minus(b, x)
  {
    if a == [] {
      assert a + b == b;
    } else {
      assert (a + b)[1..] == a[1..] + b;
      MinusParts(a[1..], b, x);
    }
  }

  /** Fewer timers are urgent, or a short one has come to the end, or the rest is shorter. */
  ghost predicate Closer(l: seq<nat>, timers: map<nat, Timer>, l': seq<nat>, timers': map<nat, Timer>) {
    || Urgent(l', timers') < Urgent(l, timers)
    || (Urgent(l', timers') == Urgent(l, timers) &&
        ((Ahead(l, timers) && !Ahead(l', timers')) || ((Ahead(l', timers') ==> Ahead(l, timers)) && |l'| < |l|)))
  }

  // ----- a call

  function Pending(c: Call, r: seq<nat>): set<nat> {
    if c.next.Some? then {c.id} + Elements(r) else {c.id}
  }

  /** The sweep is at timer c.id, between a and r; it goes on with the first of r, if there is one. */
  ghost predicate Visiting(s: State, c: Call, a: seq<nat>, r: seq<nat>, b: map<nat, Entry>, now: nat) {
    && Inv(s, Pending(c, r), b, now) && s.p < |s.slots| && s.slots[s.p] == a + [c.id] + r
    && (c.next.Some? ==> r != [] && r[0] == c.next.value)
    && OneShort(s.slots[s.p], s.timers)
  }

  /** What a callback does to the wheel. */
  function Acted(s: State, c: Call, act: Act): State
    requires s.p < s.size == |s.slots|
  {
    match act
    case Add(id, ms) => if id in s.timers || ms < 10 then s else Put(s, id, ms)
    case Del(id) =>
      if id in s.timers && id != c.id && c.next != Some(id) && id in s.spot && s.spot[id] < |s.slots| then Taken(s, id) else s
  }

  /** The book after at most one event. */
  function BookedAll(b: map<nat, Entry>, now: nat, es: seq<Event>, size: nat): map<nat, Entry>
    requires size > 0
  {
    if es == [] then b else Booked(b, now, es[0], size)
  }

  lemma AddKeeps(s: State, c: Call, a: seq<nat>, r: seq<nat>, b: map<nat, Entry>, now: nat, id: nat, ms: nat) returns (r': seq<nat>)
    requires Visiting(s, c, a, r, b, now) && id !in s.timers && ms >= 10
    ensures Visiting(Put(s, id, ms), c, a, r', b[id := Entry(ms, now + Delay(ms, s.size, c.next.None?))], now)
    ensures Urgent(r', Put(s, id, ms).timers) <= Urgent(r, s.timers) && c.id in s.timers && c.id != id
  {
    hide Inv, Delay, Level, Target, Urgent;
    InvSlots(s, Pending(c, r), b, now);
    var t := Put(s, id, ms);
    PutKeeps(s, Pending(c, r), b, now, id, ms, c.next.Some?);
    TargetWaits(s.p, ms, s.size);
    assert c.id in s.slots[s.p];
    forall x | x in r ensures x in s.timers {
      assert x in s.slots[s.p];
    }
    UrgentSame(r, s.timers, t.timers);
    if Target(s.p, ms, s.size) == s.p {
      r' := r + [id];
      UrgentLast(r, id, t.timers);
      TicksLong(ms);
      assert t.slots[s.p] == a + [c.id] + r';
      assert Elements(r') == Elements(r) + {id};
      assert Pending(c, r') == if Back(s, ms, c.next.Some?) then Pending(c, r) + {id} else Pending(c, r);
    } else {
      r' := r;
    }
  }

  lemma TicksLong(ms: nat)
    ensures ms >= 10 ==> Ticks(ms) > 0
  {
  }

  lemma DelKeeps(s: State, c: Call, a: seq<nat>, r: seq<nat>, b: map<nat, Entry>, now: nat, id: nat) returns (a': seq<nat>, r': seq<nat>)
    requires Visiting(s, c, a, r, b, now) && id in s.timers && id != c.id && c.next != Some(id)
    ensures id in s.spot && s.spot[id] < |s.slots|
    ensures Visiting(Taken(s, id), c, a', r', b - {id}, now)
    ensures Urgent(r', Taken(s, id).timers) <= Urgent(r, s.timers) && c.id in s.timers
  {
    hide Inv, Urgent, Minus, OneShort, Short;
    InvSlots(s, Pending(c, r), b, now);
    TakenKeeps(s, Pending(c, r), b, now, id);
    assert c.id in s.slots[s.p];
    a', r' := DelParts(a, c.id, r, id);
    if s.spot[id] != s.p {
      assert id !in s.slots[s.p];
    }
    assert Pending(c, r') == Pending(c, r) - {id};
    PartsDistinct(a, c.id, r);
    forall x | x in r ensures x in s.timers {
      assert x in s.slots[s.p];
    }
    DelUrgent(r, s.timers, id);
    MinusIn(s.slots[s.p], id);
    FewerShort(s.slots[s.p], s.timers, Taken(s, id).slots[s.p], id);
  }

  /** list_del of another timer of the slot. */
  lemma DelParts(a: seq<nat>, cur: nat, r: seq<nat>, id: nat) returns (a': seq<nat>, r': seq<nat>)
    requires Distinct(a + [cur] + r) && id != cur
    ensures Minus(a + [cur] + r, id) == a' + [cur] + r' && r' == Minus(r, id)
    ensures Elements(r') == Elements(r) - {id} && (r != [] && r[0] != id ==> r' != [] && r'[0] == r[0])
    ensures id !in a + [cur] + r ==> a' == a && r' == r
  {
    hide Minus, Distinct;
    PartsDistinct(a, cur, r);
    MinusParts(a, [cur] + r, id);
    MinusParts([cur], r, id);
    assert a + ([cur] + r) == a + [cur] + r;
    MinusIn(r, id);
    MinusOut(r, id);
    a', r' := Minus(a, id), Minus(r, id);
    MinusOut(a, id);
    if r != [] && r[0] != id {
      MinusFirst(r, id);
    }
  }

  lemma {:induction false} MinusOut(l: seq<nat>, x: nat)
    ensures x !in l ==> Minus(l, x) == l
  {
    if l != [] && x !in l {
      MinusOut(l[1..], x);
    }
  }

  lemma DelUrgent(r: seq<nat>, timers: map<nat, Timer>, id: nat)
    requires Distinct(r) && forall x | x in r :: x in timers
    ensures Urgent(Minus(r, id), timers - {id}) <= Urgent(r, timers)
  {
    hide Urgent, Minus;
    MinusIn(r, id);
    UrgentMinus(r, id, timers);
    UrgentSame(Minus(r, id), timers, timers - {id});
  }

  lemma FewerShort(l: seq<nat>, timers: map<nat, Timer>, l': seq<nat>, id: nat)
    requires OneShort(l, timers) && forall x | x in l' :: x in l
    ensures OneShort(l', timers - {id})
  {
    forall x, y | x in l' && y in l' && Short(timers - {id}, x) && Short(timers - {id}, y) ensures x == y {
      assert Short(timers, x) && Short(timers, y);
    }
  }

  lemma PartsDistinct(a: seq<nat>, id: nat, r: seq<nat>)
    requires Distinct(a + [id] + r)
    ensures Distinct(a) && Distinct(r) && id !in a && id !in r && (forall x | x in a :: x !in r)
  {
    var l := a + [id] + r;
    assert l[|a|] == id;
    forall i, j | 0 <= i < j < |r| ensures r[i] != r[j] {
      assert l[|a| + 1 + i] == r[i] && l[|a| + 1 + j] == r[j];
    }
    forall i, j | 0 <= i < j < |a| ensures a[i] != a[j] {
      assert l[i] == a[i] && l[j] == a[j];
    }
    forall i, j | 0 <= i < |a| && 0 <= j < |r| ensures a[i] != r[j] {
      assert l[i] == a[i] && l[|a| + 1 + j] == r[j];
    }
    forall i | 0 <= i < |a| ensures a[i] != id {
      assert l[i] == a[i];
    }
    forall j | 0 <= j < |r| ensures id != r[j] {
      assert l[|a| + 1 + j] == r[j];
    }
  }

  lemma MinusFirst(l: seq<nat>, x: nat)
    requires l != [] && l[0] != x
    ensures Minus(l, x) != [] && Minus(l, x)[0] == l[0]
  {
  }

  /** An act of a callback: the sweep still stands at its timer, and no more timers have become urgent. */
  lemma ActKeeps(s: State, c: Call, a: seq<nat>, r: seq<nat>, b: map<nat, Entry>, now: nat, act: Act) returns (a': seq<nat>, r': seq<nat>)
    requires Visiting(s, c, a, r, b, now)
    ensures s.p < s.size == |s.slots|
    ensures Visiting(Acted(s, c, act), c, a', r', BookedAll(b, now, ActEvents(b.Keys, c, act), s.size), now)
    ensures Urgent(r', Acted(s, c, act).timers) <= Urgent(r, s.timers)
    ensures c.id in s.timers && c.id in Acted(s, c, act).timers && Acted(s, c, act).timers[c.id] == s.timers[c.id]
  {
    hide Inv, Urgent, Pending, OneShort, Delay, Target, Level, Minus;
    InvSlots(s, Pending(c, r), b, now);
    a', r' := a, r;
    assert c.id in s.slots[s.p];
    match act {
      case Add(id, ms) =>
        if id !in s.timers && ms >= 10 {
          r' := AddKeeps(s, c, a, r, b, now, id, ms);
        }
      case Del(id) =>
        if id in s.timers && id != c.id && c.next != Some(id) {
          a', r' := DelKeeps(s, c, a, r, b, now, id);
        }
    }
  }

  /** What becomes of the timer, by its answer. */
  function Replied(s: State, id: nat, reply: Reply): State
    requires s.p < s.size == |s.slots| && id in s.timers && id in s.spot && s.spot[id] < |s.slots|
  {
    match reply
    case Success => Moved(s, id)
    case Close => Taken(s, id)
    case Other => s
  }

  /** What the sweep has yet to reach afterwards. */
  function Remaining(s: State, c: Call, r: seq<nat>, reply: Reply): seq<nat>
    requires s.size > 0 && c.id in s.timers
  {
    if c.next.None? then []
    else if reply == Success && Target(s.p, s.timers[c.id].ms, s.size) == s.p then r + [c.id]
    else r
  }

  lemma ReplyKeeps(s: State, c: Call, a: seq<nat>, r: seq<nat>, b: map<nat, Entry>, now: nat, reply: Reply)
    requires Visiting(s, c, a, r, b, now) && c.id in s.timers && s.timers[c.id].level == 0
    ensures s.p < s.size == |s.slots| && c.id in s.spot && s.spot[c.id] < |s.slots| && c.id in b
    ensures var t := Replied(s, c.id, reply);
      Inv(t, Elements(Remaining(s, c, r, reply)), Rebooked(b, c.id, reply, c.next.None?, now, s.size), now)
  {
    hide Inv, Delay, Level, Target, Minus, Moved, Taken, OneShort;
    var pend := Pending(c, r);
    InvSlots(s, pend, b, now);
    assert c.id in s.slots[s.p];
    PartsDistinct(a, c.id, r);
    assert Elements(r) == Pending(c, r) - {c.id} || c.next.None?;
    TakenKeeps(s, pend, b, now, c.id);
    match reply {
      case Success =>
        MovedKeeps(s, pend, b, now, c.id, c.next.Some?);
        assert Elements(Remaining(s, c, r, reply)) == if Back(s, s.timers[c.id].ms, c.next.Some?) then pend + {c.id} else pend - {c.id};
      case Close =>
        assert Elements(Remaining(s, c, r, reply)) == pend - {c.id};
      case Other =>
        StayedKeeps(s, pend, b, now, c.id);
        assert Elements(Remaining(s, c, r, reply)) == pend - {c.id};
    }
  }

  /** Where the list of the slot then goes on. */
  lemma ReplySlot(s: State, c: Call, a: seq<nat>, r: seq<nat>, b: map<nat, Entry>, now: nat, reply: Reply)
    requires Visiting(s, c, a, r, b, now) && c.id in s.timers && c.id in s.spot && s.spot[c.id] == s.p < s.size == |s.slots|
    ensures var l := Replied(s, c.id, reply).slots[s.p];
      && Replied(s, c.id, reply).p == s.p
      && l == (if reply == Other then a + [c.id] + r
               else if reply == Success && Target(s.p, s.timers[c.id].ms, s.size) == s.p then a + r + [c.id] else a + r)
      && (c.next.Some? ==> l[if reply == Other then |a| + 1 else |a|..] == Remaining(s, c, r, reply))
  {
    hide Inv, Delay, Level, Target, Minus, OneShort, Pending;
    InvSlots(s, Pending(c, r), b, now);
    TargetWaits(s.p, s.timers[c.id].ms, s.size);
    var l := s.slots[s.p];
    PartsDistinct(a, c.id, r);
    assert l == a + ([c.id] + r);
    MinusParts(a, [c.id] + r, c.id);
    MinusHead(c.id, r);
  }

  lemma MinusHead(x: nat, r: seq<nat>)
    ensures Minus([x] + r, x) == r
  {
    assert ([x] + r)[1..] == r;
  }

  lemma ReplyShort(s: State, c: Call, a: seq<nat>, r: seq<nat>, b: map<nat, Entry>, now: nat, reply: Reply)
    requires Visiting(s, c, a, r, b, now) && c.id in s.timers && c.id in s.spot && s.spot[c.id] == s.p < s.size == |s.slots|
    ensures var t := Replied(s, c.id, reply); OneShort(t.slots[s.p], t.timers)
  {
    hide Inv, Delay, Level, Target, Minus, Pending;
    TargetWaits(s.p, s.timers[c.id].ms, s.size);
    ReplySlot(s, c, a, r, b, now, reply);
    var t, l := Replied(s, c.id, reply), s.slots[s.p];
    forall x, y | x in t.slots[s.p] && y in t.slots[s.p] && Short(t.timers, x) && Short(t.timers, y) ensures x == y {
      assert x in l && y in l && Short(s.timers, x) && Short(s.timers, y);
    }
  }

  /** The sweep gets nearer to its end. */
  lemma ReplyCloser(s: State, c: Call, a: seq<nat>, r: seq<nat>, b: map<nat, Entry>, now: nat, reply: Reply)
    requires Visiting(s, c, a, r, b, now) && c.id in s.timers && c.id in s.spot && s.spot[c.id] == s.p < s.size == |s.slots|
    requires s.timers[c.id].level == 0
    ensures var t, rest := Replied(s, c.id, reply), Remaining(s, c, r, reply);
      && Urgent(rest, t.timers) <= Urgent(r, s.timers)
      && (Short(s.timers, c.id) ==> !Ahead(rest, t.timers))
  {
    hide Inv, Delay, Level, Target, Minus, Pending, Urgent;
    InvSlots(s, Pending(c, r), b, now);
    TargetWaits(s.p, s.timers[c.id].ms, s.size);
    LevelShort(s.timers[c.id].ms, s.size);
    TicksLong(s.timers[c.id].ms);
    var t, l, rest := Replied(s, c.id, reply), s.slots[s.p], Remaining(s, c, r, reply);
    PartsDistinct(a, c.id, r);
    forall x | x in r ensures x in s.timers && x in l && x != c.id && x in t.timers && t.timers[x] == s.timers[x] {
      assert x in l;
    }
    UrgentSame(r, s.timers, t.timers);
    UrgentNone(t.timers);
    if rest == r + [c.id] {
      UrgentLast(r, c.id, t.timers);
    }
    if Short(s.timers, c.id) {
      assert c.id in l;
      forall x | x in r ensures !Short(t.timers, x) {
        assert x in l;
      }
      if rest != [] {
        forall x | x in rest[..|rest|-1] ensures x in r {
        }
      }
    }
  }

  lemma DueCurrent(s: State, c: Call, a: seq<nat>, r: seq<nat>, b: map<nat, Entry>, now: nat)
    requires Visiting(s, c, a, r, b, now)
    ensures s.p < s.size == |s.slots| && c.id in s.timers && c.id in s.spot && s.spot[c.id] == s.p
    ensures c.id in b && (s.timers[c.id].level == 0 ==> b[c.id].due == now)
  {
    hide Inv, OneShort;
    InvSlots(s, Pending(c, r), b, now);
    assert c.id in s.slots[s.p];
    DueNow(s, Pending(c, r), b, now, c.id);
  }

  /** All this together: the state after a call, and the place where the sweep goes on. */
  lemma Settled(s: State, c: Call, a: seq<nat>, r: seq<nat>, b: map<nat, Entry>, now: nat, reply: Reply) returns (next: nat)
    requires Visiting(s, c, a, r, b, now) && c.id in s.timers && s.timers[c.id].level == 0
    ensures s.p < s.size == |s.slots| && c.id in s.spot && s.spot[c.id] == s.p && c.id in b && b[c.id].due == now
    ensures var t := Replied(s, c.id, reply);
      && t.p == s.p < |t.slots| && next <= |t.slots[t.p]|
      && Inv(t, Elements(t.slots[t.p][next..]), Rebooked(b, c.id, reply, c.next.None?, now, s.size), now)
      && OneShort(t.slots[t.p], t.timers)
      && Urgent(t.slots[t.p][next..], t.timers) <= Urgent(r, s.timers)
      && (Short(s.timers, c.id) ==> !Ahead(t.slots[t.p][next..], t.timers))
      && (if c.next.None? then next == |t.slots[t.p]|
          else next < |t.slots[t.p]| && t.slots[t.p][next] == c.next.value && Distinct(t.slots[t.p]))
  {
    hide Inv, Urgent, Pending, OneShort, Target, Minus, Ahead, Short, Rebooked, Elements, Replied, Distinct;
    DueCurrent(s, c, a, r, b, now);
    ReplyKeeps(s, c, a, r, b, now, reply);
    ReplySlot(s, c, a, r, b, now, reply);
    ReplyShort(s, c, a, r, b, now, reply);
    ReplyCloser(s, c, a, r, b, now, reply);
    var t := Replied(s, c.id, reply);
    InvSlots(t, Elements(Remaining(s, c, r, reply)), Rebooked(b, c.id, reply, c.next.None?, now, s.size), now);
    var l := t.slots[t.p];
    next := if c.next.None? then |l| else if reply == Other then |a| + 1 else |a|;
    assert l[next..] == Remaining(s, c, r, reply);
  }

  lemma UrgentNone(timers: map<nat, Timer>)
    ensures Urgent([], timers) == 0
  {
  }

  lemma CallCloser(id: nat, r0: seq<nat>, timers0: map<nat, Timer>, r: seq<nat>, timers: map<nat, Timer>, rest: seq<nat>, t: map<nat, Timer>)
    requires id in timers0 && timers0[id].level == 0
    requires Urgent(r, timers) <= Urgent(r0, timers0) && Urgent(rest, t) <= Urgent(r, timers)
    requires Short(timers0, id) ==> !Ahead(rest, t)
    requires r0 == [] ==> rest == []
    ensures Closer([id] + r0, timers0, rest, t)
  {
    var l := [id] + r0;
    assert l[0] == id && l[1..] == r0;
    if Short(timers0, id) && r0 != [] {
      assert id in l[..|l|-1];
    }
  }

  lemma LowerCloser(s: State, i: nat, pend: set<nat>, b: map<nat, Entry>, now: nat)
    requires Inv(s, pend, b, now) && i < |s.slots[s.p]| && s.slots[s.p][i] in s.timers && s.timers[s.slots[s.p][i]].level > 0
    ensures Closer(s.slots[s.p][i..], s.timers, s.slots[s.p][i+1..], Lowered(s, s.slots[s.p][i]).timers)
  {
    hide Inv, Urgent, Ahead;
    InvSlots(s, pend, b, now);
    var l, id := s.slots[s.p], s.slots[s.p][i];
    var r, timers := l[i+1..], Lowered(s, id).timers;
    assert l == l[..i] + [id] + r;
    PartsDistinct(l[..i], id, r);
    assert l[i..] == [id] + r;
    forall x | x in r ensures x in s.timers && x != id {
      assert x in l;
    }
    UrgentSame(r, s.timers, timers);
    UrgentFirst(id, r, s.timers);
    AheadFirst(id, r, s.timers, timers);
  }

  lemma UrgentFirst(id: nat, r: seq<nat>, timers: map<nat, Timer>)
    ensures Urgent([id] + r, timers) == Urgent(r, timers) + (if id in timers && timers[id].level == 0 && timers[id].ms >= 10 then 1 else 0)
  {
    assert ([id] + r)[1..] == r;
  }

  lemma AheadFirst(id: nat, r: seq<nat>, timers: map<nat, Timer>, timers': map<nat, Timer>)
    requires forall x | x in r :: x in timers && x in timers' && timers'[x] == timers[x]
    ensures Ahead(r, timers') ==> Ahead([id] + r, timers)
  {
    if Ahead(r, timers') {
      var x :| x in r[..|r|-1] && Short(timers', x);
      var l := [id] + r;
      assert l[..|l|-1] == [id] + r[..|r|-1];
      assert x in r && x in l[..|l|-1] && Short(timers, x);
    }
  }
}
