/** The state of the hashed timing wheel of lib/ff_kern_timeout.c, as F-Stack runs it, what each
    operation does to it, and the invariant that every operation keeps, inside and outside a sweep. */
module CalloutSpec {
  import opened Lists
  import opened Options
  import opened Arith
  import opened CalloutTrace

  /** The value a C int holds after a computation that would give x. */
  function Wrap(x: int): (w: int)
    ensures -TWO31 <= w < TWO31
  {
    (x + TWO31) % TWO32 - TWO31
  }

  predicate IsInt(x: int) {
    -TWO31 <= x < TWO31
  }

  /** struct callout. The lock, the cpu and the ACTIVE flag do not influence the wheel here. */
  datatype Callout = Callout(time: int, func: Option<nat>, arg: int, pending: bool, direct: bool)

  /** What a handler, or a client between ticks, may do. */
  datatype Op =
    | Reset(c: Id, to: int, func: nat, arg: int, direct: bool)   // callout_reset_tick_on
    | Stop(c: Id)                                                // callout_stop
    | Timeout(func: nat, arg: int, to: int)                      // timeout
    | Untimeout(func: nat, arg: int, handle: Option<Id>)         // untimeout

  // ----- lists without duplicates

  /** The position of c in s, or |s|. */
  function Index(s: seq<Id>, c: Id): (i: nat)
    ensures i <= |s|
    ensures i < |s| ==> s[i] == c
    ensures i == |s| ==> c !in s
    ensures forall k :: 0 <= k < i ==> s[k] != c
  {
    if s == [] then 0 else if s[0] == c then 0 else 1 + Index(s[1..], c)
  }

  /** LIST_REMOVE. */
  function Without(s: seq<Id>, c: Id): (r: seq<Id>) {
    var i := Index(s, c);
    if i < |s| then s[..i] + s[i+1..] else s
  }

  /** LIST_NEXT. */
  function Next(s: seq<Id>, c: Id): (n: Option<Id>) {
    var i := Index(s, c);
    if i + 1 < |s| then Some(s[i+1]) else None
  }

  /** LIST_FIRST. */
  function First(s: seq<Id>): (n: Option<Id>) {
    if s == [] then None else Some(s[0])
  }

  lemma WithoutElements(s: seq<Id>, c: Id)
    requires Distinct(s)
    ensures Distinct(Without(s, c))
    ensures forall x :: x in Without(s, c) <==> x in s && x != c
  {
    var i := Index(s, c);
    if i < |s| {
      assert s == s[..i] + [c] + s[i+1..];
      forall x ensures x in Without(s, c) <==> x in s && x != c {
        if x in s[..i] + s[i+1..] {
          var k :| 0 <= k < |s| && k != i && s[k] == x;
        }
      }
    }
  }

  // ----- wrap-around of the tick counter

  lemma WrapIdentity(x: int)
    requires IsInt(x)
    ensures Wrap(x) == x
  {
  }

  lemma WrapShift(x: int, y: int)
    ensures Wrap(Wrap(x) + y) == Wrap(x + y)
  {
    var k := (x + TWO31) / TWO32;
    assert Wrap(x) == x - k * TWO32;
    ModShift(x + y + TWO31, -k, TWO32);
  }

  /** Two times less than 2^32 apart are equal exactly when the counter shows the same value. */
  lemma WrapInjective(x: int, y: int)
    requires -TWO32 < x - y < TWO32
    ensures Wrap(x) == Wrap(y) <==> x == y
  {
  }

  /** How callout_tick sees that one tick is unprocessed, or none. */
  lemma Behind(now: int)
    ensures Wrap(Wrap(now - 1) - Wrap(now)) < 0 && Wrap(Wrap(now) - Wrap(now)) == 0
    ensures Wrap(Wrap(now - 1) + 1) == Wrap(now) && Wrap(now - 1) != Wrap(now)
  {
  }

  /** The bucket of a time. callwheelsize is a power of two, so masking is reduction modulo it. */
  function Bucket(t: int, size: nat): (b: nat)
    requires size > 0
    ensures b < size
  {
    t % size
  }

  /** The bucket does not depend on whether the counter has wrapped. */
  lemma BucketWrap(t: int, size: nat)
    requires size > 0 && TWO32 % size == 0
    ensures Bucket(Wrap(t), size) == Bucket(t, size)
  {
    var k, m := (t + TWO31) / TWO32, TWO32 / size;
    assert Wrap(t) == t - k * TWO32;
    assert TWO32 == m * size;
    assert k * TWO32 == (k * m) * size;
    ModShift(t, -(k * m), size);
    assert t + -(k * m) * size == t - k * TWO32;
  }

  // ----- the parts of the invariant

  /** Every armed callout is in the bucket of its deadline, once, and nothing else is on the wheel. */
  ghost predicate Placed(wheel: seq<seq<Id>>, armed: map<Id, int>, size: nat)
    requires size > 0
  {
    && |wheel| == size
    && (forall b :: 0 <= b < size ==> Distinct(wheel[b]))
    && (forall b, c :: 0 <= b < size && c in wheel[b] ==> c in armed && Bucket(armed[c], size) == b)
    && (forall c :: c in armed ==> c in wheel[Bucket(armed[c], size)])
  }

  /** The callout records agree with the abstract deadlines. */
  ghost predicate Recorded(mem: map<Id, Callout>, armed: map<Id, int>) {
    && (forall c :: c in armed ==> c in mem)
    && (forall c :: c in mem ==> (mem[c].pending <==> c in armed))
    && (forall c :: c in armed ==> mem[c].time == Wrap(armed[c]))
  }

  ghost predicate Within(armed: map<Id, int>, low: int, high: int) {
    forall c :: c in armed ==> low <= armed[c] <= high
  }

  /** A preallocated callout is on the free list exactly when it is neither armed nor running.
      The one in taken, if any, has been taken off the list and is about to be armed. */
  ghost predicate Pooled(free: seq<Id>, local: nat, armed: map<Id, int>, curr: Option<Id>, taken: Option<Id>) {
    && Distinct(free)
    && (forall c :: c in free ==> c < local && taken != Some(c))
    && (forall c :: 0 <= c < local && taken != Some(c) ==> (c in free <==> c !in armed && curr != Some(c)))
    && (forall c :: 0 <= c < local && curr == Some(c) ==> c !in armed && taken != Some(c))
  }

  /** Everything in list that is due at cur is at or after next. */
  ghost predicate CursorOk(list: seq<Id>, next: Option<Id>, armed: map<Id, int>, cur: int) {
    && (next.Some? ==> next.value in list)
    && var limit := if next.Some? then Index(list, next.value) else |list|;
       forall i :: 0 <= i < limit ==> list[i] in armed && armed[list[i]] != cur
  }

  ghost function Due(armed: map<Id, int>, cur: int): set<Id> {
    set c | c in armed && armed[c] == cur
  }

  /** The parameters of the wheel. */
  datatype Config = Config(
    size: nat,       // callwheelsize
    local: nat,      // ncallout: the callouts 0 .. local-1 belong to timeout(9)
    ids: set<Id>     // every initialised callout
  )

  /** struct callout_cpu, with the callouts it links. */
  datatype Cc = Cc(
    ticks: int,
    next: Option<Id>,        // cc_next
    bucket: nat,             // cc_bucket
    curr: Option<Id>,        // cc_exec_entity[1].cc_curr
    wheel: seq<seq<Id>>,     // cc_callwheel
    free: seq<Id>,           // cc_callfree
    mem: map<Id, Callout>
  )

  /** While a bucket is swept, cc_next separates the part still to be looked at; at other times
      it may be left over from an earlier sweep, but it still points into its bucket. */
  ghost predicate Cursor(k: Config, s: Cc, armed: map<Id, int>, sweep: Option<int>)
    requires k.size > 0 && |s.wheel| == k.size && s.bucket < k.size
  {
    && (s.next.Some? ==> s.next.value in s.wheel[s.bucket])
    && (sweep.Some? ==> s.bucket == Bucket(sweep.value, k.size) && CursorOk(s.wheel[s.bucket], s.next, armed, sweep.value))
  }

  /** The deadlines armed are in unbounded time, and so is now. sweep is the time whose bucket
      is being swept, if a sweep is in progress. */
  ghost predicate Inv(k: Config, s: Cc, armed: map<Id, int>, now: int, sweep: Option<int>, taken: Option<Id>) {
    && k.size > 0 && TWO32 % k.size == 0 && (forall c :: 0 <= c < k.local ==> c in k.ids)
    && |s.wheel| == k.size && s.bucket < k.size && s.mem.Keys == k.ids && s.ticks == Wrap(now)
    && (sweep.Some? ==> sweep.value == now - 1)
    && Within(armed, if sweep.Some? then sweep.value else now, now + TWO31 - 1)
    && Placed(s.wheel, armed, k.size)
    && Recorded(s.mem, armed)
    && Pooled(s.free, k.local, armed, s.curr, taken)
    && Cursor(k, s, armed, sweep)
  }

  // ----- what the operations do

  /** Take a pending callout off its bucket, moving cc_next past it. */
  function Unlink(k: Config, s: Cc, c: Id): Cc
    requires k.size > 0 && |s.wheel| == k.size && c in s.mem
  {
    var b := Bucket(s.mem[c].time, k.size);
    s.(next := if s.next == Some(c) then Next(s.wheel[b], c) else s.next,
       wheel := s.wheel[b := Without(s.wheel[b], c)],
       mem := s.mem[c := s.mem[c].(pending := false)])
  }

  /** callout_cc_add. */
  function CcAdd(k: Config, s: Cc, c: Id, delay: int, func: nat, arg: int, direct: bool): Cc
    requires k.size > 0 && |s.wheel| == k.size && c in s.mem
  {
    var time := Wrap(s.ticks + delay);
    var b := Bucket(time, k.size);
    s.(next := if s.bucket == b then Some(c) else s.next,
       wheel := s.wheel[b := [c] + s.wheel[b]],
       mem := s.mem[c := Callout(time, Some(func), arg, true, s.mem[c].direct || direct)])
  }

  /** callout_cc_del. */
  function CcDel(k: Config, s: Cc, c: Id): Cc
    requires c in s.mem
  {
    if c < k.local then s.(free := [c] + s.free, mem := s.mem[c := s.mem[c].(func := None)]) else s
  }

  /** callout_reset_tick_on. */
  function DoReset(k: Config, s: Cc, c: Id, to: int, func: nat, arg: int, direct: bool): Cc
    requires k.size > 0 && |s.wheel| == k.size && c in s.mem
  {
    CcAdd(k, if s.mem[c].pending then Unlink(k, s, c) else s, c, Delay(to), func, arg, direct)
  }

  /** _callout_stop_safe without CS_DRAIN. */
  function DoStop(k: Config, s: Cc, c: Id): Cc
    requires k.size > 0 && |s.wheel| == k.size && c in s.mem
  {
    if s.mem[c].pending then CcDel(k, Unlink(k, s, c), c) else s
  }

  /** timeout. The panic on an exhausted pool is modelled as doing nothing. */
  function DoTimeout(k: Config, s: Cc, func: nat, arg: int, to: int): Cc
    requires k.size > 0 && |s.wheel| == k.size && (forall c :: c in s.free ==> c in s.mem)
  {
    if s.free == [] then s
    else DoReset(k, s.(free := s.free[1..]), s.free[0], to, func, arg, false)
  }

  predicate Matches(s: Cc, c: Id, func: nat, arg: int) {
    c in s.mem && s.mem[c].func == Some(func) && s.mem[c].arg == arg
  }

  function Exec(k: Config, s: Cc, op: Op): Cc
    requires k.size > 0 && |s.wheel| == k.size && s.mem.Keys == k.ids && Allowed(k, op)
    requires forall c :: c in s.free ==> c in s.mem
  {
    match op
    case Reset(c, to, func, arg, direct) => DoReset(k, s, c, to, func, arg, direct)
    case Stop(c) => DoStop(k, s, c)
    case Timeout(func, arg, to) => DoTimeout(k, s, func, arg, to)
    case Untimeout(func, arg, h) => if h.Some? && Matches(s, h.value, func, arg) then DoStop(k, s, h.value) else s
  }

  /** Clients use reset and stop on their own initialised callouts. */
  predicate Allowed(k: Config, op: Op) {
    match op
    case Reset(c, to, _, _, _) => c in k.ids && c >= k.local && IsInt(to)
    case Stop(c) => c in k.ids && c >= k.local
    case Timeout(_, _, to) => IsInt(to)
    case Untimeout(_, _, h) => h.Some? ==> h.value in k.ids
  }

  /** The events that an operation adds to the trace. */
  function Events(s: Cc, op: Op): (e: seq<Event>)
    ensures |e| <= 1
  {
    match op
    case Reset(c, to, _, _, _) => [Arm(c, to)]
    case Stop(c) => if c in s.mem && s.mem[c].pending then [Cancel(c)] else []
    case Timeout(_, _, to) => if s.free == [] then [] else [Arm(s.free[0], to)]
    case Untimeout(func, arg, h) =>
      if h.Some? && Matches(s, h.value, func, arg) && s.mem[h.value].pending then [Cancel(h.value)] else []
  }

  predicate Ready(k: Config, s: Cc) {
    k.size > 0 && |s.wheel| == k.size && s.mem.Keys == k.ids && forall c :: c in s.free ==> c in s.mem
  }

  /** Several operations, one after the other. */
  function ExecAll(k: Config, s: Cc, ops: seq<Op>): Cc {
    if ops == [] then s
    else
      var t := ExecAll(k, s, ops[..|ops|-1]);
      if Ready(k, t) && Allowed(k, ops[|ops|-1]) then Exec(k, t, ops[|ops|-1]) else t
  }

  function EventsAll(k: Config, s: Cc, ops: seq<Op>): seq<Event> {
    if ops == [] then []
    else EventsAll(k, s, ops[..|ops|-1]) + Events(ExecAll(k, s, ops[..|ops|-1]), ops[|ops|-1])
  }

  lemma NoOps(k: Config, s: Cc)
    ensures ExecAll(k, s, []) == s && EventsAll(k, s, []) == []
  {
  }

  lemma OneOp(k: Config, s: Cc, op: Op)
    requires Ready(k, s) && Allowed(k, op)
    ensures ExecAll(k, s, [op]) == Exec(k, s, op) && EventsAll(k, s, [op]) == Events(s, op)
  {
    hide Exec, Events;
    assert [op][..0] == [];
    NoOps(k, s);
  }

  lemma AllSnoc(k: Config, s: Cc, ops: seq<Op>, i: nat)
    requires i < |ops|
    ensures var t := ExecAll(k, s, ops[..i]);
      && ExecAll(k, s, ops[..i+1]) == (if Ready(k, t) && Allowed(k, ops[i]) then Exec(k, t, ops[i]) else t)
      && EventsAll(k, s, ops[..i+1]) == EventsAll(k, s, ops[..i]) + Events(t, ops[i])
  {
    hide Ready, Allowed, Exec, Events;
    assert ops[..i+1][..i] == ops[..i];
  }

  // ----- how the invariant's parts survive one change

  lemma PlacedRemove(wheel: seq<seq<Id>>, armed: map<Id, int>, size: nat, c: Id)
    requires size > 0 && Placed(wheel, armed, size) && c in armed
    ensures var b := Bucket(armed[c], size);
            Placed(wheel[b := Without(wheel[b], c)], armed - {c}, size)
  {
    hide Bucket, Without;
    var b := Bucket(armed[c], size);
    WithoutElements(wheel[b], c);
  }

  lemma PlacedInsert(wheel: seq<seq<Id>>, armed: map<Id, int>, size: nat, c: Id, d: int)
    requires size > 0 && Placed(wheel, armed, size) && c !in armed
    ensures var b := Bucket(d, size);
            Placed(wheel[b := [c] + wheel[b]], armed[c := d], size)
  {
    hide Bucket;
    var b := Bucket(d, size);
    var wheel' := wheel[b := [c] + wheel[b]];
    assert forall x :: x in wheel'[b] <==> x == c || x in wheel[b];
  }

  lemma CursorRemove(list: seq<Id>, next: Option<Id>, armed: map<Id, int>, cur: int, c: Id)
    requires Distinct(list) && c in list && CursorOk(list, next, armed, cur)
    ensures CursorOk(Without(list, c), if next == Some(c) then Next(list, c) else next, armed - {c}, cur)
  {
    var i, r := Index(list, c), Without(list, c);
    var next' := if next == Some(c) then Next(list, c) else next;
    WithoutElements(list, c);
    if next'.Some? {
      var k, k' := Index(list, next'.value), Index(r, next'.value);
      assert next'.value in r;
      assert r[if k < i then k else k - 1] == next'.value;
      assert k' == if k < i then k else k - 1;
    }
  }

  lemma CursorSkip(list: seq<Id>, next: Option<Id>, armed: map<Id, int>, cur: int)
    requires Distinct(list) && next.Some? && CursorOk(list, next, armed, cur)
    requires next.value in armed && armed[next.value] != cur
    ensures CursorOk(list, Next(list, next.value), armed, cur)
  {
    var n := Next(list, next.value);
    var i := Index(list, next.value);
    if n.Some? {
      assert Index(list, n.value) == i + 1;
    }
  }

  lemma RecordedRemove(mem: map<Id, Callout>, armed: map<Id, int>, c: Id)
    requires Recorded(mem, armed) && c in mem
    ensures Recorded(mem[c := mem[c].(pending := false)], armed - {c})
  {
  }

  lemma RecordedInsert(mem: map<Id, Callout>, armed: map<Id, int>, c: Id, r: Callout, d: int)
    requires Recorded(mem, armed) && r.pending && r.time == Wrap(d)
    ensures Recorded(mem[c := r], armed[c := d])
  {
    hide Wrap;
  }

  lemma CursorInsert(list: seq<Id>, next: Option<Id>, armed: map<Id, int>, cur: int, c: Id, d: int)
    requires CursorOk(list, next, armed, cur) && d != cur
    ensures CursorOk(list, next, armed[c := d], cur)
    ensures CursorOk([c] + list, Some(c), armed[c := d], cur)
  {
  }

  lemma PooledRemove(free: seq<Id>, local: nat, armed: map<Id, int>, curr: Option<Id>, taken: Option<Id>, c: Id)
    requires Pooled(free, local, armed, curr, taken) && c in armed && (c < local ==> taken.None?)
    ensures Pooled(free, local, armed - {c}, curr, if c < local then Some(c) else taken)
  {
  }

  lemma PooledInsert(free: seq<Id>, local: nat, armed: map<Id, int>, curr: Option<Id>, taken: Option<Id>, c: Id, d: int)
    requires Pooled(free, local, armed, curr, taken) && taken == if c < local then Some(c) else None
    ensures Pooled(free, local, armed[c := d], curr, None)
  {
  }

  // ----- every operation keeps the invariant

  lemma UnlinkKeeps(k: Config, s: Cc, armed: map<Id, int>, now: int, sweep: Option<int>, taken: Option<Id>, c: Id)
    requires Inv(k, s, armed, now, sweep, taken) && c in armed && (c < k.local ==> taken.None?)
    ensures Inv(k, Unlink(k, s, c), armed - {c}, now, sweep, if c < k.local then Some(c) else taken)
  {
    hide Placed, Recorded, Pooled, CursorOk, Bucket, Wrap, Index, Next, Without, Distinct;
    var b := Bucket(armed[c], k.size);
    Find(k, s, armed, c);
    BucketWrap(armed[c], k.size);
    PlacedRemove(s.wheel, armed, k.size, c);
    RecordedRemove(s.mem, armed, c);
    PooledRemove(s.free, k.local, armed, s.curr, taken, c);
    UnlinkCursor(k, s, armed, sweep, c, b);
  }

  /** Where an armed callout is. */
  lemma Find(k: Config, s: Cc, armed: map<Id, int>, c: Id)
    requires k.size > 0 && Placed(s.wheel, armed, k.size) && Recorded(s.mem, armed) && c in armed
    ensures var b := Bucket(armed[c], k.size);
            && c in s.mem && s.mem[c].time == Wrap(armed[c])
            && b < |s.wheel| && c in s.wheel[b] && Distinct(s.wheel[b])
            && forall b' :: 0 <= b' < k.size && b' != b ==> c !in s.wheel[b']
  {
  }

  lemma UnlinkCursor(k: Config, s: Cc, armed: map<Id, int>, sweep: Option<int>, c: Id, b: nat)
    requires k.size > 0 && |s.wheel| == k.size && s.bucket < k.size && b < k.size
    requires Cursor(k, s, armed, sweep)
    requires c in s.mem && b == Bucket(s.mem[c].time, k.size) && c in s.wheel[b] && Distinct(s.wheel[b])
    requires forall b' :: 0 <= b' < k.size && b' != b ==> c !in s.wheel[b']
    ensures Cursor(k, Unlink(k, s, c), armed - {c}, sweep)
  {
    WithoutElements(s.wheel[b], c);
    if sweep.Some? && b == s.bucket {
      CursorRemove(s.wheel[b], s.next, armed, sweep.value, c);
    }
  }

  lemma AddKeeps(k: Config, s: Cc, armed: map<Id, int>, now: int, sweep: Option<int>, taken: Option<Id>,
                 c: Id, delay: int, func: nat, arg: int, direct: bool)
    requires Inv(k, s, armed, now, sweep, taken) && c !in armed && c in k.ids && 1 <= delay < TWO31
    requires taken == if c < k.local then Some(c) else None
    ensures Inv(k, CcAdd(k, s, c, delay, func, arg, direct), armed[c := now + delay], now, sweep, None)
  {
    hide Placed, Recorded, Pooled, CursorOk, Bucket, Wrap;
    var b, d := Bucket(now + delay, k.size), now + delay;
    WrapShift(now, delay);
    BucketWrap(d, k.size);
    PlacedInsert(s.wheel, armed, k.size, c, d);
    RecordedInsert(s.mem, armed, c, Callout(Wrap(d), Some(func), arg, true, s.mem[c].direct || direct), d);
    PooledInsert(s.free, k.local, armed, s.curr, taken, c, d);
    if sweep.Some? {
      CursorInsert(s.wheel[s.bucket], s.next, armed, sweep.value, c, d);
    }
  }

  lemma DelKeeps(k: Config, s: Cc, armed: map<Id, int>, now: int, sweep: Option<int>, taken: Option<Id>, c: Id)
    requires Inv(k, s, armed, now, sweep, taken) && c !in armed && c in k.ids && s.curr != Some(c)
    requires taken == if c < k.local then Some(c) else None
    ensures Inv(k, CcDel(k, s, c), armed, now, sweep, None)
  {
    hide Placed, CursorOk, Bucket, Wrap;
  }

  lemma ResetKeeps(k: Config, s: Cc, armed: map<Id, int>, now: int, sweep: Option<int>, taken: Option<Id>,
                   c: Id, to: int, func: nat, arg: int, direct: bool)
    requires Inv(k, s, armed, now, sweep, taken) && c in k.ids && IsInt(to)
    requires taken == (if c < k.local then Some(c) else None) && (c < k.local ==> c !in armed)
    ensures Inv(k, DoReset(k, s, c, to, func, arg, direct), armed[c := now + (if to <= 0 then 1 else to)], now, sweep, None)
  {
    hide Placed, Pooled, CursorOk, Cursor, Bucket, Wrap, Within;
    if s.mem[c].pending {
      UnlinkKeeps(k, s, armed, now, sweep, taken, c);
      AddKeeps(k, Unlink(k, s, c), armed - {c}, now, sweep, taken, c, Delay(to), func, arg, direct);
      assert (armed - {c})[c := now + Delay(to)] == armed[c := now + Delay(to)];
    } else {
      AddKeeps(k, s, armed, now, sweep, taken, c, Delay(to), func, arg, direct);
    }
  }

  lemma StopKeeps(k: Config, s: Cc, armed: map<Id, int>, now: int, sweep: Option<int>, c: Id)
    requires Inv(k, s, armed, now, sweep, None) && c in k.ids
    ensures s.mem[c].pending <==> c in armed
    ensures Inv(k, DoStop(k, s, c), if c in armed then armed - {c} else armed, now, sweep, None)
  {
    hide Placed, CursorOk, Cursor, Bucket, Wrap, Within;
    if s.mem[c].pending {
      UnlinkKeeps(k, s, armed, now, sweep, None, c);
      assert s.curr == Some(c) ==> c >= k.local;
      if c < k.local {
        DelKeeps(k, Unlink(k, s, c), armed - {c}, now, sweep, Some(c), c);
      }
    }
  }

  lemma TakeKeeps(k: Config, s: Cc, armed: map<Id, int>, now: int, sweep: Option<int>)
    requires Inv(k, s, armed, now, sweep, None) && s.free != []
    ensures Inv(k, s.(free := s.free[1..]), armed, now, sweep, Some(s.free[0]))
    ensures s.free[0] < k.local && s.free[0] in k.ids && s.free[0] !in armed
  {
    hide Placed, Recorded, CursorOk, Bucket, Wrap, Within;
    assert forall c :: c in s.free <==> c == s.free[0] || c in s.free[1..];
    assert s.free[0] in s.free;
  }

  /** The armed callouts after some events at time now. */
  function AfterAll(armed: map<Id, int>, now: int, es: seq<Event>): map<Id, int> {
    if es == [] then armed else After(AfterAll(armed, now, es[..|es|-1]), now, es[|es|-1])
  }

  lemma InitialInv(k: Config, s: Cc)
    requires k.size > 0 && TWO32 % k.size == 0 && forall c :: 0 <= c < k.local ==> c in k.ids
    requires s.ticks == 0 && s.next.None? && s.bucket == 0 && s.curr.None?
    requires |s.wheel| == k.size && forall b :: 0 <= b < k.size ==> s.wheel[b] == []
    requires |s.free| == k.local && forall i :: 0 <= i < k.local ==> s.free[i] == k.local - 1 - i
    requires s.mem.Keys == k.ids && forall c :: c in s.mem ==> !s.mem[c].pending
    ensures Inv(k, s, map[], 0, None, None)
  {
    WrapIdentity(0);
    hide Wrap;
    forall c | 0 <= c < k.local ensures c in s.free {
      assert s.free[k.local - 1 - c] == c;
    }
  }

  lemma InvOps(k: Config, s: Cc, armed: map<Id, int>, now: int, sweep: Option<int>)
    requires Inv(k, s, armed, now, sweep, None)
    ensures k.size > 0 && TWO32 % k.size == 0 && |s.wheel| == k.size && s.bucket < k.size
    ensures s.mem.Keys == k.ids && s.ticks == Wrap(now)
    ensures forall c :: c in s.free ==> c in s.mem
    ensures sweep.Some? ==> sweep.value == now - 1 && s.bucket == Bucket(now - 1, k.size)
    ensures s.next.Some? ==> s.next.value in s.wheel[s.bucket]
  {
    hide Placed, Recorded, CursorOk, Bucket, Wrap, Within;
  }

  lemma AfterOne(armed: map<Id, int>, now: int, e: Event)
    ensures AfterAll(armed, now, [e]) == After(armed, now, e)
    ensures AfterAll(armed, now, []) == armed
  {
    assert [e][..0] == [];
  }

  /** Whatever a handler or a client does, the invariant survives. */
  lemma ExecKeeps(k: Config, s: Cc, armed: map<Id, int>, now: int, sweep: Option<int>, op: Op)
    requires Inv(k, s, armed, now, sweep, None) && Allowed(k, op)
    requires k.size > 0 && |s.wheel| == k.size && s.mem.Keys == k.ids && forall c :: c in s.free ==> c in s.mem
    ensures Inv(k, Exec(k, s, op), AfterAll(armed, now, Events(s, op)), now, sweep, None)
    ensures forall e :: e in Events(s, op) ==> e.Arm? || (e.Cancel? && e.c in armed)
  {
    hide Inv, DoReset, DoStop;
    match op
    case Reset(c, to, func, arg, direct) =>
      ResetKeeps(k, s, armed, now, sweep, None, c, to, func, arg, direct);
      AfterOne(armed, now, Arm(c, to));
    case Stop(c) =>
      StopKeeps(k, s, armed, now, sweep, c);
      AfterOne(armed, now, Cancel(c));
    case Timeout(func, arg, to) =>
      if s.free != [] {
        TakeKeeps(k, s, armed, now, sweep);
        ResetKeeps(k, s.(free := s.free[1..]), armed, now, sweep, Some(s.free[0]), s.free[0], to, func, arg, false);
        AfterOne(armed, now, Arm(s.free[0], to));
      }
    case Untimeout(func, arg, h) =>
      if h.Some? && Matches(s, h.value, func, arg) {
        StopKeeps(k, s, armed, now, sweep, h.value);
        AfterOne(armed, now, Cancel(h.value));
      }
  }

  /** No operation makes more callouts due in the bucket that is being swept: a new deadline is
      always later than now, and the bucket's time is earlier. */
  lemma DueShrinks(armed: map<Id, int>, now: int, es: seq<Event>, cur: int)
    requires cur < now && |es| <= 1
    ensures Due(AfterAll(armed, now, es), cur) <= Due(armed, cur)
  {
    if es != [] {
      assert es == [es[0]];
      AfterOne(armed, now, es[0]);
    }
  }

  /** What an operation's events do to the trace. */
  lemma TraceExtends(log: seq<Event>, es: seq<Event>)
    requires TraceOk(log) && |es| <= 1
    requires forall e :: e in es ==> e.Arm? || (e.Cancel? && e.c in Armed(log))
    ensures TraceOk(log + es) && Now(log + es) == Now(log) && Handled(log + es) == Handled(log)
    ensures Armed(log + es) == AfterAll(Armed(log), Now(log), es)
  {
    hide TraceOk, Armed, Now, Handled, AfterAll;
    AfterOne(Armed(log), Now(log), Tick);
    if es == [] {
      assert log + es == log;
    } else {
      assert es == [es[0]];
      Snoc(log, es[0]);
      AfterOne(Armed(log), Now(log), es[0]);
    }
  }

  // ----- the sweep of one bucket

  /** A tick opens the bucket of the time that has just ended, with the cursor at its first entry. */
  lemma SweepStarts(k: Config, s: Cc, armed: map<Id, int>, now: int)
    requires Inv(k, s, armed, now, None, None)
    ensures var b := Bucket(now, k.size);
            Inv(k, s.(ticks := Wrap(now + 1), bucket := b, next := First(s.wheel[b])), armed, now + 1, Some(now), None)
  {
    hide Placed, Recorded, Pooled, Wrap;
    var list := s.wheel[Bucket(now, k.size)];
    assert list != [] ==> Index(list, list[0]) == 0;
  }

  lemma NothingOverdue(k: Config, s: Cc, armed: map<Id, int>, now: int)
    requires Inv(k, s, armed, now, None, None)
    ensures forall c :: c in armed ==> armed[c] >= now
  {
  }

  /** An entry that is not due is skipped. */
  lemma SweepSkips(k: Config, s: Cc, armed: map<Id, int>, now: int)
    requires Inv(k, s, armed, now, Some(now - 1), None) && s.next.Some?
    ensures s.next.value in armed && s.next.value in s.mem
    ensures s.mem[s.next.value].time == Wrap(now - 1) <==> armed[s.next.value] == now - 1
    ensures armed[s.next.value] != now - 1 ==>
              && Inv(k, s.(next := Next(s.wheel[s.bucket], s.next.value)), armed, now, Some(now - 1), None)
              && Rank(s.wheel[s.bucket], Next(s.wheel[s.bucket], s.next.value)) < Rank(s.wheel[s.bucket], s.next)
  {
    hide Placed, Pooled, Index, Next, Wrap, Bucket, CursorOk;
    var c := s.next.value;
    InBucket(k, s, armed, c);
    WrapInjective(armed[c], now - 1);
    if armed[c] != now - 1 {
      CursorSkip(s.wheel[s.bucket], s.next, armed, now - 1);
      NextAdvances(s.wheel[s.bucket], c);
    }
  }

  lemma InBucket(k: Config, s: Cc, armed: map<Id, int>, c: Id)
    requires k.size > 0 && Placed(s.wheel, armed, k.size) && s.bucket < k.size && c in s.wheel[s.bucket]
    ensures c in armed && Distinct(s.wheel[s.bucket])
  {
  }

  /** How much of the bucket is left from the cursor on. */
  ghost function Rank(list: seq<Id>, next: Option<Id>): nat {
    if next.Some? then |list| - Index(list, next.value) else 0
  }

  lemma NextAdvances(list: seq<Id>, c: Id)
    requires Distinct(list) && c in list
    ensures Next(list, c).Some? ==> Next(list, c).value in list
    ensures Rank(list, Next(list, c)) < Rank(list, Some(c))
  {
    var n := Next(list, c);
    if n.Some? {
      assert Index(list, n.value) == Index(list, c) + 1;
    }
  }

  /** softclock_call_cc up to the call of the handler: c becomes the current callout. A
      preallocated callout loses all its other flags. */
  function Entered(k: Config, s: Cc, c: Id): Cc
    requires c in s.mem
  {
    s.(curr := Some(c), mem := s.mem[c := s.mem[c].(pending := false, direct := c >= k.local && s.mem[c].direct)])
  }

  /** softclock_call_cc after the handler has returned. */
  function RunEnd(k: Config, s: Cc, c: Id): Cc
    requires c in s.mem
  {
    CcDel(k, s.(curr := None), c)
  }

  /** The due callout at the cursor leaves the wheel and runs. */
  lemma RunStarts(k: Config, s: Cc, armed: map<Id, int>, now: int)
    requires Inv(k, s, armed, now, Some(now - 1), None) && s.next.Some? && s.curr.None?
    requires s.next.value in armed && armed[s.next.value] == now - 1
    ensures var c, list := s.next.value, s.wheel[s.bucket];
            && c in s.mem
            && var s' := s.(next := Next(list, c), wheel := s.wheel[s.bucket := Without(list, c)]);
               Inv(k, Entered(k, s', c), armed - {c}, now, Some(now - 1), None)
    ensures Due(armed - {s.next.value}, now - 1) < Due(armed, now - 1)
  {
    hide Placed, Pooled, CursorOk, Bucket, Wrap, Within, Next, Without;
    var c := s.next.value;
    Find(k, s, armed, c);
    BucketWrap(now - 1, k.size);
    UnlinkKeeps(k, s, armed, now, Some(now - 1), None, c);
    BecomesCurrent(k, Unlink(k, s, c), armed - {c}, now, Some(now - 1), c);
    assert c in Due(armed, now - 1) && c !in Due(armed - {c}, now - 1);
    assert Entered(k, Unlink(k, s, c), c) ==
           Entered(k, s.(next := Next(s.wheel[s.bucket], c), wheel := s.wheel[s.bucket := Without(s.wheel[s.bucket], c)]), c);
  }

  lemma BecomesCurrent(k: Config, s: Cc, armed: map<Id, int>, now: int, sweep: Option<int>, c: Id)
    requires Inv(k, s, armed, now, sweep, if c < k.local then Some(c) else None)
    requires c in k.ids && c !in armed && s.curr.None?
    ensures Inv(k, Entered(k, s, c), armed, now, sweep, None)
  {
    hide Placed, CursorOk, Bucket, Wrap, Within;
  }

  /** A callout of the pool is not armed while it runs, and one that is armed is pending. */
  lemma ArmedPending(k: Config, s: Cc, armed: map<Id, int>, now: int, sweep: Option<int>, c: Id)
    requires Inv(k, s, armed, now, sweep, None) && c in s.mem
    ensures s.mem[c].pending <==> c in armed
    ensures c < k.local && s.curr == Some(c) ==> !s.mem[c].pending
  {
    hide Placed, CursorOk, Bucket, Wrap, Within;
  }

  lemma RunEnds(k: Config, s: Cc, armed: map<Id, int>, now: int, c: Id)
    requires Inv(k, s, armed, now, Some(now - 1), None) && s.curr == Some(c) && c in k.ids
    ensures Inv(k, RunEnd(k, s, c), armed, now, Some(now - 1), None)
  {
    hide Placed, CursorOk, Bucket, Wrap, Within;
    var s' := s.(curr := None);
    assert Inv(k, s', armed, now, Some(now - 1), if c < k.local then Some(c) else None);
    if c < k.local {
      DelKeeps(k, s', armed, now, Some(now - 1), Some(c), c);
    }
  }

  /** When the cursor has passed the whole bucket, nothing is overdue any more. */
  lemma SweepEnds(k: Config, s: Cc, armed: map<Id, int>, now: int, next: Option<Id>, bucket: nat)
    requires Inv(k, s, armed, now, Some(now - 1), None) && s.next.None?
    requires bucket < k.size && (next.Some? ==> next.value in s.wheel[bucket])
    ensures Inv(k, s.(next := next, bucket := bucket), armed, now, None, None)
  {
    hide Recorded, Pooled, Wrap;
    forall c | c in armed ensures armed[c] != now - 1 {
      assert c in s.wheel[Bucket(armed[c], k.size)];
    }
  }
}
