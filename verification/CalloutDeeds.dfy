/** Where the events of a callout trace come from: the clock, the operations of the clients, and the
    operations of the handlers. Each deed carries the state it started from; the deeds of a run form a
    chain, in which every deed starts from the callouts and the free list that the one before it left. */
module CalloutDeeds {
  import opened Options
  import opened CalloutTrace
  import opened CalloutSpec

  datatype Deed =
    | Passed                                  // ff_hardclock advanced the clock
    | Served(c: Id, s: Cc, ops: seq<Op>)      // softclock called the handler of c, which did ops
    | Called(s: Cc, op: Op)                   // a client did op

  /** What goes on from outside. */
  datatype Step = Clock | Client(op: Op)

  /** The callouts and the free list: what the next operation's events depend on. */
  datatype Store = Store(mem: map<Id, Callout>, free: seq<Id>)

  function Stored(s: Cc): Store {
    Store(s.mem, s.free)
  }

  /** Before anything is armed: SLIST_INSERT_HEAD leaves the pool in reverse order. */
  function Fresh(k: Config): Store {
    Store(map c | c in k.ids :: Callout(0, None, 0, false, false), seq(k.local, i requires 0 <= i < k.local => k.local - 1 - i))
  }

  /** The state in which the handler of a deed begins. */
  function Begun(k: Config, d: Deed): Cc
    requires d.Served?
  {
    if d.c in d.s.mem then Entered(k, d.s, d.c) else d.s
  }

  /** What a deed leaves behind. */
  function Left(k: Config, d: Deed): Store
    requires !d.Passed?
  {
    match d
    case Served(c, s, ops) =>
      var t := ExecAll(k, Begun(k, d), ops);
      Stored(if c in t.mem then RunEnd(k, t, c) else t)
    case Called(s, op) => Stored(ExecAll(k, s, [op]))
  }

  /** The events of a deed. */
  function Seen(k: Config, d: Deed): seq<Event> {
    match d
    case Passed => [Tick]
    case Served(c, s, ops) => [Ran(c)] + EventsAll(k, Begun(k, d), ops)
    case Called(s, op) => EventsAll(k, s, [op])
  }

  function LogOf(k: Config, deeds: seq<Deed>): seq<Event> {
    if deeds == [] then [] else LogOf(k, deeds[..|deeds|-1]) + Seen(k, deeds[|deeds|-1])
  }

  /** How many handlers were called. */
  function Calls(deeds: seq<Deed>): nat {
    if deeds == [] then 0 else Calls(deeds[..|deeds|-1]) + (if deeds[|deeds|-1].Served? then 1 else 0)
  }

  /** The callouts and the free list after the deeds. */
  function StoreOf(k: Config, deeds: seq<Deed>): Store {
    if deeds == [] then Fresh(k)
    else if deeds[|deeds|-1].Passed? then StoreOf(k, deeds[..|deeds|-1])
    else Left(k, deeds[|deeds|-1])
  }

  /** The deeds without those of the handlers. */
  function StepsOf(deeds: seq<Deed>): seq<Step> {
    if deeds == [] then []
    else
      var steps := StepsOf(deeds[..|deeds|-1]);
      match deeds[|deeds|-1]
      case Passed => steps + [Clock]
      case Served(_, _, _) => steps
      case Called(_, op) => steps + [Client(op)]
  }

  predicate Idle(s: Cc, c: Id) {
    c in s.mem ==> !s.mem[c].pending
  }

  /** One deed follows the others: it starts from what they left, the n-th handler does env(n), and a callout of
      the pool is not armed again while it runs. */
  predicate Follows(k: Config, env: nat -> seq<Op>, deeds: seq<Deed>, d: Deed) {
    match d
    case Passed => true
    case Served(c, s, ops) =>
      && Stored(s) == StoreOf(k, deeds) && c in s.mem && s.mem[c].pending && ops == env(Calls(deeds))
      && (c < k.local ==> Idle(ExecAll(k, Begun(k, d), ops), c))
    case Called(s, op) => Stored(s) == StoreOf(k, deeds)
  }

  predicate Chained(k: Config, env: nat -> seq<Op>, deeds: seq<Deed>) {
    deeds == [] ||
    (Chained(k, env, deeds[..|deeds|-1]) && Follows(k, env, deeds[..|deeds|-1], deeds[|deeds|-1]))
  }

  /** The deeds account for the whole log and for the callouts as they are. */
  predicate Accounts(k: Config, env: nat -> seq<Op>, deeds: seq<Deed>, log: seq<Event>, calls: nat, now: Store) {
    Chained(k, env, deeds) && LogOf(k, deeds) == log && Calls(deeds) == calls && StoreOf(k, deeds) == now
  }

  lemma AccountsNone(k: Config, env: nat -> seq<Op>)
    ensures Accounts(k, env, [], [], 0, Fresh(k))
  {
  }

  lemma AccountsTick(k: Config, env: nat -> seq<Op>, deeds: seq<Deed>, log: seq<Event>, calls: nat, now: Store)
    requires Accounts(k, env, deeds, log, calls, now)
    ensures Accounts(k, env, deeds + [Passed], log + [Tick], calls, now)
    ensures StepsOf(deeds + [Passed]) == StepsOf(deeds) + [Clock]
  {
    assert (deeds + [Passed])[..|deeds|] == deeds;
  }

  lemma AccountsCall(k: Config, env: nat -> seq<Op>, deeds: seq<Deed>, log: seq<Event>, calls: nat, s: Cc, op: Op)
    requires Accounts(k, env, deeds, log, calls, Stored(s))
    ensures Accounts(k, env, deeds + [Called(s, op)], log + EventsAll(k, s, [op]), calls, Stored(ExecAll(k, s, [op])))
    ensures StepsOf(deeds + [Called(s, op)]) == StepsOf(deeds) + [Client(op)]
  {
    hide EventsAll, ExecAll;
    assert (deeds + [Called(s, op)])[..|deeds|] == deeds;
  }

  lemma AccountsRun(k: Config, env: nat -> seq<Op>, deeds: seq<Deed>, log: seq<Event>, calls: nat, s: Cc, c: Id)
    requires Accounts(k, env, deeds, log, calls, Stored(s)) && c in s.mem && s.mem[c].pending
    requires c in ExecAll(k, Entered(k, s, c), env(calls)).mem
    requires c < k.local ==> Idle(ExecAll(k, Entered(k, s, c), env(calls)), c)
    ensures var t := ExecAll(k, Entered(k, s, c), env(calls));
      var d := Served(c, s, env(calls));
      && Accounts(k, env, deeds + [d], log + [Ran(c)] + EventsAll(k, Entered(k, s, c), env(calls)), calls + 1,
           Stored(RunEnd(k, t, c)))
      && StepsOf(deeds + [d]) == StepsOf(deeds)
  {
    hide EventsAll, ExecAll, RunEnd, Entered, Idle;
    var d := Served(c, s, env(calls));
    assert (deeds + [d])[..|deeds|] == deeds;
    assert log + ([Ran(c)] + EventsAll(k, Begun(k, d), d.ops)) == log + [Ran(c)] + EventsAll(k, Begun(k, d), d.ops);
  }

  // ----- reading a chain

  /** Every deed of a chain follows those before it, and its events stand in the log behind theirs. */
  lemma {:induction false} DeedAt(k: Config, env: nat -> seq<Op>, deeds: seq<Deed>, i: nat)
    requires Chained(k, env, deeds) && i < |deeds|
    ensures Follows(k, env, deeds[..i], deeds[i])
    ensures LogOf(k, deeds[..i]) + Seen(k, deeds[i]) <= LogOf(k, deeds)
  {
    hide Follows, Seen;
    var before := deeds[..|deeds|-1];
    if i < |before| {
      DeedAt(k, env, before, i);
      assert before[..i] == deeds[..i];
    }
  }

  /** The j-th operation of a list has its events behind those of the ones before it. */
  lemma {:induction false} OpAt(k: Config, s: Cc, ops: seq<Op>, j: nat)
    requires j < |ops|
    ensures EventsAll(k, s, ops[..j]) + Events(ExecAll(k, s, ops[..j]), ops[j]) <= EventsAll(k, s, ops)
  {
    hide Events, ExecAll;
    var before := ops[..|ops|-1];
    if j < |before| {
      OpAt(k, s, before, j);
      assert before[..j] == ops[..j];
    }
  }

  /** Where the arming by operation j of the handler of deed i stands in the log. */
  function Place(k: Config, deeds: seq<Deed>, i: nat, j: nat): nat
    requires i < |deeds| && deeds[i].Served? && j < |deeds[i].ops|
  {
    |LogOf(k, deeds[..i])| + 1 + |EventsAll(k, Begun(k, deeds[i]), deeds[i].ops[..j])|
  }

  /** A handler that resets a callout puts that arming in the log, behind its own run and in the same tick. */
  lemma HandlerArms(k: Config, env: nat -> seq<Op>, deeds: seq<Deed>, i: nat, j: nat)
    requires Chained(k, env, deeds) && i < |deeds| && deeds[i].Served?
    requires j < |deeds[i].ops| && deeds[i].ops[j].Reset?
    ensures deeds[i].ops == env(Calls(deeds[..i]))
    ensures var log, first, p := LogOf(k, deeds), |LogOf(k, deeds[..i])|, Place(k, deeds, i, j);
      && first < p < |log| && log[first] == Ran(deeds[i].c)
      && log[p] == Arm(deeds[i].ops[j].c, deeds[i].ops[j].to)
      && Now(log[..p]) == Now(log[..first])
  {
    hide EventsAll, ExecAll, LogOf, Chained, Begun, Now;
    var d := deeds[i];
    var log, before, part := LogOf(k, deeds), LogOf(k, deeds[..i]), EventsAll(k, Begun(k, d), d.ops[..j]);
    DeedAt(k, env, deeds, i);
    OpAt(k, Begun(k, d), d.ops, j);
    NoTicks(k, Begun(k, d), d.ops[..j]);
    var p := Place(k, deeds, i, j);
    assert log[|before|..|before| + |Seen(k, d)|] == Seen(k, d);
    assert Seen(k, d)[1..1 + |part| + 1] == part + [Arm(d.ops[j].c, d.ops[j].to)];
    assert log[..p] == before + ([Ran(d.c)] + part);
    assert log[..|before|] == before;
    SameTick(before, [Ran(d.c)] + part);
  }

  lemma {:induction false} NoTicks(k: Config, s: Cc, ops: seq<Op>)
    ensures forall e :: e in EventsAll(k, s, ops) ==> !e.Tick?
  {
    hide ExecAll;
    if ops != [] {
      NoTicks(k, s, ops[..|ops|-1]);
    }
  }

  lemma {:induction false} SameTick(log: seq<Event>, es: seq<Event>)
    requires forall e :: e in es ==> !e.Tick?
    ensures Now(log + es) == Now(log)
  {
    if es == [] {
      assert log + es == log;
    } else {
      SameTick(log, es[..|es|-1]);
      assert (log + es)[..|log + es|-1] == log + es[..|es|-1];
    }
  }

  // ----- which function is called

  /** A function and its argument. */
  datatype Handler = Handler(func: nat, arg: int)

  /** The handlers with which callouts were last armed, after one more operation. */
  function Given(g: map<Id, Handler>, s: Cc, op: Op): map<Id, Handler> {
    match op
    case Reset(c, _, func, arg, _) => g[c := Handler(func, arg)]
    case Timeout(func, arg, _) => if s.free == [] then g else g[s.free[0] := Handler(func, arg)]
    case _ => g
  }

  function GivenAll(k: Config, g: map<Id, Handler>, s: Cc, ops: seq<Op>): map<Id, Handler> {
    if ops == [] then g
    else
      var t := ExecAll(k, s, ops[..|ops|-1]);
      var g' := GivenAll(k, g, s, ops[..|ops|-1]);
      if Ready(k, t) && Allowed(k, ops[|ops|-1]) then Given(g', t, ops[|ops|-1]) else g'
  }

  /** The handlers with which callouts were last armed in the deeds. */
  function Handlers(k: Config, deeds: seq<Deed>): map<Id, Handler> {
    if deeds == [] then map[]
    else
      var g := Handlers(k, deeds[..|deeds|-1]);
      match deeds[|deeds|-1]
      case Passed => g
      case Served(c, s, ops) => GivenAll(k, g, Begun(k, deeds[|deeds|-1]), ops)
      case Called(s, op) => GivenAll(k, g, s, [op])
  }

  /** Pending callouts have the handlers they were armed with. */
  predicate Bound(mem: map<Id, Callout>, g: map<Id, Handler>) {
    forall c | c in mem && mem[c].pending :: c in g && mem[c].func == Some(g[c].func) && mem[c].arg == g[c].arg
  }

  lemma ExecBound(k: Config, g: map<Id, Handler>, s: Cc, op: Op)
    requires Bound(s.mem, g) && Ready(k, s) && Allowed(k, op)
    ensures Bound(Exec(k, s, op).mem, Given(g, s, op))
  {
    hide Bucket, Wrap, Without, Next;
  }

  lemma {:induction false} ExecAllBound(k: Config, g: map<Id, Handler>, s: Cc, ops: seq<Op>)
    requires Bound(s.mem, g)
    ensures Bound(ExecAll(k, s, ops).mem, GivenAll(k, g, s, ops))
  {
    hide Bound, Exec, Given, Ready, Allowed;
    if ops != [] {
      ExecAllBound(k, g, s, ops[..|ops|-1]);
      var t := ExecAll(k, s, ops[..|ops|-1]);
      if Ready(k, t) && Allowed(k, ops[|ops|-1]) {
        ExecBound(k, GivenAll(k, g, s, ops[..|ops|-1]), t, ops[|ops|-1]);
      }
    }
  }

  lemma CallBound(k: Config, g: map<Id, Handler>, s: Cc, c: Id)
    requires Bound(s.mem, g) && c in s.mem
    ensures Bound(Entered(k, s, c).mem, g)
    ensures (c < k.local ==> Idle(s, c)) ==> Bound(RunEnd(k, s, c).mem, g)
  {
  }

  lemma {:induction false} ChainBound(k: Config, env: nat -> seq<Op>, deeds: seq<Deed>)
    requires Chained(k, env, deeds)
    ensures Bound(StoreOf(k, deeds).mem, Handlers(k, deeds))
  {
    hide Bound, ExecAll, GivenAll, Entered, RunEnd, Idle;
    if deeds == [] {
      FreshBound(k);
    } else {
      var front, d := deeds[..|deeds|-1], deeds[|deeds|-1];
      ChainBound(k, env, front);
      match d {
        case Passed =>
        case Served(c, s, ops) =>
          CallBound(k, Handlers(k, front), s, c);
          ExecAllBound(k, Handlers(k, front), Begun(k, d), ops);
          var t := ExecAll(k, Begun(k, d), ops);
          if c in t.mem {
            CallBound(k, Handlers(k, deeds), t, c);
          }
        case Called(s, op) =>
          ExecAllBound(k, Handlers(k, front), s, [op]);
      }
    }
  }

  lemma FreshBound(k: Config)
    ensures Bound(Fresh(k).mem, map[])
  {
  }

  /** The function that softclock calls, and the argument it passes, are those with which the callout was last
      armed before the call. */
  lemma CalledAsArmed(k: Config, env: nat -> seq<Op>, deeds: seq<Deed>, i: nat)
    requires Chained(k, env, deeds) && i < |deeds| && deeds[i].Served?
    ensures var c, s, g := deeds[i].c, deeds[i].s, Handlers(k, deeds[..i]);
      c in s.mem && c in g && s.mem[c].func == Some(g[c].func) && s.mem[c].arg == g[c].arg
  {
    hide ExecAll, Handlers, StoreOf, Chained;
    DeedAt(k, env, deeds, i);
    ChainPrefix(k, env, deeds, i);
    ChainBound(k, env, deeds[..i]);
  }

  lemma {:induction false} ChainPrefix(k: Config, env: nat -> seq<Op>, deeds: seq<Deed>, i: nat)
    requires Chained(k, env, deeds) && i <= |deeds|
    ensures Chained(k, env, deeds[..i])
  {
    hide Follows;
    if i < |deeds| {
      var front := deeds[..|deeds|-1];
      ChainPrefix(k, env, front, i);
      assert front[..i] == deeds[..i];
    } else {
      assert deeds[..i] == deeds;
    }
  }
}
