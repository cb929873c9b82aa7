/** The callout wheel as an object: the functions of lib/ff_kern_timeout.c as methods that update
    its fields in place, proved against CalloutSpec. The handlers are arbitrary: env(n) lists what
    the n-th handler call does. */
module CalloutWheel {
  import opened Arith
  import opened Options
  import opened CalloutTrace
  import opened CalloutSpec
  import opened CalloutDeeds

  class Wheel {
    const k: Config
    const env: nat -> seq<Op>
    var ticks: int
    var softticks: int         // cc_softticks
    var next: Option<Id>
    var bucket: nat
    var curr: Option<Id>
    var wheel: seq<seq<Id>>
    var free: seq<Id>
    var mem: map<Id, Callout>
    var calls: nat             // how many handlers have been called
    ghost var log: seq<Event>
    ghost var sweep: Option<int>  // the time whose bucket is being swept
    ghost var deeds: seq<Deed>    // where the events of the log come from

    function View(): Cc
      reads this
    {
      Cc(ticks, next, bucket, curr, wheel, free, mem)
    }

    ghost predicate Valid()
      reads this
    {
      && Inv(k, View(), Armed(log), Now(log), sweep, None) && TraceOk(log) && calls == Handled(log)
      && (forall n, op :: op in env(n) ==> Allowed(k, op))
    }

    /** Between two hardclocks nothing is overdue and no handler is active. */
    ghost predicate Idle()
      reads this
    {
      Valid() && sweep.None? && curr.None? && softticks == ticks
    }

    /** Every event of the log is the clock's, a client's or a handler's, and the n-th handler did env(n). */
    ghost predicate Told()
      reads this
    {
      Accounts(k, env, deeds, log, calls, Store(mem, free))
    }

    /** callout_callwheel_init and callout_cpu_init. */
    constructor (k: Config, env: nat -> seq<Op>)
      requires k.size > 0 && TWO32 % k.size == 0 && forall c :: 0 <= c < k.local ==> c in k.ids
      requires forall n, op :: op in env(n) ==> Allowed(k, op)
      ensures Idle() && log == [] && this.k == k && this.env == env && calls == 0
      ensures Told() && deeds == [] && Store(mem, free) == Fresh(k)
    {
      this.k := k;
      this.env := env;
      ticks, softticks, next, bucket, curr, calls := 0, 0, None, 0, None, 0;
      wheel := seq(k.size, _ => []);
      free := Fresh(k).free;
      mem := Fresh(k).mem;
      log, sweep, deeds := [], None, [];
      new;
      AccountsNone(k, env);
      InitialInv(k, View());
    }

    /** LIST_REMOVE of a pending callout, with the adjustment of cc_next. */
    method UnlinkC(c: Id)
      requires k.size > 0 && |wheel| == k.size && c in mem
      modifies this`next, this`wheel, this`mem
      ensures View() == Unlink(k, old(View()), c)
    {
      var b := Bucket(mem[c].time, k.size);
      if next == Some(c) {
        next := Next(wheel[b], c);
      }
      wheel := wheel[b := Without(wheel[b], c)];
      mem := mem[c := mem[c].(pending := false)];
    }

    method CalloutCcAdd(c: Id, delay: int, func: nat, arg: int, direct: bool)
      requires k.size > 0 && |wheel| == k.size && c in mem
      modifies this`next, this`wheel, this`mem
      ensures View() == CcAdd(k, old(View()), c, delay, func, arg, direct)
    {
      var time := Wrap(ticks + delay);
      mem := mem[c := Callout(time, Some(func), arg, true, mem[c].direct || direct)];
      var b := Bucket(time, k.size);
      wheel := wheel[b := [c] + wheel[b]];
      if bucket == b {
        next := Some(c);
      }
    }

    method CalloutCcDel(c: Id)
      requires c in mem
      modifies this`free, this`mem
      ensures View() == CcDel(k, old(View()), c)
    {
      if c < k.local {
        mem := mem[c := mem[c].(func := None)];
        free := [c] + free;
      }
    }

    method CalloutReset(c: Id, to: int, func: nat, arg: int, direct: bool) returns (cancelled: bool)
      requires k.size > 0 && |wheel| == k.size && c in mem
      modifies this`next, this`wheel, this`mem
      ensures View() == DoReset(k, old(View()), c, to, func, arg, direct)
      ensures cancelled == old(mem)[c].pending
      ensures mem == old(mem)[c := Callout(Wrap(old(ticks) + if to <= 0 then 1 else to), Some(func), arg, true, old(mem)[c].direct || direct)]
    {
      cancelled := false;
      if mem[c].pending {
        UnlinkC(c);
        cancelled := true;
      }
      var delay := to;
      if delay <= 0 {
        delay := 1;
      }
      CalloutCcAdd(c, delay, func, arg, direct);
    }

    /** The result is 1 if the callout was taken off the wheel, -1 if it was neither pending nor
        known to be running, 0 if it is running. Only a callout armed for direct execution is
        known to be running, since the others are looked up in the other execution entity. */
    method CalloutStop(c: Id) returns (cancelled: int)
      requires k.size > 0 && |wheel| == k.size && c in mem
      modifies this`next, this`wheel, this`mem, this`free
      ensures View() == DoStop(k, old(View()), c)
      ensures cancelled == if old(mem[c].direct && curr == Some(c)) then 0 else if old(mem)[c].pending then 1 else -1
    {
      cancelled := if mem[c].direct && curr == Some(c) then 0 else 1;
      if !mem[c].pending {
        if !(mem[c].direct && curr == Some(c)) {
          cancelled := -1;
        }
        return;
      }
      UnlinkC(c);
      CalloutCcDel(c);
    }

    /** timeout: None stands for the panic when the pool is exhausted. */
    method TimeoutC(func: nat, arg: int, to: int) returns (handle: Option<Id>)
      requires k.size > 0 && |wheel| == k.size && forall c :: c in free ==> c in mem
      modifies this`next, this`wheel, this`mem, this`free
      ensures View() == DoTimeout(k, old(View()), func, arg, to)
      ensures handle == First(old(free))
    {
      handle := First(free);
      if handle.Some? {
        free := free[1..];
        var _ := CalloutReset(handle.value, to, func, arg, false);
      }
    }

    method UntimeoutC(func: nat, arg: int, handle: Option<Id>)
      requires k.size > 0 && |wheel| == k.size && (handle.Some? ==> handle.value in mem)
      modifies this`next, this`wheel, this`mem, this`free
      ensures View() == if handle.Some? && old(mem)[handle.value].func == Some(func) && old(mem)[handle.value].arg == arg
                        then DoStop(k, old(View()), handle.value) else old(View())
    {
      if handle.None? {
        return;
      }
      if mem[handle.value].func == Some(func) && mem[handle.value].arg == arg {
        var _ := CalloutStop(handle.value);
      }
    }

    /** One operation of a handler or a client. */
    method Perform(op: Op)
      requires Valid() && Allowed(k, op)
      modifies this`next, this`wheel, this`mem, this`free, this`log
      ensures Valid() && old(Ready(k, View())) && View() == Exec(k, old(View()), op)
      ensures log == old(log) + Events(old(View()), op) && Now(log) == old(Now(log))
      ensures sweep.Some? ==> Due(Armed(log), sweep.value) <= old(Due(Armed(log), sweep.value))
    {
      hide Inv, TraceOk, Armed, Now, Handled, AfterAll, Due;
      ghost var s, armed, now := View(), Armed(log), Now(log);
      InvOps(k, s, armed, now, sweep);
      match op {
        case Reset(c, to, func, arg, direct) => var _ := CalloutReset(c, to, func, arg, direct);
        case Stop(c) => var _ := CalloutStop(c);
        case Timeout(func, arg, to) => var _ := TimeoutC(func, arg, to);
        case Untimeout(func, arg, h) => UntimeoutC(func, arg, h);
      }
      assert View() == Exec(k, s, op);
      ExecKeeps(k, s, armed, now, sweep, op);
      TraceExtends(log, Events(s, op));
      if sweep.Some? {
        DueShrinks(armed, now, Events(s, op), sweep.value);
      }
      log := log + Events(s, op);
    }

    /** One operation of a client, between two hardclocks. */
    method ClientCall(op: Op)
      requires Idle() && Told() && Allowed(k, op)
      modifies this
      ensures Idle() && Told() && StepsOf(deeds) == old(StepsOf(deeds)) + [Client(op)]
      ensures log == old(log) + Events(old(View()), op) && Now(log) == old(Now(log))
    {
      hide Inv, TraceOk, Armed, Now, Handled, Due, Exec, Events, Accounts, StepsOf, ExecAll, EventsAll, Ready;
      ghost var s := View();
      AccountsCall(k, env, deeds, log, calls, s, op);
      Perform(op);
      OneOp(k, s, op);
      deeds := deeds + [Called(s, op)];
    }

    /** The body of a handler. */
    method RunHandler(ops: seq<Op>)
      requires Valid() && sweep.Some? && forall op :: op in ops ==> Allowed(k, op)
      modifies this`next, this`wheel, this`mem, this`free, this`log
      ensures Valid() && Now(log) == old(Now(log))
      ensures View() == ExecAll(k, old(View()), ops) && log == old(log) + EventsAll(k, old(View()), ops)
      ensures Due(Armed(log), sweep.value) <= old(Due(Armed(log), sweep.value))
    {
      hide Inv, TraceOk, Armed, Now, Handled, Due, Exec, Events, ExecAll, EventsAll;
      ghost var s := View();
      NoOps(k, s);
      assert ops[..0] == [];
      for i := 0 to |ops|
        invariant Valid() && Now(log) == old(Now(log))
        invariant View() == ExecAll(k, s, ops[..i]) && log == old(log) + EventsAll(k, s, ops[..i])
        invariant Due(Armed(log), sweep.value) <= old(Due(Armed(log), sweep.value))
      {
        AllSnoc(k, s, ops, i);
        Perform(ops[i]);
      }
      assert ops[..|ops|] == ops;
    }

    /** What holds while softclock looks at entry c of the bucket of the time before now. cc_next
        and cc_bucket may still be left over from earlier. */
    ghost predicate Sweeping(c: Option<Id>)
      reads this
    {
      var now := Now(log);
      && k.size > 0
      && Inv(k, View().(next := c, bucket := Bucket(now - 1, k.size)), Armed(log), now, Some(now - 1), None)
      && TraceOk(log) && calls == Handled(log) && curr.None?
      && bucket < k.size && |wheel| == k.size && (next.Some? ==> next.value in wheel[bucket])
      && (forall n, op :: op in env(n) ==> Allowed(k, op))
    }

    /** The first part of softclock_call_cc: c becomes current and its handler is called. */
    method CallHandler(c: Id)
      requires c in mem && c in k.ids && sweep == Some(Now(log) - 1)
      requires Inv(k, Entered(k, View(), c), Armed(log + [Ran(c)]), Now(log), Some(Now(log) - 1), None)
      requires calls == Handled(log) && TraceOk(log + [Ran(c)]) && forall n, op :: op in env(n) ==> Allowed(k, op)
      modifies this`next, this`wheel, this`mem, this`free, this`log, this`calls, this`curr
      ensures Valid() && curr == Some(c) && Now(log) == old(Now(log)) && calls == old(calls) + 1
      ensures View() == ExecAll(k, Entered(k, old(View()), c), env(old(calls)))
      ensures log == old(log) + [Ran(c)] + EventsAll(k, Entered(k, old(View()), c), env(old(calls)))
      ensures Due(Armed(log), sweep.value) <= old(Due(Armed(log + [Ran(c)]), sweep.value))
    {
      hide Inv, TraceOk, Armed, Now, Handled, Due, ExecAll, EventsAll;
      mem := mem[c := mem[c].(pending := false, direct := c >= k.local && mem[c].direct)];
      curr := Some(c);
      Snoc(log, Ran(c));
      log := log + [Ran(c)];
      var ops := env(calls);
      calls := calls + 1;
      RunHandler(ops);
    }

    /** softclock_call_cc, for the due callout c that softclock has just unlinked. */
    method SoftclockCallCc(c: Id)
      requires c in mem && c in k.ids && sweep == Some(Now(log) - 1)
      requires Inv(k, Entered(k, View(), c), Armed(log + [Ran(c)]), Now(log), Some(Now(log) - 1), None)
      requires calls == Handled(log) && TraceOk(log + [Ran(c)]) && forall n, op :: op in env(n) ==> Allowed(k, op)
      requires Told() && mem[c].pending
      modifies this`next, this`wheel, this`mem, this`free, this`log, this`calls, this`curr, this`deeds
      ensures Valid() && curr.None? && Now(log) == old(Now(log)) && calls == old(calls) + 1
      ensures log == old(log) + [Ran(c)] + EventsAll(k, Entered(k, old(View()), c), env(old(calls)))
      ensures Due(Armed(log), sweep.value) <= old(Due(Armed(log + [Ran(c)]), sweep.value))
      ensures Told() && deeds == old(deeds) + [Served(c, old(View()), env(old(calls)))] && StepsOf(deeds) == old(StepsOf(deeds))
    {
      hide Inv, TraceOk, Armed, Now, Handled, Due, ExecAll, EventsAll, Accounts, StepsOf, Entered;
      ghost var s, n, before := View(), calls, log;
      CallHandler(c);
      InvOps(k, View(), Armed(log), Now(log), sweep);
      RunEnds(k, View(), Armed(log), Now(log), c);
      ArmedPending(k, View(), Armed(log), Now(log), sweep, c);
      AccountsRun(k, env, deeds, before, n, s, c);
      deeds := deeds + [Served(c, s, env(n))];
      curr := None;
      CalloutCcDel(c);
    }

    /** One turn of the inner loop of softclock, for a callout that is due. */
    method RunDue(c: Id, b: nat) returns (c': Option<Id>)
      requires Sweeping(Some(c)) && sweep == Some(Now(log) - 1)
      requires b == Bucket(Now(log) - 1, k.size)
      requires c in Armed(log) && Armed(log)[c] == Now(log) - 1
      requires Told()
      modifies this`next, this`wheel, this`mem, this`free, this`log, this`calls, this`curr, this`bucket, this`deeds
      ensures Told() && StepsOf(deeds) == old(StepsOf(deeds))
      ensures Sweeping(c') && old(log) <= log && Now(log) == old(Now(log))
      ensures Due(Armed(log), Now(log) - 1) < old(Due(Armed(log), Now(log) - 1))
    {
      hide Inv, TraceOk, Armed, Now, Handled, Due, Bucket, Next, Without, Entered, ExecAll, EventsAll, Accounts, StepsOf;
      ghost var s, now := View().(next := Some(c), bucket := b), Now(log);
      InvOps(k, s, Armed(log), now, sweep);
      RunStarts(k, s, Armed(log), now);
      ArmedPending(k, s, Armed(log), now, sweep, c);
      next := Next(wheel[b], c);
      bucket := b;
      wheel := wheel[b := Without(wheel[b], c)];
      Snoc(log, Ran(c));
      ghost var before := log;
      SoftclockCallCc(c);
      assert before <= log;
      InvOps(k, View(), Armed(log), now, sweep);
      c' := next;
      next := None;
    }

    /** The inner loop of softclock, over one bucket. */
    method SweepBucket(curticks: int)
      requires curticks == Wrap(Now(log) - 1) && sweep == Some(Now(log) - 1)
      requires k.size > 0 && |wheel| == k.size && Sweeping(First(wheel[Bucket(Now(log) - 1, k.size)]))
      requires Told()
      modifies this`next, this`wheel, this`mem, this`free, this`log, this`calls, this`curr, this`bucket, this`deeds
      ensures Told() && StepsOf(deeds) == old(StepsOf(deeds))
      ensures Sweeping(None) && old(log) <= log && Now(log) == old(Now(log))
    {
      hide Inv, TraceOk, Armed, Now, Handled, Due, Bucket, Wrap, Next, Rank, Accounts, StepsOf;
      ghost var now: int := Now(log);
      var b := Bucket(curticks, k.size);
      var c := First(wheel[Bucket(curticks, k.size)]);
      ghost var s := View().(next := First(wheel[Bucket(now - 1, k.size)]), bucket := Bucket(now - 1, k.size));
      InvOps(k, s, Armed(log), now, sweep);
      BucketWrap(now - 1, k.size);
      while c.Some?
        invariant Sweeping(c) && old(log) <= log && Now(log) == now
        invariant Told() && StepsOf(deeds) == old(StepsOf(deeds))
        decreases Due(Armed(log), now - 1), Rank(wheel[b], c)
      {
        SweepSkips(k, View().(next := c, bucket := b), Armed(log), now);
        if mem[c.value].time != curticks {
          c := Next(wheel[b], c.value);
        } else {
          c := RunDue(c.value, b);
        }
      }
    }

    /** One tick is unprocessed, and the sweep of its bucket is about to start. */
    ghost predicate Opened()
      reads this
    {
      && softticks == Wrap(Now(log) - 1) && sweep == Some(Now(log) - 1)
      && k.size > 0 && |wheel| == k.size && Sweeping(First(wheel[Bucket(Now(log) - 1, k.size)]))
    }

    /** softclock, entered when one tick is unprocessed. */
    method Softclock()
      requires Opened() && Told()
      modifies this`next, this`wheel, this`mem, this`free, this`log, this`calls, this`curr, this`bucket, this`softticks, this`sweep, this`deeds
      ensures Told() && StepsOf(deeds) == old(StepsOf(deeds))
      ensures Idle() && old(log) <= log && Now(log) == old(Now(log))
    {
      hide Inv, TraceOk, Armed, Now, Handled, Due, Bucket, Wrap, Accounts, StepsOf;
      ghost var now: int := Now(log);
      InvOps(k, View().(next := First(wheel[Bucket(now - 1, k.size)]), bucket := Bucket(now - 1, k.size)), Armed(log), now, sweep);
      WrapInjective(now, now - 1);
      WrapShift(now - 1, 1);
      while softticks != ticks
        invariant old(log) <= log && Now(log) == now && ticks == Wrap(now)
        invariant Told() && StepsOf(deeds) == old(StepsOf(deeds))
        invariant softticks != ticks ==> Opened()
        invariant softticks == ticks ==> Idle()
        decreases softticks != ticks
      {
        var curticks := softticks;
        softticks := Wrap(softticks + 1);
        SweepBucket(curticks);
        SweepEnds(k, View().(next := None, bucket := Bucket(now - 1, k.size)), Armed(log), now, next, bucket);
        sweep := None;
      }
    }

    /** callout_tick: skip empty buckets, and sweep from the first one that is not empty. */
    method CalloutTick()
      requires Opened() && Told()
      modifies this`next, this`wheel, this`mem, this`free, this`log, this`calls, this`curr, this`bucket, this`softticks, this`sweep, this`deeds
      ensures Told() && StepsOf(deeds) == old(StepsOf(deeds))
      ensures Idle() && old(log) <= log && Now(log) == old(Now(log))
    {
      hide Inv, TraceOk, Armed, Now, Handled, Due, Bucket, Wrap, Accounts, StepsOf;
      ghost var now: int := Now(log);
      InvOps(k, View().(next := First(wheel[Bucket(now - 1, k.size)]), bucket := Bucket(now - 1, k.size)), Armed(log), now, sweep);
      Behind(now);
      BucketWrap(now - 1, k.size);
      var needSoftclock := false;
      while Wrap(softticks - ticks) < 0
        invariant old(log) <= log && Now(log) == now && ticks == Wrap(now)
        invariant Told() && StepsOf(deeds) == old(StepsOf(deeds))
        invariant softticks != ticks ==> Opened()
        invariant softticks == ticks ==> Idle()
        invariant !needSoftclock
        decreases softticks != ticks
      {
        var b := Bucket(softticks, k.size);
        if wheel[b] != [] {
          needSoftclock := true;
          break;
        }
        SweepEnds(k, View().(next := None, bucket := b), Armed(log), now, next, bucket);
        softticks := Wrap(softticks + 1);
        sweep := None;
      }
      if needSoftclock {
        Softclock();
      }
    }

    /** ff_hardclock. */
    method Hardclock()
      requires Idle() && Told()
      modifies this
      ensures Told() && StepsOf(deeds) == old(StepsOf(deeds)) + [Clock]
      ensures Idle() && old(log) + [Tick] <= log && Now(log) == old(Now(log)) + 1
    {
      hide Inv, TraceOk, Armed, Now, Handled, Due, Bucket, Wrap, Accounts, StepsOf;
      ghost var now: int := Now(log);
      InvOps(k, View(), Armed(log), now, None);
      NothingOverdue(k, View(), Armed(log), now);
      SweepStarts(k, View(), Armed(log), now);
      WrapShift(now, 1);
      ticks := Wrap(ticks + 1);
      Snoc(log, Tick);
      AccountsTick(k, env, deeds, log, calls, Store(mem, free));
      log, deeds := log + [Tick], deeds + [Passed];
      sweep := Some(now);
      CalloutTick();
    }
  }

  /** In every state that a sequence of hardclocks and client calls can reach, a callout that was
      armed at event i and then left alone has run exactly once if the tick after its deadline has
      come, in that tick, and is still armed with its deadline otherwise. */
  lemma RunsOnTime(w: Wheel, c: Id, i: nat, to: int)
    requires w.Idle() && i < |w.log| && w.log[i] == Arm(c, to)
    requires forall j :: i < j < |w.log| ==> !Touches(w.log[j], c)
    ensures to >= 1 ==> OnTime(w.log, c, i, Now(w.log[..i]) + to)
    ensures to <= 0 ==> OnTime(w.log, c, i, Now(w.log[..i]) + 1)
  {
    hide Inv, TraceOk, Armed, Now, Handled, OnTime;
    NothingOverdue(w.k, w.View(), Armed(w.log), Now(w.log));
    RanOrArmed(w.log, c, i, to);
  }

  /** The same for a callout that a handler armed: it runs exactly once, as many ticks after that handler as the
      handler asked for, and one. */
  lemma HandlerOnTime(w: Wheel, i: nat, j: nat)
    requires w.Idle() && w.Told() && i < |w.deeds| && w.deeds[i].Served?
    requires j < |w.deeds[i].ops| && w.deeds[i].ops[j].Reset?
    requires forall m :: Place(w.k, w.deeds, i, j) < m < |w.log| ==> !Touches(w.log[m], w.deeds[i].ops[j].c)
    ensures w.deeds[i].ops == w.env(Calls(w.deeds[..i])) && |LogOf(w.k, w.deeds[..i])| < |w.log|
    ensures var op, ran := w.deeds[i].ops[j], |LogOf(w.k, w.deeds[..i])|;
            && w.log[ran] == Ran(w.deeds[i].c)
            && Place(w.k, w.deeds, i, j) < |w.log|
            && (op.to >= 1 ==> OnTime(w.log, op.c, Place(w.k, w.deeds, i, j), Now(w.log[..ran]) + op.to))
            && (op.to <= 0 ==> OnTime(w.log, op.c, Place(w.k, w.deeds, i, j), Now(w.log[..ran]) + 1))
  {
    hide Chained, LogOf, Place, Inv, TraceOk, Armed, Now, Handled, OnTime, StoreOf, Allowed;
    HandlerArms(w.k, w.env, w.deeds, i, j);
    RunsOnTime(w, w.deeds[i].ops[j].c, Place(w.k, w.deeds, i, j), w.deeds[i].ops[j].to);
  }

  function Clocks(steps: seq<Step>): nat {
    if steps == [] then 0 else Clocks(steps[..|steps|-1]) + (if steps[|steps|-1].Clock? then 1 else 0)
  }

  /** Any run: hardclocks and client calls in any order, and whatever the handlers do. The log consists of
      exactly these steps and of the handler calls in between, each with the events of what was done. */
  method AnyRun(k: Config, env: nat -> seq<Op>, steps: seq<Step>) returns (w: Wheel)
    requires k.size > 0 && TWO32 % k.size == 0 && forall c :: 0 <= c < k.local ==> c in k.ids
    requires forall n, op :: op in env(n) ==> Allowed(k, op)
    requires forall s :: s in steps && s.Client? ==> Allowed(k, s.op)
    ensures fresh(w) && w.Idle() && w.k == k && w.env == env && w.Told() && StepsOf(w.deeds) == steps
    ensures w.calls == Handled(w.log) && Now(w.log) == Clocks(steps)
  {
    hide Inv, TraceOk, Armed, Handled, Exec, Events, Ready, Accounts;
    w := new Wheel(k, env);
    assert steps[..0] == [];
    for i := 0 to |steps|
      invariant fresh(w) && w.Idle() && w.k == k && w.env == env && Now(w.log) == Clocks(steps[..i])
      invariant w.Told() && StepsOf(w.deeds) == steps[..i]
    {
      assert steps[..i+1][..i] == steps[..i];
      match steps[i] {
        case Clock => w.Hardclock();
        case Client(op) =>
          assert steps[i] in steps;
          w.ClientCall(op);
      }
    }
    assert steps[..|steps|] == steps;
  }
}
