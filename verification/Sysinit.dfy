/** Start-up tasks in order of subsystem and order (lib/ff_init_main.c). A task is a number, the address
    of its struct sysinit; running one may register more. */
module Sysinit {

  const SI_SUB_DUMMY := 0
  const SI_SUB_DONE := 1

  /** What is known of a task before it is run. */
  datatype Task = Task(subsystem: nat, order: nat)

  // ----- what start-up promises, told from its events

  datatype Event = Registered(more: seq<nat>) | Ran(id: nat)

  function Known(log: seq<Event>): set<nat> {
    if log == [] then {} else
      Known(log[..|log|-1]) + match log[|log|-1] { case Registered(s) => (set x | x in s) case Ran(_) => {} }
  }

  function Done(log: seq<Event>): set<nat> {
    if log == [] then {} else
      Done(log[..|log|-1]) + match log[|log|-1] { case Registered(_) => {} case Ran(id) => {id} }
  }

  /** A task that is neither a dummy nor marked done from the start. */
  predicate Runnable(tasks: map<nat, Task>, id: nat) {
    id in tasks && tasks[id].subsystem != SI_SUB_DUMMY && tasks[id].subsystem != SI_SUB_DONE
  }

  predicate NotAfter(x: Task, y: Task) {
    x.subsystem < y.subsystem || (x.subsystem == y.subsystem && x.order <= y.order)
  }

  /** A task is the next one when none that is registered and has not run comes before it. */
  ghost predicate IsNext(tasks: map<nat, Task>, log: seq<Event>, id: nat) {
    && id in Known(log) && id !in Done(log) && Runnable(tasks, id)
    && forall j | j in Known(log) && j !in Done(log) && Runnable(tasks, j) :: NotAfter(tasks[id], tasks[j])
  }

  /** Every task was the next one when it ran; so none ran twice. */
  ghost predicate TraceOk(tasks: map<nat, Task>, log: seq<Event>) {
    log == [] ||
    (TraceOk(tasks, log[..|log|-1]) && (log[|log|-1].Ran? ==> IsNext(tasks, log[..|log|-1], log[|log|-1].id)))
  }

  ghost predicate AllDone(tasks: map<nat, Task>, log: seq<Event>) {
    forall id | id in Known(log) && Runnable(tasks, id) :: id in Done(log)
  }

  lemma LogGrows(tasks: map<nat, Task>, log: seq<Event>, e: Event)
    ensures (log + [e])[..|log|] == log
    ensures Known(log + [e]) == Known(log) + match e { case Registered(s) => (set x | x in s) case Ran(_) => {} }
    ensures Done(log + [e]) == Done(log) + match e { case Registered(_) => {} case Ran(id) => {id} }
    ensures TraceOk(tasks, log + [e]) <==> TraceOk(tasks, log) && (e.Ran? ==> IsNext(tasks, log, e.id))
  {
    assert (log + [e])[..|log|] == log;
  }

  function Count(log: seq<Event>, id: nat): nat {
    if log == [] then 0 else Count(log[..|log|-1], id) + (if log[|log|-1] == Ran(id) then 1 else 0)
  }

  /** A finished start-up ran every registered task that is not a dummy exactly once, and no other. */
  lemma {:induction false} ExactlyOnce(tasks: map<nat, Task>, log: seq<Event>, id: nat)
    requires TraceOk(tasks, log)
    ensures Count(log, id) == if id in Done(log) then 1 else 0
    ensures id in Done(log) ==> id in Known(log) && Runnable(tasks, id)
  {
    if log != [] {
      ExactlyOnce(tasks, log[..|log|-1], id);
    }
  }

  lemma {:induction false} KnownMeans(log: seq<Event>, id: nat)
    ensures id in Known(log) <==> exists i :: 0 <= i < |log| && log[i].Registered? && id in log[i].more
  {
    if log != [] {
      var front, e := log[..|log|-1], log[|log|-1];
      KnownMeans(front, id);
      if id in Known(front) {
        var i :| 0 <= i < |front| && front[i].Registered? && id in front[i].more;
        assert log[i] == front[i];
      } else if exists i :: 0 <= i < |log| && log[i].Registered? && id in log[i].more {
        var i :| 0 <= i < |log| && log[i].Registered? && id in log[i].more;
        assert i < |front| ==> front[i] == log[i];
      }
    }
  }

  lemma {:induction false} DoneMeans(log: seq<Event>, id: nat)
    ensures id in Done(log) <==> Ran(id) in log
  {
    if log != [] {
      DoneMeans(log[..|log|-1], id);
      assert log == log[..|log|-1] + [log[|log|-1]];
    }
  }

  lemma {:induction false} NextAt(tasks: map<nat, Task>, log: seq<Event>, k: nat)
    requires TraceOk(tasks, log) && k < |log| && log[k].Ran?
    ensures IsNext(tasks, log[..k], log[k].id)
  {
    hide IsNext;
    if k < |log| - 1 {
      NextAt(tasks, log[..|log|-1], k);
      assert log[..|log|-1][..k] == log[..k];
    }
  }

  /** In a good trace, a task that runs was registered before and has not run before, and no task that was registered
      and had not run then comes before it: its subsystem is lower, or the same with an order that is not higher.
      Dummies and tasks marked as done, with the subsystems 0 and 1, do not run and do not count. */
  lemma InOrder(tasks: map<nat, Task>, log: seq<Event>, k: nat, other: nat)
    requires TraceOk(tasks, log) && k < |log| && log[k].Ran?
    ensures var id := log[k].id;
      && id in tasks && tasks[id].subsystem > 1 && Ran(id) !in log[..k]
      && (exists i :: 0 <= i < k && log[i].Registered? && id in log[i].more)
    ensures var waits := other in tasks && tasks[other].subsystem > 1 && Ran(other) !in log[..k]
                         && exists i :: 0 <= i < k && log[i].Registered? && other in log[i].more;
      waits ==>
        || tasks[log[k].id].subsystem < tasks[other].subsystem
        || (tasks[log[k].id].subsystem == tasks[other].subsystem && tasks[log[k].id].order <= tasks[other].order)
  {
    hide TraceOk, Known, Done;
    var front, id := log[..k], log[k].id;
    NextAt(tasks, log, k);
    KnownMeans(front, id);
    DoneMeans(front, id);
    KnownMeans(front, other);
    DoneMeans(front, other);
    var i :| 0 <= i < |front| && front[i].Registered? && id in front[i].more;
    assert log[i] == front[i];
    if other in tasks && exists i :: 0 <= i < k && log[i].Registered? && other in log[i].more {
      var j :| 0 <= j < k && log[j].Registered? && other in log[j].more;
      assert front[j] == log[j];
    }
  }

  lemma AllRan(tasks: map<nat, Task>, log: seq<Event>)
    requires AllDone(tasks, log)
    ensures forall id, i | 0 <= i < |log| && log[i].Registered? && id in log[i].more && id in tasks && tasks[id].subsystem > 1 :: Ran(id) in log
  {
    hide Known, Done;
    forall id, i | 0 <= i < |log| && log[i].Registered? && id in log[i].more && id in tasks && tasks[id].subsystem > 1 ensures Ran(id) in log {
      KnownMeans(log, id);
      DoneMeans(log, id);
    }
  }

  // ----- the exchange sort

  /** The comparison, by what the subsystem fields say now. */
  predicate Before(now: map<nat, Task>, x: nat, y: nat) {
    x in now && y in now && NotAfter(now[x], now[y])
  }

  ghost predicate Front(now: map<nat, Task>, l: seq<nat>, s: nat) {
    forall i, j | 0 <= i < s && i < j < |l| :: Before(now, l[i], l[j])
  }

  /** The sort at the head of mi_startup. */
  method Sort(a: array<nat>, now: map<nat, Task>)
    requires forall x | x in a[..] :: x in now
    modifies a
    ensures multiset(a[..]) == multiset(old(a[..]))
    ensures Front(now, a[..], a.Length)
  {
    for s := 0 to a.Length
      invariant multiset(a[..]) == multiset(old(a[..])) && Front(now, a[..], s)
    {
      AllIn(old(a[..]), a[..], now);
      for x := s + 1 to a.Length
        invariant multiset(a[..]) == multiset(old(a[..])) && Front(now, a[..], s)
        invariant forall j | s < j < x :: Before(now, a[s], a[j])
        invariant forall k | 0 <= k < a.Length :: a[k] in now
      {
        if !NotAfter(now[a[s]], now[a[x]]) {
          Swap(a, s, x);
        }
      }
    }
  }

  lemma AllIn(before: seq<nat>, l: seq<nat>, now: map<nat, Task>)
    requires multiset(before) == multiset(l) && forall x | x in before :: x in now
    ensures forall k | 0 <= k < |l| :: l[k] in now
  {
    forall k | 0 <= k < |l| ensures l[k] in now {
      assert l[k] in multiset(l);
    }
  }

  method Swap(a: array<nat>, s: nat, x: nat)
    requires s < x < a.Length
    modifies a
    ensures multiset(a[..]) == multiset(old(a[..]))
    ensures a[s] == old(a[x]) && a[x] == old(a[s]) && forall k | 0 <= k < a.Length && k != s && k != x :: a[k] == old(a[k])
  {
    var save := a[s];
    a[s] := a[x];
    a[x] := save;
  }

  // ----- start-up

  function Elements(l: seq<nat>): set<nat> {
    set x | x in l
  }

  lemma SameElements(a: seq<nat>, b: seq<nat>)
    requires multiset(a) == multiset(b)
    ensures Elements(a) == Elements(b)
  {
    forall x ensures x in a <==> x in b {
      assert x in a <==> x in multiset(a);
      assert x in b <==> x in multiset(b);
    }
  }

  /** The subsystem fields: a task that has run is marked as done. */
  ghost predicate Fields(tasks: map<nat, Task>, now: map<nat, Task>, log: seq<Event>) {
    && now.Keys == tasks.Keys && Known(log) <= tasks.Keys
    && forall id | id in tasks :: now[id] == if id in Done(log) then Task(SI_SUB_DONE, tasks[id].order) else tasks[id]
  }

  /** The traversal at position i: everything before it is done or a dummy, and the rest is in order. */
  ghost predicate Traversed(tasks: map<nat, Task>, now: map<nat, Task>, log: seq<Event>, l: seq<nat>, i: nat) {
    && Elements(l) == Known(log)
    && (forall k | 0 <= k < i && k < |l| :: l[k] in now && (now[l[k]].subsystem == SI_SUB_DUMMY || now[l[k]].subsystem == SI_SUB_DONE))
    && (forall k, j | i <= k < j < |l| && l[k] !in Done(log) && l[j] !in Done(log) ::
          l[k] in tasks && l[j] in tasks && NotAfter(tasks[l[k]], tasks[l[j]]))
  }

  lemma TraversalStarts(tasks: map<nat, Task>, now: map<nat, Task>, log: seq<Event>, l: seq<nat>)
    requires Fields(tasks, now, log) && Elements(l) == Known(log) && Front(now, l, |l|)
    ensures Traversed(tasks, now, log, l, 0)
  {
    forall k, j | 0 <= k < j < |l| && l[k] !in Done(log) && l[j] !in Done(log)
      ensures l[k] in tasks && l[j] in tasks && NotAfter(tasks[l[k]], tasks[l[j]])
    {
      assert Before(now, l[k], l[j]);
    }
  }

  lemma TraversalSkips(tasks: map<nat, Task>, now: map<nat, Task>, log: seq<Event>, l: seq<nat>, i: nat)
    requires Traversed(tasks, now, log, l, i) && i < |l| && l[i] in now
    requires now[l[i]].subsystem == SI_SUB_DUMMY || now[l[i]].subsystem == SI_SUB_DONE
    ensures Traversed(tasks, now, log, l, i + 1)
  {
  }

  /** What the cursor finds, unless it is skipped, is the next one. */
  lemma TraversalFinds(tasks: map<nat, Task>, now: map<nat, Task>, log: seq<Event>, l: seq<nat>, i: nat)
    requires Fields(tasks, now, log) && Traversed(tasks, now, log, l, i) && i < |l| && l[i] in now
    requires now[l[i]].subsystem != SI_SUB_DUMMY && now[l[i]].subsystem != SI_SUB_DONE
    ensures IsNext(tasks, log, l[i])
  {
    var id := l[i];
    assert id in Elements(l);
    forall j | j in Known(log) && j !in Done(log) && Runnable(tasks, j) ensures NotAfter(tasks[id], tasks[j]) {
      assert j in Elements(l);
      var k :| 0 <= k < |l| && l[k] == j;
    }
  }

  lemma TraversalEnds(tasks: map<nat, Task>, now: map<nat, Task>, log: seq<Event>, l: seq<nat>)
    requires Fields(tasks, now, log) && Traversed(tasks, now, log, l, |l|)
    ensures AllDone(tasks, log)
  {
    forall id | id in Known(log) && Runnable(tasks, id) ensures id in Done(log) {
      assert id in Elements(l);
      var k :| 0 <= k < |l| && l[k] == id;
    }
  }

  /** Running it goes on with the traversal, if nothing was registered. */
  lemma TraversalRuns(tasks: map<nat, Task>, now: map<nat, Task>, log: seq<Event>, l: seq<nat>, i: nat)
    requires Fields(tasks, now, log) && Traversed(tasks, now, log, l, i) && i < |l| && l[i] in now && l[i] in tasks
    ensures var id := l[i];
      var now' := now[id := Task(SI_SUB_DONE, now[id].order)];
      Fields(tasks, now', log + [Ran(id)]) && Traversed(tasks, now', log + [Ran(id)], l, i + 1)
  {
    LogGrows(tasks, log, Ran(l[i]));
  }

  /** What a task registers are tasks. */
  predicate Given(tasks: map<nat, Task>, sets: seq<seq<nat>>) {
    forall i | 0 <= i < |sets| :: Elements(sets[i]) <= tasks.Keys
  }

  function Registrations(sets: seq<seq<nat>>): seq<Event> {
    seq(|sets|, i requires 0 <= i < |sets| => Registered(sets[i]))
  }

  /** The events of running tasks, of which the first is the n-th of all: each registers what env says. */
  function Runs(ids: seq<nat>, env: nat -> seq<seq<nat>>, n: nat): seq<Event> {
    if ids == [] then []
    else Runs(ids[..|ids|-1], env, n) + ([Ran(ids[|ids|-1])] + Registrations(env(n + |ids| - 1)))
  }

  lemma RunsNone(env: nat -> seq<seq<nat>>, n: nat)
    ensures Runs([], env, n) == []
  {
  }

  lemma RunsSnoc(log: seq<Event>, ids: seq<nat>, id: nat, env: nat -> seq<seq<nat>>, n: nat)
    ensures log + Runs(ids + [id], env, n) == log + Runs(ids, env, n) + [Ran(id)] + Registrations(env(n + |ids|))
  {
    assert (ids + [id])[..|ids|] == ids;
  }

  lemma {:induction false} RunsAppend(log: seq<Event>, a: seq<nat>, b: seq<nat>, env: nat -> seq<seq<nat>>, n: nat)
    ensures log + Runs(a + b, env, n) == log + Runs(a, env, n) + Runs(b, env, n + |a|)
  {
    hide Registrations, Runs;
    if b == [] {
      RunsNone(env, n + |a|);
      assert a + b == a;
    } else {
      var c, id := b[..|b|-1], b[|b|-1];
      RunsAppend(log, a, c, env, n);
      RunsSnoc(log, a + c, id, env, n);
      RunsSnoc(log + Runs(a, env, n), c, id, env, n + |a|);
      assert a + b == (a + c) + [id] && b == c + [id];
    }
  }

  lemma FieldsRun(tasks: map<nat, Task>, now: map<nat, Task>, log: seq<Event>, log': seq<Event>, id: nat)
    requires Fields(tasks, now, log) && id in tasks && Known(log') <= tasks.Keys && Done(log') == Done(log) + {id}
    ensures Fields(tasks, now[id := Task(SI_SUB_DONE, now[id].order)], log')
  {
  }

  class Startup {
    ghost const tasks: map<nat, Task>
    var now: map<nat, Task>
    var sysinit: array<nat>
    var newsysinit: array?<nat>
    var calls: nat                  // how many tasks have been called
    ghost var log: seq<Event>

    /** The registered tasks are those of the newest array. */
    ghost predicate Listed()
      reads this, sysinit, newsysinit
    {
      && sysinit != newsysinit
      && Known(log) == Elements(if newsysinit == null then sysinit[..] else newsysinit[..])
    }

    /** The tasks that are there from the start. */
    constructor (tasks: map<nat, Task>, first: array<nat>)
      requires forall x | x in first[..] :: x in tasks
      ensures Listed() && Fields(tasks, now, log) && TraceOk(tasks, log) && newsysinit == null
      ensures this.tasks == tasks && sysinit == first && log == [Registered(first[..])]
    {
      this.tasks := tasks;
      now, sysinit, newsysinit, calls, log := tasks, first, null, 0, [Registered(first[..])];
      new;
      LogGrows(tasks, [], Registered(first[..]));
      assert [] + [Registered(first[..])] == [Registered(first[..])];
    }

    /** sysinit_add. */
    method SysinitAdd(more: seq<nat>)
      requires Listed()
      modifies this`newsysinit, this`log
      ensures Listed() && fresh(newsysinit) && newsysinit != null && log == old(log) + [Registered(more)]
    {
      hide Known, Done, TraceOk;
      var base := if newsysinit == null then sysinit[..] else newsysinit[..];
      var newset := Merge(base, more);
      LogGrows(tasks, log, Registered(more));
      newsysinit := newset;
      log := log + [Registered(more)];
    }

    /** A task is called, may register others, and is marked as done. */
    method Call(id: nat, sets: seq<seq<nat>>)
      requires Listed() && newsysinit == null && Fields(tasks, now, log) && TraceOk(tasks, log) && IsNext(tasks, log, id)
      requires Given(tasks, sets)
      modifies this`now, this`newsysinit, this`log
      ensures Listed() && Fields(tasks, now, log) && TraceOk(tasks, log) && Done(log) == Done(old(log)) + {id}
      ensures now == old(now)[id := Task(SI_SUB_DONE, old(now)[id].order)]
      ensures log == old(log) + [Ran(id)] + Registrations(sets)
      ensures newsysinit == null <==> sets == []
      ensures newsysinit != null ==> fresh(newsysinit)
    {
      hide Known, Done, TraceOk, IsNext;
      ghost var log0 := log;
      LogGrows(tasks, log, Ran(id));
      NextFacts(tasks, log, id);
      log := log + [Ran(id)];
      for i := 0 to |sets|
        invariant Listed() && TraceOk(tasks, log) && Known(log) <= tasks.Keys && Done(log) == Done(old(log)) + {id} && now == old(now)
        invariant log == old(log) + [Ran(id)] + Registrations(sets[..i])
        invariant i == 0 ==> newsysinit == null
        invariant i > 0 ==> newsysinit != null && fresh(newsysinit)
      {
        LogGrows(tasks, log, Registered(sets[i]));
        assert Elements(sets[i]) <= tasks.Keys;
        SysinitAdd(sets[i]);
        assert Registrations(sets[..i+1]) == Registrations(sets[..i]) + [Registered(sets[i])];
      }
      assert sets[..|sets|] == sets;
      FieldsRun(tasks, now, log0, log, id);
      now := now[id := Task(SI_SUB_DONE, now[id].order)];
    }

    /** mi_startup. The tasks register what env says. */
    method MiStartup(env: nat -> seq<seq<nat>>) returns (ghost ids: seq<nat>)
      requires Listed() && newsysinit == null && Fields(tasks, now, log) && TraceOk(tasks, log)
      requires forall n :: Given(tasks, env(n))
      modifies this, sysinit
      ensures TraceOk(tasks, log) && AllDone(tasks, log)
      ensures forall id, i | 0 <= i < |log| && log[i].Registered? && id in log[i].more && id in tasks && tasks[id].subsystem > 1 :: Ran(id) in log
      ensures log == old(log) + Runs(ids, env, old(calls)) && calls == old(calls) + |ids|
    {
      hide Known, Done, TraceOk, IsNext, Fields, AllDone, Elements, Runs;
      var restart := true;
      ids := [];
      RunsNone(env, calls);
      while restart
        invariant Listed() && newsysinit == null && Fields(tasks, now, log) && TraceOk(tasks, log)
        invariant log == old(log) + Runs(ids, env, old(calls)) && calls == old(calls) + |ids|
        invariant sysinit == old(sysinit) || fresh(sysinit)
        invariant !restart ==> AllDone(tasks, log)
        decreases if restart then tasks.Keys - Done(log) else {}, restart
      {
        ghost var more;
        restart, more := Traverse(env);
        RunsAppend(old(log), ids, more, env, old(calls));
        ids := ids + more;
      }
      AllRan(tasks, log);
    }

    /** The newest array becomes the current one. */
    method Adopt()
      requires Listed() && newsysinit != null
      modifies this`sysinit, this`newsysinit
      ensures Listed() && newsysinit == null && sysinit == old(newsysinit)
    {
      hide Known, Elements;
      sysinit := newsysinit;
      newsysinit := null;
    }

    /** The traversal comes to a task that is to be run. */
    method RunOne(i: nat, env: nat -> seq<seq<nat>>) returns (restart: bool)
      requires Listed() && newsysinit == null && Fields(tasks, now, log) && TraceOk(tasks, log)
      requires i < sysinit.Length && Traversed(tasks, now, log, sysinit[..], i) && sysinit[i] in now
      requires now[sysinit[i]].subsystem != SI_SUB_DUMMY && now[sysinit[i]].subsystem != SI_SUB_DONE
      requires forall n :: Given(tasks, env(n))
      modifies this
      ensures Listed() && newsysinit == null && Fields(tasks, now, log) && TraceOk(tasks, log)
      ensures log == old(log) + [Ran(old(sysinit[i]))] + Registrations(env(old(calls))) && calls == old(calls) + 1
      ensures restart <==> env(old(calls)) != []
      ensures tasks.Keys - Done(log) < old(tasks.Keys - Done(log))
      ensures if restart then fresh(sysinit)
              else sysinit == old(sysinit) && sysinit[..] == old(sysinit[..]) && Traversed(tasks, now, log, sysinit[..], i + 1)
    {
      hide Known, Done, TraceOk, IsNext, Fields, AllDone, Elements, Traversed, Given;
      var id := sysinit[i];
      FieldsIn(tasks, now, log, sysinit[..]);
      TraversalFinds(tasks, now, log, sysinit[..], i);
      TraversalRuns(tasks, now, log, sysinit[..], i);
      NextFacts(tasks, log, id);
      Call(id, env(calls));
      calls := calls + 1;
      assert id in old(tasks.Keys - Done(log)) && id !in tasks.Keys - Done(log);
      restart := newsysinit != null;
      if restart {
        Adopt();
      } else {
        assert log == old(log) + [Ran(id)];
      }
    }

    /** One traversal, up to a task that registers others. */
    method Traverse(env: nat -> seq<seq<nat>>) returns (restart: bool, ghost ids: seq<nat>)
      requires Listed() && newsysinit == null && Fields(tasks, now, log) && TraceOk(tasks, log)
      requires forall n :: Given(tasks, env(n))
      modifies this, sysinit
      ensures Listed() && newsysinit == null && Fields(tasks, now, log) && TraceOk(tasks, log)
      ensures log == old(log) + Runs(ids, env, old(calls)) && calls == old(calls) + |ids|
      ensures sysinit == old(sysinit) || fresh(sysinit)
      ensures if restart then tasks.Keys - Done(log) < old(tasks.Keys - Done(log)) else AllDone(tasks, log)
    {
      hide Known, Done, TraceOk, IsNext, Fields, AllDone, Elements, Traversed, Front, Given, Runs, Registrations;
      ghost var before := sysinit[..];
      ids := [];
      RunsNone(env, calls);
      FieldsIn(tasks, now, log, before);
      Sort(sysinit, now);
      SameElements(before, sysinit[..]);
      TraversalStarts(tasks, now, log, sysinit[..]);
      var i := 0;
      while i < sysinit.Length
        invariant 0 <= i <= sysinit.Length && sysinit == old(sysinit) && Listed() && newsysinit == null
        invariant Fields(tasks, now, log) && TraceOk(tasks, log)
        invariant log == old(log) + Runs(ids, env, old(calls)) && calls == old(calls) + |ids|
        invariant tasks.Keys - Done(log) <= old(tasks.Keys - Done(log))
        invariant Traversed(tasks, now, log, sysinit[..], i)
        decreases sysinit.Length - i
      {
        var id := sysinit[i];
        FieldsIn(tasks, now, log, sysinit[..]);
        if now[id].subsystem == SI_SUB_DUMMY || now[id].subsystem == SI_SUB_DONE {
          TraversalSkips(tasks, now, log, sysinit[..], i);
        } else {
          RunsSnoc(old(log), ids, id, env, old(calls));
          restart := RunOne(i, env);
          ids := ids + [id];
          if restart {
            return;
          }
        }
        i := i + 1;
      }
      TraversalEnds(tasks, now, log, sysinit[..]);
      return false, ids;
    }
  }

  /** The copying of sysinit_add. */
  method Merge(base: seq<nat>, more: seq<nat>) returns (newset: array<nat>)
    ensures fresh(newset) && newset[..] == base + more
  {
    newset := new nat[|base| + |more|];
    for i := 0 to |base|
      invariant newset[..i] == base[..i]
    {
      newset[i] := base[i];
    }
    assert newset[..|base|] == base;
    for i := 0 to |more|
      invariant newset[..|base|] == base && newset[|base|..|base| + i] == more[..i]
    {
      newset[|base| + i] := more[i];
      assert more[..i+1] == more[..i] + [more[i]];
      assert newset[|base|..|base| + i + 1] == newset[|base|..|base| + i] + [newset[|base| + i]];
    }
    assert newset[..] == newset[..|base|] + newset[|base|..|base| + |more|];
  }

  lemma FieldsIn(tasks: map<nat, Task>, now: map<nat, Task>, log: seq<Event>, l: seq<nat>)
    requires Fields(tasks, now, log) && Elements(l) == Known(log)
    ensures forall x | x in l :: x in now && x in tasks
  {
    forall x | x in l ensures x in now && x in tasks {
      assert x in Elements(l);
    }
  }

  lemma NextFacts(tasks: map<nat, Task>, log: seq<Event>, id: nat)
    requires IsNext(tasks, log, id)
    ensures id in tasks && id in Known(log) && id !in Done(log)
  {
  }
}
