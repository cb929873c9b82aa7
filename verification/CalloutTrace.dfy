/** What a client of the callout facility can observe: the sequence of ticks, arming calls,
    cancellations and handler runs, and what "each callout runs exactly once, on time" means
    for such a sequence. Ticks are counted here without wrap-around. */
module CalloutTrace {

  /** The address of a struct callout. */
  type Id = nat

  datatype Event =
    | Tick                          // ff_hardclock has advanced the clock
    | Arm(c: Id, delay: int)        // callout_reset or timeout, with the requested delay
    | Cancel(c: Id)                 // a stop that took the callout off the wheel
    | Ran(c: Id)                    // the handler was called

  /** A delay of zero or less is treated as one tick. */
  function Delay(to: int): (d: int)
    ensures d >= 1 && d >= to
  {
    if to <= 0 then 1 else to
  }

  /** The number of ticks so far. */
  function Now(log: seq<Event>): (n: nat) {
    if log == [] then 0
    else Now(log[..|log|-1]) + (if log[|log|-1].Tick? then 1 else 0)
  }

  /** The number of handler calls so far. */
  function Handled(log: seq<Event>): (n: nat) {
    if log == [] then 0
    else Handled(log[..|log|-1]) + (if log[|log|-1].Ran? then 1 else 0)
  }

  /** How one event at time now changes the armed callouts. */
  function After(armed: map<Id, int>, now: int, e: Event): map<Id, int> {
    if e.Tick? then armed
    else if e.Arm? then armed[e.c := now + Delay(e.delay)]
    else armed - {e.c}
  }

  /** The callouts that are armed after the events of log, each with its deadline. */
  function Armed(log: seq<Event>): map<Id, int> {
    if log == [] then map[]
    else After(Armed(log[..|log|-1]), Now(log[..|log|-1]), log[|log|-1])
  }

  /** An event is punctual if it is a run of an armed callout in the tick after its deadline,
      a tick that leaves nothing overdue behind, a cancellation of an armed callout, or an arming. */
  ghost predicate Punctual(before: seq<Event>, e: Event) {
    match e
    case Tick => forall c :: c in Armed(before) ==> Armed(before)[c] >= Now(before)
    case Arm(_, _) => true
    case Cancel(c) => c in Armed(before)
    case Ran(c) => c in Armed(before) && Armed(before)[c] + 1 == Now(before)
  }

  ghost predicate TraceOk(log: seq<Event>) {
    log == [] || (TraceOk(log[..|log|-1]) && Punctual(log[..|log|-1], log[|log|-1]))
  }

  lemma {:induction false} PunctualAt(log: seq<Event>, i: nat)
    requires TraceOk(log) && i < |log|
    ensures Punctual(log[..i], log[i])
  {
    var before := log[..|log|-1];
    if i < |before| {
      PunctualAt(before, i);
      assert before[..i] == log[..i];
    }
  }

  /** Whether e disarms or re-arms c without running it. */
  predicate Touches(e: Event, c: Id) {
    e == Cancel(c) || (e.Arm? && e.c == c)
  }

  lemma Snoc(log: seq<Event>, e: Event)
    ensures (log + [e])[..|log|] == log
    ensures TraceOk(log) && Punctual(log, e) ==> TraceOk(log + [e])
    ensures Now(log + [e]) == Now(log) + (if e.Tick? then 1 else 0)
    ensures Handled(log + [e]) == Handled(log) + (if e.Ran? then 1 else 0)
    ensures Armed(log + [e]) == After(Armed(log), Now(log), e)
  {
    var l := log + [e];
    assert l[..|log|] == log;
  }

  /** The indices at which c runs. */
  ghost function Runs(log: seq<Event>, c: Id, from: nat, to: nat): set<nat>
    requires from <= to <= |log|
  {
    set j | from <= j < to && log[j] == Ran(c)
  }

  lemma Step(log: seq<Event>, k: nat)
    requires k < |log|
    ensures log[..k+1] == log[..k] + [log[k]]
  {
  }

  /** While c is left alone it stays armed, with its deadline, until it runs; after that it is
      not armed. So it runs at most once, and not before its deadline has passed. The result is
      the index of the run, or i if there is none before k. */
  lemma {:induction false} LeftAlone(log: seq<Event>, c: Id, i: nat, to: int, k: nat) returns (j: nat)
    requires TraceOk(log)
    requires i < k <= |log| && log[i] == Arm(c, to)
    requires forall m :: i < m < k ==> !Touches(log[m], c)
    ensures i <= j < k
    ensures forall m :: i < m < k ==> (log[m] == Ran(c) <==> m == j)
    ensures j == i ==> c in Armed(log[..k]) && Armed(log[..k])[c] == Now(log[..i]) + (if to <= 0 then 1 else to)
    ensures j > i ==> c !in Armed(log[..k]) && Now(log[..j]) == Now(log[..i]) + (if to <= 0 then 1 else to) + 1
  {
    hide TraceOk, Now, Armed;
    var before, e := log[..k-1], log[k-1];
    PunctualAt(log, k - 1);
    Step(log, k - 1);
    Snoc(before, e);
    if k == i + 1 {
      j := i;
    } else {
      j := LeftAlone(log, c, i, to, k - 1);
      assert !Touches(e, c);
      if e == Ran(c) {
        j := k - 1;
      }
    }
  }

  /** After event i, c has run exactly once if the tick after the deadline has come, in that tick, and is still
      armed with that deadline otherwise. */
  ghost predicate OnTime(log: seq<Event>, c: Id, i: nat, deadline: int)
    requires i < |log|
  {
    var runs := Runs(log, c, i, |log|);
    if Now(log) > deadline
    then exists j :: i < j < |log| && runs == {j} && Now(log[..j]) == deadline + 1
    else runs == {} && c in Armed(log) && Armed(log)[c] == deadline
  }

  /** Exactly once: a callout armed at event i and left alone runs exactly once before the clock
      leaves the tick that follows its deadline, and it runs in that tick. */
  lemma ExactlyOnce(log: seq<Event>, c: Id, i: nat, to: int, k: nat)
    requires TraceOk(log)
    requires i < k < |log| && log[i] == Arm(c, to) && log[k] == Tick
    requires Now(log[..k]) > Now(log[..i]) + (if to <= 0 then 1 else to)
    requires forall j :: i < j < k ==> !Touches(log[j], c)
    ensures exists j :: i < j < k && Runs(log, c, i, k) == {j} && Now(log[..j]) == Now(log[..i]) + (if to <= 0 then 1 else to) + 1
  {
    var j := LeftAlone(log, c, i, to, k);
    PunctualAt(log, k);
    assert Runs(log, c, i, k) == {j};
  }

  lemma {:induction false} NowMonotone(log: seq<Event>, i: nat, j: nat)
    requires i <= j <= |log|
    ensures Now(log[..i]) <= Now(log[..j])
  {
    if i < j {
      NowMonotone(log, i, j - 1);
      Step(log, j - 1);
      Snoc(log[..j-1], log[j-1]);
    }
  }

  /** A callout left alone, in a trace that leaves nothing overdue. */
  lemma RanOrArmed(log: seq<Event>, c: Id, i: nat, to: int)
    requires TraceOk(log) && i < |log| && log[i] == Arm(c, to)
    requires forall j :: i < j < |log| ==> !Touches(log[j], c)
    requires forall c :: c in Armed(log) ==> Armed(log)[c] >= Now(log)
    ensures OnTime(log, c, i, Now(log[..i]) + (if to <= 0 then 1 else to))
  {
    hide TraceOk, Armed, Now;
    assert log[..|log|] == log;
    var j := LeftAlone(log, c, i, to, |log|);
    if j > i {
      assert Runs(log, c, i, |log|) == {j};
      NowMonotone(log, j, |log|);
    } else {
      assert Runs(log, c, i, |log|) == {};
    }
  }
}
