/** What one activation of ng_snd_item or ngthread does while no other takes a step (lib/ff_ng_base.c): it is let
    in whenever the gate allows it. */
module NetgraphAlone {
  import opened Options
  import Lists
  import opened NetgraphGate

  /** n steps of activation t, with nothing left to decide. */
  function Alone(s: State, t: Tid, n: nat): State
    requires t in s.pc
    ensures t in Alone(s, t, n).pc
    decreases n
  {
    if n == 0 then s else Alone(Next(s, t, Stay), t, n - 1)
  }

  /** The state with activation t at p. */
  function At(s: State, t: Tid, p: Pc): (r: State)
    ensures t in r.pc
  {
    s.(pc := s.pc[t := p])
  }

  lemma Goes(s: State, t: Tid, n: nat, q: Pc, p: Pc, e: Effect)
    requires n > 0 && Act(s, q, Stay) == (p, e)
    ensures Alone(At(s, t, q), t, n) == Alone(At(Do(s, t, e), t, p), t, n - 1)
  {
    hide Act;
    OthersIgnored(s, s.pc[t := q], q);
    assert s.pc[t := q][t := p] == s.pc[t := p];
  }

  /** A step does not depend on where the others are. */
  lemma OthersIgnored(s: State, m: map<Tid, Pc>, q: Pc)
    ensures Act(s.(pc := m), q, Stay) == Act(s, q, Stay)
  {
    assert s.queue != [] ==> CanProceed(s.(pc := m)) == CanProceed(s);
  }

  /** There is room in the count for a reader that is still outside. */
  lemma FewReaders(s: State, t: Tid)
    requires Counted(s) && t in s.pc && !s.pc[t].Holds()
    ensures s.word.readers + 1 < READER_LIMIT
  {
    var inside := HoldingReaders(s.pc);
    assert t !in inside && inside + {t} <= s.pc.Keys;
    Lists.SubsetSize(inside + {t}, s.pc.Keys);
  }

  // ----- ng_snd_item

  lemma Starts(s: State, t: Tid, p: Pc)
    requires t in s.pc && s.pc[t] == p
    ensures At(s, t, p) == s
  {
    assert s.pc[t := p] == s.pc;
  }

  lemma Ends(s: State, t: Tid)
    requires t in s.pc
    ensures Alone(s, t, 0) == s
  {
  }

  /** A reader is let in beside other readers, exactly if there is no writer and nothing waits; otherwise it goes to
      the queue. */
  lemma ReaderSent(s: State, t: Tid, i: Item)
    requires Counted(s) && t in s.pc && s.pc[t].Idle? && !i.writer
    ensures var free, s1 := !s.word.writer && !s.word.pending, Next(s, t, Send(i));
      && (free ==> Alone(s1, t, 2) == At(s.(word := s.word.(readers := s.word.readers + 1)), t, Hold(Apply, i, false)))
      && (!free ==> Alone(s1, t, 1) == At(s, t, Que(QueueLock, i)))
  {
    assert Next(s, t, Send(i)) == At(s, t, Acq(ReadLoad, i));
    hide Counted, Alone, At, Next;
    if s.word.writer || s.word.pending {
      Goes(s, t, 1, Acq(ReadLoad, i), Que(QueueLock, i), Nothing);
      Ends(At(s, t, Que(QueueLock, i)), t);
    } else {
      Goes(s, t, 2, Acq(ReadLoad, i), Acq(ReadCas(s.word), i), Nothing);
      Goes(s, t, 1, Acq(ReadCas(s.word), i), Hold(Apply, i, false), EnterReader);
      FewReaders(s, t);
      Ends(At(s.(word := s.word.(readers := s.word.readers + 1)), t, Hold(Apply, i, false)), t);
    }
  }

  /** A writer is let in exactly if nobody is inside and nothing waits; otherwise it goes to the queue. */
  lemma WriterSent(s: State, t: Tid, i: Item)
    requires t in s.pc && s.pc[t].Idle? && i.writer
    ensures var free, s1 := !s.word.writer && !s.word.pending && s.word.readers == 0, Next(s, t, Send(i));
      && (free ==> Alone(s1, t, 1) == At(s.(word := s.word.(writer := true)), t, Hold(Apply, i, false)))
      && (!free ==> Alone(s1, t, 1) == At(s, t, Que(QueueLock, i)))
  {
    assert Next(s, t, Send(i)) == At(s, t, Acq(WriteCas, i));
    hide Alone, At, Next;
    if s.word == IDLE {
      Goes(s, t, 1, Acq(WriteCas, i), Hold(Apply, i, false), EnterWriter);
      Ends(At(s.(word := s.word.(writer := true)), t, Hold(Apply, i, false)), t);
    } else {
      Goes(s, t, 1, Acq(WriteCas, i), Que(QueueLock, i), Nothing);
      Ends(At(s, t, Que(QueueLock, i)), t);
    }
  }

  /** An item that is to be queued is queued, even if the gate is free. */
  lemma QueuedSent(s: State, t: Tid, i: Item)
    requires t in s.pc && s.pc[t].Idle? && s.mtx.None?
    ensures Alone(Next(s, t, SendQueued(i)), t, 3) ==
            At(s.(mtx := Some(t), word := s.word.(pending := true), queue := s.queue + [i], arrived := s.arrived + [i]), t, Que(QueueTest, i))
  {
    assert Next(s, t, SendQueued(i)) == At(s, t, Que(QueueLock, i));
    hide Alone, At, Next;
    Goes(s, t, 3, Que(QueueLock, i), Que(QueueSet, i), LockMtx);
    var s2 := s.(mtx := Some(t));
    Goes(s2, t, 2, Que(QueueSet, i), Que(QueueInsert, i), RaisePending);
    var s3 := s2.(word := s.word.(pending := true));
    Goes(s3, t, 1, Que(QueueInsert, i), Que(QueueTest, i), Insert(i));
    Ends(At(s3.(queue := s.queue + [i], arrived := s.arrived + [i]), t, Que(QueueTest, i)), t);
  }

  // ----- ngthread

  /** The item at the head of the queue may be applied: a reader beside other readers, a writer alone. */
  predicate MayEnter(s: State)
    requires s.queue != []
  {
    !s.word.writer && (s.queue[0].writer ==> s.word.readers == 0)
  }

  /** What an ngthread does with the item at the head of the queue. */
  function Trying(i: Item): Pc { Wrk(if i.writer then DequeueWrite else DequeueLoad) }

  lemma Looks(s: State, t: Tid, n: nat)
    requires t in s.pc && s.pc[t] == Wrk(WorkLock) && s.mtx.None? && s.queue != [] && s.word.pending && n >= 2
    ensures Alone(s, t, n) == Alone(At(s.(mtx := Some(t)), t, Trying(s.queue[0])), t, n - 2)
  {
    hide Alone, At;
    Starts(s, t, Wrk(WorkLock));
    Goes(s, t, n, Wrk(WorkLock), Wrk(DequeueActive), LockMtx);
    Goes(s.(mtx := Some(t)), t, n - 1, Wrk(DequeueActive), Trying(s.queue[0]), Nothing);
  }

  /** The steps from the compare-and-set to the release of the mutex. */
  lemma Takes(s: State, t: Tid, writer: bool)
    requires s.queue != []
    ensures Alone(At(s, t, Wrk(DequeuePop(writer))), t, 3) ==
            At(s.(mtx := None, queue := s.queue[1..], left := s.left + [s.queue[0]],
                  word := if |s.queue| == 1 then s.word.(pending := false) else s.word), t, Hold(Apply, s.queue[0], true))
  {
    hide Alone, At;
    var i := s.queue[0];
    var s1 := s.(queue := s.queue[1..], left := s.left + [i]);
    Goes(s, t, 3, Wrk(DequeuePop(writer)), Wrk(DequeueClear(i)), Remove);
    var s2 := s1.(word := if |s.queue| == 1 then s.word.(pending := false) else s.word);
    Goes(s1, t, 2, Wrk(DequeueClear(i)), Wrk(DequeueUnlock(i)), if s1.queue == [] then LowerPending else Nothing);
    Goes(s2, t, 1, Wrk(DequeueUnlock(i)), Hold(Apply, i, true), UnlockMtx);
    Ends(At(s2.(mtx := None), t, Hold(Apply, i, true)), t);
  }

  lemma WriterTakes(s: State, t: Tid)
    requires s.word == ONLY_PENDING && s.queue != [] && s.queue[0].writer
    ensures Alone(At(s, t, Wrk(DequeueWrite)), t, 4) ==
            At(s.(mtx := None, queue := s.queue[1..], left := s.left + [s.queue[0]], word := Word(0, |s.queue| > 1, true)),
               t, Hold(Apply, s.queue[0], true))
  {
    hide Alone, At;
    Goes(s, t, 4, Wrk(DequeueWrite), Wrk(DequeuePop(true)), EnterWriter);
    Takes(s.(word := Word(0, true, true)), t, true);
  }

  lemma ReaderTakes(s: State, t: Tid)
    requires !s.word.writer && s.word.pending && s.word.readers + 1 < READER_LIMIT && s.queue != [] && !s.queue[0].writer
    ensures Alone(At(s, t, Wrk(DequeueLoad)), t, 5) ==
            At(s.(mtx := None, queue := s.queue[1..], left := s.left + [s.queue[0]],
                  word := Word(s.word.readers + 1, |s.queue| > 1, false)), t, Hold(Apply, s.queue[0], true))
  {
    hide Alone, At;
    Goes(s, t, 5, Wrk(DequeueLoad), Wrk(DequeueCas(s.word)), Nothing);
    Goes(s, t, 4, Wrk(DequeueCas(s.word)), Wrk(DequeuePop(false)), EnterReader);
    Takes(s.(word := Word(s.word.readers + 1, true, false)), t, false);
  }

  /** An ngthread applies the item at the head of the queue if the gate lets that item in. */
  lemma HeadServed(s: State, t: Tid)
    requires Counted(s) && Flagged(s) && t in s.pc && s.pc[t] == Wrk(WorkLock) && s.mtx.None? && s.queue != [] && MayEnter(s)
    ensures var i := s.queue[0];
      var w := if i.writer then Word(0, |s.queue| > 1, true) else Word(s.word.readers + 1, |s.queue| > 1, false);
      Alone(s, t, if i.writer then 6 else 7) ==
      At(s.(queue := s.queue[1..], left := s.left + [i], word := w), t, Hold(Apply, i, true))
  {
    assert s.word.pending;
    hide Alone, Counted, At, Flagged, Act, Do;
    FewReaders(s, t);
    Looks(s, t, if s.queue[0].writer then 6 else 7);
    if s.queue[0].writer {
      WriterTakes(s.(mtx := Some(t)), t);
    } else {
      ReaderTakes(s.(mtx := Some(t)), t);
    }
  }

  lemma GivesUp(s: State, t: Tid)
    requires s.mtx == Some(t)
    ensures Alone(At(s, t, Wrk(WorkGiveUp)), t, 2) == At(s.(workq := false, mtx := None), t, Idle)
  {
    hide Alone, At;
    Goes(s, t, 2, Wrk(WorkGiveUp), Wrk(WorkUnlock), DropWork);
    Goes(s.(workq := false), t, 1, Wrk(WorkUnlock), Idle, UnlockMtx);
    Ends(At(s.(workq := false, mtx := None), t, Idle), t);
  }

  lemma TriesInVain(s: State, t: Tid)
    requires s.queue != [] && !MayEnter(s)
    ensures Alone(At(s, t, Trying(s.queue[0])), t, 3) == Alone(At(s, t, Wrk(WorkGiveUp)), t, 2)
  {
    hide Alone, At;
    Goes(s, t, 3, Trying(s.queue[0]), Wrk(WorkGiveUp), Nothing);
  }

  /** Otherwise it gives the node up, and leaves the queue as it is. */
  lemma HeadWaits(s: State, t: Tid)
    requires Flagged(s) && t in s.pc && s.pc[t] == Wrk(WorkLock) && s.mtx.None? && s.queue != [] && !MayEnter(s)
    ensures Alone(s, t, 5) == At(s.(workq := false), t, Idle)
  {
    hide Alone, At, Flagged, Act, Do, Trying, MayEnter;
    SomePending(s);
    var u := s.(mtx := Some(t));
    SameGate(s, u);
    calc {
      Alone(s, t, 5);
      { Looks(s, t, 5); }
      Alone(At(u, t, Trying(s.queue[0])), t, 3);
      { TriesInVain(u, t); }
      Alone(At(u, t, Wrk(WorkGiveUp)), t, 2);
      { GivesUp(u, t); }
      At(u.(workq := false, mtx := None), t, Idle);
    }
  }

  lemma SomePending(s: State)
    requires Flagged(s) && s.queue != []
    ensures s.word.pending
  {
  }

  lemma SameGate(s: State, u: State)
    requires s.queue != [] && u.queue == s.queue && u.word == s.word
    ensures MayEnter(u) == MayEnter(s)
  {
  }
}
