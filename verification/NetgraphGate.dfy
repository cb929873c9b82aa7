/** The multiple-reader/single-writer gate of a netgraph node, with its input queue and its place
    on the worklist (lib/ff_ng_base.c), as a state machine. Every atomic operation on q_flags, every
    access under q_mtx and every lock operation is a step of its own, and the steps of all
    activations of ng_snd_item and ngthread interleave arbitrarily. An activation that sends to the
    same node while it is being applied counts as another activation. */
module NetgraphGate {
  import opened Lists
  import opened Options

  type Tid = nat

  /** A queue item, and whether it wants to be a writer. */
  datatype Item = Item(id: nat, writer: bool)

  // ----- the flag word q_flags

  /** A 32-bit word: bit 0 is WRITER_ACTIVE, bit 1 is OP_PENDING, the other 30 bits count readers. */
  datatype Word = Word(readers: nat, pending: bool, writer: bool)

  const READER_LIMIT := 0x4000_0000

  predicate Writer(w: Word) { w.writer }

  predicate Pending(w: Word) { w.pending }

  function Readers(w: Word): nat { w.readers }

  /** Adding and subtracting READER_INCREMENT, with wrap-around. */
  function AddReader(w: Word): Word { w.(readers := if w.readers + 1 < READER_LIMIT then w.readers + 1 else 0) }

  function DropReader(w: Word): Word { w.(readers := if w.readers > 0 then w.readers - 1 else READER_LIMIT - 1) }

  const IDLE := Word(0, false, false)
  const ONLY_PENDING := Word(0, true, false)

  // ----- where an activation is; each state names the step that comes next

  /** In ng_acquire_read or ng_acquire_write. */
  datatype Acquiring = ReadLoad | ReadCas(t: Word) | WriteCas

  /** In ng_queue_rw. */
  datatype Queueing = QueueLock | QueueSet | QueueInsert | QueueTest | QueueAdd | QueueUnlock

  /** In ng_apply_item, with the gate held, and in ng_flush_input_queue called from there. */
  datatype Holding = Apply | FlushLock | FlushPop | FlushClear(f: Item) | FlushUnlock(freed: Option<Item>)

  /** In the re-check at the end of ng_snd_item. */
  datatype Checking = Check | CheckLock | CheckActive | CheckHead | CheckAdd | CheckUnlock

  /** In ngthread, and in ng_dequeue called from there. */
  datatype Working =
    | WorkLock | DequeueActive | DequeueLoad | DequeueCas(t: Word) | DequeueWrite
    | DequeuePop(writer: bool) | DequeueClear(i: Item) | DequeueUnlock(i: Item)
    | WorkGiveUp | WorkUnlock

  /** worker tells whether the item was taken off the queue by ngthread. */
  datatype Pc =
    | Idle
    | Acq(a: Acquiring, i: Item)
    | Que(q: Queueing, i: Item)
    | Hold(h: Holding, i: Item, worker: bool)
    | Chk(k: Checking)
    | Wrk(d: Working)
  {
    /** Between taking the gate and leaving it. */
    predicate Holds() {
      Hold? || (Wrk? && (d.DequeuePop? || d.DequeueClear? || d.DequeueUnlock?))
    }

    predicate HoldsWriter() {
      Holds() && if Hold? then i.writer else if d.DequeuePop? then d.writer else d.i.writer
    }

    predicate HoldsReader() {
      Holds() && !HoldsWriter()
    }

    /** Between taking the queue's mutex and releasing it. */
    predicate Locks() {
      || (Que? && !q.QueueLock?)
      || (Hold? && (h.FlushPop? || h.FlushClear? || h.FlushUnlock?))
      || (Chk? && !k.Check? && !k.CheckLock?)
      || (Wrk? && !d.WorkLock?)
    }

    /** An ngthread that has taken the node off the worklist and not yet given it up. */
    predicate Works() {
      (Wrk? && !d.WorkUnlock?) || (Hold? && worker)
    }

    /** A sender that holds the gate, or has left it and not yet reached its re-check. */
    predicate WillCheck() {
      (Chk? && (k.Check? || k.CheckLock?)) || (Hold? && !worker)
    }

    /** Inside the mutex, about to look at the queue and put the node on the worklist. */
    predicate IsChecking() {
      (Que? && (q.QueueTest? || q.QueueAdd?)) || (Chk? && (k.CheckActive? || k.CheckHead? || k.CheckAdd?))
    }

    /** The windows in which OP_PENDING may be set although the queue is empty. */
    predicate InWindow() {
      (Que? && q.QueueInsert?) || (Hold? && h.FlushClear?) || (Wrk? && d.DequeueClear?)
    }

    /** What the activation has found out about its item and the flag word. */
    predicate Fits() {
      && (Acq? && a.ReadLoad? ==> !i.writer)
      && (Acq? && a.ReadCas? ==> !i.writer && !Writer(a.t) && !Pending(a.t))
      && (Acq? && a.WriteCas? ==> i.writer)
      && (Hold? && !h.Apply? ==> i.writer)
      && (Wrk? && d.DequeueCas? ==> !Writer(d.t))
    }

    /** What it has found out about the queue, and relies on while it holds the mutex. */
    predicate Knows(queue: seq<Item>) {
      && (Wrk? && (d.DequeueLoad? || d.DequeueCas?) ==> queue != [] && !queue[0].writer)
      && (Wrk? && d.DequeueWrite? ==> queue != [] && queue[0].writer)
      && (Wrk? && d.DequeuePop? ==> queue != [] && queue[0].writer == d.writer)
      && (Que? && (q.QueueTest? || q.QueueAdd?) ==> queue != [])
      && (Chk? && k.CheckHead? ==> queue != [])
    }
  }

  datatype State = State(
    word: Word,              // q_flags
    mtx: Option<Tid>,        // the owner of q_mtx
    queue: seq<Item>,
    workq: bool,             // NGQ2_WORKQ
    listed: nat,             // how often the node is on the worklist
    pc: map<Tid, Pc>,
    arrived: seq<Item>,      // the items queued so far, in order
    left: seq<Item>          // the items taken off the queue so far, in order
  )

  /** What the environment decides: whether and what an idle activation sends, whether it insists
      on queueing, whether it plays ngthread, and whether a writer flushes the queue. */
  datatype Choice = Stay | Send(i: Item) | SendQueued(i: Item) | Work | Flush

  /** What a step does to the shared state. */
  datatype Effect =
    | Nothing
    | LockMtx | UnlockMtx
    | EnterReader | EnterWriter      // a successful compare-and-set
    | LeaveReader | LeaveWriter
    | RaisePending | LowerPending
    | Insert(i: Item) | Remove
    | AddWork | DropWork | TakeWork

  /** NEXT_QUEUED_ITEM_CAN_PROCEED. */
  predicate CanProceed(s: State)
    requires s.queue != []
  {
    if s.queue[0].writer then !Writer(s.word) && Readers(s.word) == 0 else !Writer(s.word)
  }

  /** Taking the mutex, or waiting for it. */
  function Locking(s: State, p: Pc, q: Pc): (Pc, Effect) {
    if s.mtx.None? then (q, LockMtx) else (p, Nothing)
  }

  function ActIdle(s: State, c: Choice): (Pc, Effect) {
    if c.Send? then (Acq(if c.i.writer then WriteCas else ReadLoad, c.i), Nothing)
    else if c.SendQueued? then (Que(QueueLock, c.i), Nothing)
    else if c.Work? && s.listed > 0 then (Wrk(WorkLock), TakeWork)
    else (Idle, Nothing)
  }

  function ActAcquire(s: State, a: Acquiring, i: Item): (Pc, Effect) {
    match a
    case ReadLoad => (if Writer(s.word) || Pending(s.word) then Que(QueueLock, i) else Acq(ReadCas(s.word), i), Nothing)
    case ReadCas(t) => if s.word == t then (Hold(Apply, i, false), EnterReader) else (Acq(ReadLoad, i), Nothing)
    case WriteCas => if s.word == IDLE then (Hold(Apply, i, false), EnterWriter) else (Que(QueueLock, i), Nothing)
  }

  function ActQueue(s: State, q: Queueing, i: Item): (Pc, Effect) {
    match q
    case QueueLock => Locking(s, Que(q, i), Que(QueueSet, i))
    case QueueSet => (Que(QueueInsert, i), RaisePending)
    case QueueInsert => (Que(QueueTest, i), Insert(i))
    case QueueTest => (Que(if s.queue != [] && CanProceed(s) then QueueAdd else QueueUnlock, i), Nothing)
    case QueueAdd => (Que(QueueUnlock, i), AddWork)
    case QueueUnlock => (Idle, UnlockMtx)
  }

  function ActHold(s: State, h: Holding, i: Item, worker: bool, c: Choice): (Pc, Effect) {
    match h
    case Apply =>
      if c.Flush? && i.writer then (Hold(FlushLock, i, worker), Nothing)
      else (if worker then Wrk(WorkLock) else Chk(Check), if i.writer then LeaveWriter else LeaveReader)
    case FlushLock => Locking(s, Hold(h, i, worker), Hold(FlushPop, i, worker))
    case FlushPop =>
      if s.queue == [] then (Hold(FlushUnlock(None), i, worker), Nothing) else (Hold(FlushClear(s.queue[0]), i, worker), Remove)
    case FlushClear(f) => (Hold(FlushUnlock(Some(f)), i, worker), if s.queue == [] then LowerPending else Nothing)
    case FlushUnlock(freed) => (Hold(if freed.Some? then FlushLock else Apply, i, worker), UnlockMtx)
  }

  function ActCheck(s: State, k: Checking): (Pc, Effect) {
    match k
    case Check => (if Pending(s.word) then Chk(CheckLock) else Idle, Nothing)
    case CheckLock => Locking(s, Chk(k), Chk(CheckActive))
    case CheckActive => (Chk(if Pending(s.word) then CheckHead else CheckUnlock), Nothing)
    case CheckHead => (Chk(if s.queue != [] && CanProceed(s) then CheckAdd else CheckUnlock), Nothing)
    case CheckAdd => (Chk(CheckUnlock), AddWork)
    case CheckUnlock => (Idle, UnlockMtx)
  }

  function ActWork(s: State, d: Working): (Pc, Effect) {
    match d
    case WorkLock => Locking(s, Wrk(d), Wrk(DequeueActive))
    case DequeueActive =>
      (Wrk(if !Pending(s.word) || s.queue == [] then WorkGiveUp
           else if s.queue[0].writer then DequeueWrite else DequeueLoad), Nothing)
    case DequeueLoad => (Wrk(if Writer(s.word) then WorkGiveUp else DequeueCas(s.word)), Nothing)
    case DequeueCas(t) => if s.word == t then (Wrk(DequeuePop(false)), EnterReader) else (Wrk(DequeueLoad), Nothing)
    case DequeueWrite => if s.word == ONLY_PENDING then (Wrk(DequeuePop(true)), EnterWriter) else (Wrk(WorkGiveUp), Nothing)
    case DequeuePop(writer) => if s.queue == [] then (Wrk(d), Nothing) else (Wrk(DequeueClear(s.queue[0])), Remove)
    case DequeueClear(i) => (Wrk(DequeueUnlock(i)), if s.queue == [] then LowerPending else Nothing)
    case DequeueUnlock(i) => (Hold(Apply, i, true), UnlockMtx)
    case WorkGiveUp => (Wrk(WorkUnlock), DropWork)
    case WorkUnlock => (Idle, UnlockMtx)
  }

  /** The next step of an activation at p: where it goes and what it does. */
  function Act(s: State, p: Pc, c: Choice): (Pc, Effect) {
    match p
    case Idle => ActIdle(s, c)
    case Acq(a, i) => ActAcquire(s, a, i)
    case Que(q, i) => ActQueue(s, q, i)
    case Hold(h, i, worker) => ActHold(s, h, i, worker, c)
    case Chk(k) => ActCheck(s, k)
    case Wrk(d) => ActWork(s, d)
  }

  function Do(s: State, t: Tid, e: Effect): State {
    match e
    case Nothing => s
    case LockMtx => s.(mtx := Some(t))
    case UnlockMtx => s.(mtx := None)
    case EnterReader => s.(word := AddReader(s.word))
    case EnterWriter => s.(word := s.word.(writer := true))
    case LeaveReader => s.(word := DropReader(s.word))
    case LeaveWriter => s.(word := s.word.(writer := false))
    case RaisePending => s.(word := s.word.(pending := true))
    case LowerPending => s.(word := s.word.(pending := false))
    case Insert(i) => s.(queue := s.queue + [i], arrived := s.arrived + [i])
    case Remove => if s.queue == [] then s else s.(queue := s.queue[1..], left := s.left + [s.queue[0]])
    case AddWork => if s.workq then s else s.(workq := true, listed := s.listed + 1)
    case DropWork => s.(workq := false)
    case TakeWork => s.(listed := if s.listed > 0 then s.listed - 1 else 0)
  }

  /** One step of activation t. */
  function Next(s: State, t: Tid, c: Choice): State
    requires t in s.pc
  {
    var (p, e) := Act(s, s.pc[t], c);
    Do(s, t, e).(pc := s.pc[t := p])
  }

  // ----- the invariant

  ghost function HoldingReaders(pc: map<Tid, Pc>): set<Tid> {
    set t | t in pc && pc[t].HoldsReader()
  }

  ghost function HoldingWriters(pc: map<Tid, Pc>): set<Tid> {
    set t | t in pc && pc[t].HoldsWriter()
  }

  ghost function Workers(pc: map<Tid, Pc>): set<Tid> {
    set t | t in pc && pc[t].Works()
  }

  /** The flag word counts the activations that hold the gate. */
  ghost predicate Counted(s: State) {
    && s.word.readers < READER_LIMIT && |s.pc| < READER_LIMIT
    && Readers(s.word) == |HoldingReaders(s.pc)|
    && |HoldingWriters(s.pc)| == (if Writer(s.word) then 1 else 0)
    && (Writer(s.word) ==> Readers(s.word) == 0)
  }

  /** The mutex is held by the one activation that is inside it. */
  ghost predicate Mutexed(s: State) {
    && (forall t :: t in s.pc ==> (s.pc[t].Locks() <==> s.mtx == Some(t)))
    && (s.mtx.Some? ==> s.mtx.value in s.pc)
  }

  /** A clear OP_PENDING means an empty queue, always. The converse holds except for the short
      windows between changing the flag and changing the queue. */
  ghost predicate Flagged(s: State) {
    && (!Pending(s.word) ==> s.queue == [])
    && (Pending(s.word) && s.queue == [] ==> exists t :: t in s.pc && s.pc[t].InWindow())
    && (forall t :: t in s.pc && s.pc[t].InWindow() ==> Pending(s.word))
  }

  ghost predicate Informed(s: State) {
    forall t :: t in s.pc ==> s.pc[t].Fits() && s.pc[t].Knows(s.queue)
  }

  /** Items leave the queue in the order in which they arrived. */
  ghost predicate Fifo(s: State) {
    s.arrived == s.left + s.queue
  }

  /** NGQ2_WORKQ is set exactly while the node is on the worklist or one ngthread works on it. */
  ghost predicate Scheduled(s: State) {
    s.listed + |Workers(s.pc)| == if s.workq then 1 else 0
  }

  ghost predicate SomeWillCheck(s: State) {
    exists t :: t in s.pc && s.pc[t].WillCheck()
  }

  ghost predicate SomeChecking(s: State) {
    exists t :: t in s.pc && s.pc[t].IsChecking()
  }

  /** While something is queued, somebody is going to see to it; in particular an ngthread gives
      up only if the queue is empty or a sender is going to re-check. */
  ghost predicate Awake(s: State) {
    && (s.queue != [] ==> s.workq || SomeWillCheck(s) || SomeChecking(s))
    && (forall t :: t in s.pc && s.pc[t] == Wrk(WorkGiveUp) ==> s.queue == [] || SomeWillCheck(s))
  }

  ghost predicate Inv(s: State) {
    Counted(s) && Mutexed(s) && Flagged(s) && Informed(s) && Fifo(s) && Scheduled(s) && Awake(s)
  }

  ghost predicate Init(s: State) {
    && s.word == IDLE && s.mtx.None? && s.queue == [] && !s.workq && s.listed == 0
    && s.arrived == [] && s.left == [] && |s.pc| < READER_LIMIT
    && forall t :: t in s.pc ==> s.pc[t].Idle?
  }

  lemma InitInv(s: State)
    requires Init(s)
    ensures Inv(s)
  {
    assert HoldingReaders(s.pc) == {} && HoldingWriters(s.pc) == {} && Workers(s.pc) == {};
  }

  // ----- what the steps have in common

  lemma ActLocks(s: State, p: Pc, c: Choice)
    ensures var (q, e) := Act(s, p, c);
            && (e.LockMtx? ==> !p.Locks() && q.Locks() && s.mtx.None?)
            && (e.UnlockMtx? ==> p.Locks() && !q.Locks())
            && (!e.LockMtx? && !e.UnlockMtx? ==> p.Locks() == q.Locks())
            && (e.Insert? || e.Remove? || e.RaisePending? || e.LowerPending? || e.AddWork? || e.DropWork? ==> p.Locks())
  {
  }

  lemma ActHolds(s: State, p: Pc, c: Choice)
    requires p.Fits() && p.Knows(s.queue)
    ensures var (q, e) := Act(s, p, c);
            && (e.EnterReader? ==> !p.Holds() && q.HoldsReader() && !Writer(s.word))
            && (e.EnterWriter? ==> !p.Holds() && q.HoldsWriter() && (s.word == IDLE || s.word == ONLY_PENDING))
            && (e.LeaveReader? ==> p.HoldsReader() && !q.Holds())
            && (e.LeaveWriter? ==> p.HoldsWriter() && !q.Holds())
            && (!e.EnterReader? && !e.EnterWriter? && !e.LeaveReader? && !e.LeaveWriter? ==>
                  p.Holds() == q.Holds() && p.HoldsWriter() == q.HoldsWriter())
  {
  }

  lemma ActWorks(s: State, p: Pc, c: Choice)
    ensures var (q, e) := Act(s, p, c);
            && (e.TakeWork? ==> !p.Works() && q.Works() && s.listed > 0)
            && (e.DropWork? ==> p.Works() && !q.Works())
            && (!e.TakeWork? && !e.DropWork? ==> p.Works() == q.Works())
  {
  }

  lemma ActKnows(s: State, t: Tid, p: Pc, c: Choice)
    requires p.Fits() && p.Knows(s.queue)
    requires p.Locks() && !p.InWindow() && Pending(s.word) ==> s.queue != []
    ensures var (q, e) := Act(s, p, c);
            q.Fits() && q.Knows(Do(s, t, e).queue)
    ensures !p.Locks() ==> forall queue :: p.Knows(queue)
  {
  }

  lemma ActWindow(s: State, p: Pc, c: Choice)
    ensures var (q, e) := Act(s, p, c);
            && (q.InWindow() ==> p.InWindow() || e.RaisePending? || e.Remove?)
            && (e.RaisePending? ==> q.InWindow())
            && (e.Remove? ==> q.InWindow() && s.queue != [] && !p.InWindow())
            && (p.InWindow() && !q.InWindow() ==> e.Insert? || e.LowerPending? || s.queue != [])
            && (p.InWindow() ==> p.Locks())
            && (e.LowerPending? ==> s.queue == [] && p.InWindow() && !q.InWindow())
            && (e.Insert? ==> p.InWindow() && !q.InWindow())
  {
  }

  /** Somebody holds the gate. */
  predicate Blocked(s: State) {
    Writer(s.word) || Readers(s.word) > 0
  }

  /** How an activation stops being one that will look after the queue. */
  lemma ActChecks(s: State, p: Pc, c: Choice)
    requires p.Knows(s.queue) && Flagged(s)
    ensures var (q, e) := Act(s, p, c);
            && (p.WillCheck() && !q.WillCheck() ==> s.queue == [] || (q.IsChecking() && e.LockMtx?))
            && (p.IsChecking() && !q.IsChecking() ==> s.queue == [] || e.AddWork? || Blocked(s))
            && (e.Insert? ==> q.IsChecking())
            && (e.Insert? || e.DropWork? ==> !p.WillCheck() && !p.IsChecking())
            && (e.DropWork? <==> p == Wrk(WorkGiveUp))
            && (q == Wrk(WorkGiveUp) && p != q ==> s.queue == [] || Blocked(s))
            && (q == Wrk(WorkGiveUp) ==> !e.Insert? && !e.Remove? && p.Locks() && p.Works() && !p.Holds())
  {
  }

  // ----- the word

  lemma HolderCounted(s: State, t: Tid)
    requires Counted(s) && t in s.pc
    ensures s.pc[t].HoldsReader() ==> Readers(s.word) > 0
    ensures s.pc[t].HoldsWriter() ==> Writer(s.word)
    ensures !s.pc[t].Holds() ==> Readers(s.word) + 1 < READER_LIMIT
  {
    hide Readers;
    var readers, writers := HoldingReaders(s.pc), HoldingWriters(s.pc);
    assert s.pc[t].HoldsReader() ==> t in readers;
    assert s.pc[t].HoldsWriter() ==> t in writers;
    SubsetSize(if s.pc[t].Holds() then readers else readers + {t}, s.pc.Keys);
    assert |s.pc.Keys| == |s.pc|;
  }

  /** What each effect does to the three parts of the flag word. */
  lemma WordAfter(s: State, t: Tid, c: Choice)
    requires t in s.pc && Counted(s) && Informed(s)
    ensures var e, w, w' := Act(s, s.pc[t], c).1, s.word, Next(s, t, c).word;
            && Readers(w') < READER_LIMIT
            && Pending(w') == (e.RaisePending? || (Pending(w) && !e.LowerPending?))
            && Writer(w') == (e.EnterWriter? || (Writer(w) && !e.LeaveWriter?))
            && Readers(w') == Readers(w) + (if e.EnterReader? then 1 else if e.LeaveReader? then -1 else 0)
            && (e.EnterWriter? ==> !Writer(w) && Readers(w) == 0)
            && (e.EnterReader? ==> !Writer(w))
  {
    hide Act;
    ActHolds(s, s.pc[t], c);
    HolderCounted(s, t);
  }

  // ----- every step keeps the invariant

  lemma MutexedKeeps(s: State, t: Tid, c: Choice)
    requires t in s.pc && Mutexed(s)
    ensures Mutexed(Next(s, t, c))
  {
    hide Act;
    ActLocks(s, s.pc[t], c);
  }

  /** The activation inside the mutex, outside the windows, sees flag and queue agree. */
  lemma Agrees(s: State, t: Tid)
    requires t in s.pc && Mutexed(s) && Flagged(s) && s.pc[t].Locks() && !s.pc[t].InWindow() && Pending(s.word)
    ensures s.queue != []
  {
    forall u | u in s.pc && s.pc[u].InWindow() ensures s.pc[u].Locks() {
    }
  }

  lemma InformedKeeps(s: State, t: Tid, c: Choice)
    requires t in s.pc && Mutexed(s) && Flagged(s) && Informed(s)
    ensures Informed(Next(s, t, c))
  {
    hide Act, Flagged, Pending, Pc.InWindow;
    if s.pc[t].Locks() && !s.pc[t].InWindow() && Pending(s.word) {
      Agrees(s, t);
    }
    var s' := Next(s, t, c);
    ActKnows(s, t, s.pc[t], c);
    ActLocks(s, s.pc[t], c);
    forall u | u in s'.pc && u != t ensures s'.pc[u].Fits() && s'.pc[u].Knows(s'.queue) {
      if s.pc[u].Locks() && !s.pc[u].InWindow() && Pending(s.word) {
        Agrees(s, u);
      }
      ActKnows(s, u, s.pc[u], c);
    }
  }

  lemma FifoKeeps(s: State, t: Tid, c: Choice)
    requires t in s.pc && Fifo(s)
    ensures Fifo(Next(s, t, c))
  {
    hide Act;
  }

  lemma FlaggedKeeps(s: State, t: Tid, c: Choice)
    requires t in s.pc && Counted(s) && Mutexed(s) && Informed(s) && Flagged(s)
    ensures Flagged(Next(s, t, c))
  {
    hide Act, Writer, Pending, Readers, Counted;
    ActWindow(s, s.pc[t], c);
    ActLocks(s, s.pc[t], c);
    WordAfter(s, t, c);
    var s' := Next(s, t, c);
    forall u | u in s.pc && u != t && s.pc[u].InWindow() ensures s.mtx == Some(u) && !s.pc[t].Locks() && s'.queue == s.queue {
      ActWindow(s, s.pc[u], c);
    }
    if Pending(s'.word) && s'.queue == [] {
      if Pending(s.word) && s.queue == [] {
        var u :| u in s.pc && s.pc[u].InWindow();
        assert s'.pc[u].InWindow();
      } else {
        assert s'.pc[t].InWindow();
      }
    }
  }

  lemma CardinalityStep(a: set<Tid>, a': set<Tid>, t: Tid)
    requires a - {t} == a' - {t}
    ensures |a'| - (if t in a' then 1 else 0) == |a| - (if t in a then 1 else 0)
  {
    assert t in a ==> a == a - {t} + {t};
    assert t !in a ==> a == a - {t};
    assert t in a' ==> a' == a' - {t} + {t};
    assert t !in a' ==> a' == a' - {t};
  }

  /** Moving t changes the number of activations with some property only by t itself. */
  lemma CountsAfter(pc: map<Tid, Pc>, t: Tid, p: Pc)
    requires t in pc
    ensures |HoldingReaders(pc[t := p])| ==
            |HoldingReaders(pc)| - (if pc[t].HoldsReader() then 1 else 0) + (if p.HoldsReader() then 1 else 0)
    ensures |HoldingWriters(pc[t := p])| ==
            |HoldingWriters(pc)| - (if pc[t].HoldsWriter() then 1 else 0) + (if p.HoldsWriter() then 1 else 0)
    ensures |Workers(pc[t := p])| == |Workers(pc)| - (if pc[t].Works() then 1 else 0) + (if p.Works() then 1 else 0)
    ensures |pc[t := p]| == |pc|
  {
    hide Pc.HoldsReader, Pc.HoldsWriter, Pc.Works;
    CardinalityStep(HoldingReaders(pc), HoldingReaders(pc[t := p]), t);
    CardinalityStep(HoldingWriters(pc), HoldingWriters(pc[t := p]), t);
    CardinalityStep(Workers(pc), Workers(pc[t := p]), t);
    assert pc[t := p].Keys == pc.Keys && |pc[t := p].Keys| == |pc[t := p]| && |pc.Keys| == |pc|;
  }

  lemma CountedKeeps(s: State, t: Tid, c: Choice)
    requires t in s.pc && Counted(s) && Informed(s)
    ensures Counted(Next(s, t, c))
  {
    hide Act, Writer, Pending, Readers, HoldingReaders, HoldingWriters, Workers;
    ActHolds(s, s.pc[t], c);
    WordAfter(s, t, c);
    CountsAfter(s.pc, t, Act(s, s.pc[t], c).0);
  }

  lemma ScheduledKeeps(s: State, t: Tid, c: Choice)
    requires t in s.pc && Scheduled(s)
    ensures Scheduled(Next(s, t, c))
  {
    hide Act, Workers, HoldingReaders, HoldingWriters;
    ActWorks(s, s.pc[t], c);
    CountsAfter(s.pc, t, Act(s, s.pc[t], c).0);
  }

  /** Whoever blocks the gate is a sender that will re-check, or the ngthread of this node. */
  lemma BlockerAwake(s: State, t: Tid)
    requires t in s.pc && Counted(s) && Scheduled(s) && Blocked(s)
    ensures s.workq || SomeWillCheck(s)
    ensures s.pc[t].Works() && !s.pc[t].Holds() ==> SomeWillCheck(s)
  {
    hide Writer, Readers;
    var holders := HoldingReaders(s.pc) + HoldingWriters(s.pc);
    assert HoldingReaders(s.pc) != {} || HoldingWriters(s.pc) != {};
    var u :| u in holders;
    assert s.pc[u].WillCheck() || u in Workers(s.pc);
    if !s.pc[u].WillCheck() {
      assert |Workers(s.pc)| > 0;
      if s.pc[t].Works() && !s.pc[t].Holds() {
        SubsetSize({t, u}, Workers(s.pc));
      }
    }
  }

  /** A sender that will re-check still will after another step, or has begun to, or finds
      the queue empty. */
  lemma WillCheckStays(s: State, t: Tid, c: Choice)
    requires t in s.pc && Flagged(s) && Informed(s) && SomeWillCheck(s)
    ensures SomeWillCheck(Next(s, t, c)) || SomeChecking(Next(s, t, c)) || Next(s, t, c).queue == []
    ensures s.mtx.Some? ==> SomeWillCheck(Next(s, t, c)) || Next(s, t, c).queue == []
  {
    hide Act, Flagged, Pc.WillCheck, Pc.IsChecking, Pc.Works, Pc.Locks, Pc.Knows, Pc.Fits, Pc.Holds;
    var u :| u in s.pc && s.pc[u].WillCheck();
    var s' := Next(s, t, c);
    ActLocks(s, s.pc[t], c);
    ActChecks(s, s.pc[t], c);
    assert u in s'.pc;
    if u == t && !s'.pc[u].WillCheck() && s.queue != [] {
      assert s'.pc[u].IsChecking();
    }
  }

  lemma GiveUpLocks(p: Pc)
    ensures p == Wrk(WorkGiveUp) ==> p.Locks()
  {
  }

  lemma AwakeKeeps(s: State, t: Tid, c: Choice)
    requires t in s.pc && Inv(s)
    ensures Awake(Next(s, t, c))
  {
    hide Act, Counted, Flagged, Scheduled, Fifo, Blocked, CanProceed, SomeWillCheck;
    hide Pc.WillCheck, Pc.IsChecking, Pc.Works, Pc.Locks, Pc.Knows, Pc.Fits, Pc.Holds;
    var s' := Next(s, t, c);
    ActChecks(s, s.pc[t], c);
    ActLocks(s, s.pc[t], c);
    if Blocked(s) {
      BlockerAwake(s, t);
    }
    if SomeWillCheck(s) {
      WillCheckStays(s, t, c);
    }
    assert s'.pc[t].IsChecking() ==> SomeChecking(s');
    if SomeChecking(s) {
      var u :| u in s.pc && s.pc[u].IsChecking();
      assert u in s'.pc && (u != t ==> s'.pc[u].IsChecking());
    }
    if s'.queue != [] {
      assert s'.workq || SomeWillCheck(s') || SomeChecking(s');
    }
    forall u | u in s'.pc && s'.pc[u] == Wrk(WorkGiveUp) ensures s'.queue == [] || SomeWillCheck(s') {
      GiveUpLocks(s.pc[u]);
    }
  }

  lemma StepKeeps(s: State, t: Tid, c: Choice)
    requires t in s.pc && Inv(s)
    ensures Inv(Next(s, t, c))
  {
    hide Next, Counted, Mutexed, Flagged, Informed, Fifo, Scheduled, Awake;
    CountedKeeps(s, t, c);
    MutexedKeeps(s, t, c);
    FlaggedKeeps(s, t, c);
    InformedKeeps(s, t, c);
    FifoKeeps(s, t, c);
    ScheduledKeeps(s, t, c);
    AwakeKeeps(s, t, c);
  }

  // ----- what holds in every state of every interleaving

  /** The state after the given steps. A step of an activation that does not exist is skipped. */
  function Run(s: State, steps: seq<(Tid, Choice)>): State {
    if steps == [] then s
    else
      var s', (t, c) := Run(s, steps[..|steps|-1]), steps[|steps|-1];
      if t in s'.pc then Next(s', t, c) else s'
  }

  lemma {:induction false} RunInv(s: State, steps: seq<(Tid, Choice)>)
    requires Init(s)
    ensures Inv(Run(s, steps))
  {
    hide Next, Inv;
    if steps == [] {
      InitInv(s);
    } else {
      var before, last := steps[..|steps|-1], steps[|steps|-1];
      RunInv(s, before);
      if last.0 in Run(s, before).pc {
        StepKeeps(Run(s, before), last.0, last.1);
      }
    }
  }

  /** A writer that holds the gate holds it alone. */
  lemma WriterExcludes(s: State, steps: seq<(Tid, Choice)>, t: Tid, u: Tid)
    requires Init(s)
    requires var r := Run(s, steps); t in r.pc && u in r.pc && t != u && r.pc[t].HoldsWriter()
    ensures !Run(s, steps).pc[u].Holds()
  {
    hide Run, Readers, Pc.HoldsWriter, Pc.Works;
    var r := Run(s, steps);
    RunInv(s, steps);
    HolderCounted(r, t);
    HolderCounted(r, u);
    if r.pc[u].HoldsWriter() {
      SubsetSize({t, u}, HoldingWriters(r.pc));
    }
  }

  /** While the mutex is free, OP_PENDING is set exactly when something is queued. */
  lemma PendingIffQueued(s: State, steps: seq<(Tid, Choice)>)
    requires Init(s)
    ensures var r := Run(s, steps); r.mtx.None? ==> (Pending(r.word) <==> r.queue != [])
  {
    hide Run, Pending;
    RunInv(s, steps);
    var r := Run(s, steps);
    forall t | t in r.pc && r.pc[t].InWindow() ensures r.pc[t].Locks() {
    }
  }

  /** Whoever takes or inspects the head of the queue finds one: ng_dequeue after seeing OP_PENDING,
      NEXT_QUEUED_ITEM_CAN_PROCEED in both places, and the removal of the head. */
  lemma HeadPresent(s: State, steps: seq<(Tid, Choice)>, t: Tid)
    requires Init(s) && t in Run(s, steps).pc
    ensures var r := Run(s, steps);
            && (r.pc[t] == Wrk(DequeueActive) && Pending(r.word) ==> r.queue != [])
            && (r.pc[t] == Chk(CheckHead) ==> r.queue != [])
            && (r.pc[t].Que? && r.pc[t].q.QueueTest? ==> r.queue != [])
            && (r.pc[t].Wrk? && r.pc[t].d.DequeuePop? ==> r.queue != [])
  {
    hide Run, Pending;
    RunInv(s, steps);
    var r := Run(s, steps);
    if r.pc[t] == Wrk(DequeueActive) && Pending(r.word) {
      Agrees(r, t);
    }
  }

  /** Items leave the queue in the order in which they were queued. */
  lemma FirstInFirstOut(s: State, steps: seq<(Tid, Choice)>)
    requires Init(s)
    ensures var r := Run(s, steps); r.arrived == r.left + r.queue
  {
    hide Run;
    RunInv(s, steps);
  }

  /** An activation that gets the gate without queueing does so only when everything that was
      ever queued has left the queue. */
  lemma NoOvertaking(s: State, steps: seq<(Tid, Choice)>, t: Tid, c: Choice)
    requires Init(s)
    requires var r := Run(s, steps); t in r.pc && r.pc[t].Acq? && Next(r, t, c).pc[t].Holds()
    ensures Run(s, steps).left == Run(s, steps).arrived
  {
    hide Run;
    RunInv(s, steps);
    var r := Run(s, steps);
    assert !Pending(r.word);
    assert r.left + [] == r.left;
  }

  /** No lost wakeup: while the mutex is free, something queued means that NGQ2_WORKQ is set, so that
      the node is on the worklist or an ngthread works on it, or that a sender holds the gate, or has
      left it and not yet re-checked the queue. */
  lemma NoLostWakeup(s: State, steps: seq<(Tid, Choice)>)
    requires Init(s)
    ensures var r := Run(s, steps);
            r.mtx.None? && r.queue != [] ==> (r.workq && r.listed + |Workers(r.pc)| == 1) || SomeWillCheck(r)
  {
    hide Run, Workers;
    RunInv(s, steps);
    var r := Run(s, steps);
    forall t | t in r.pc && r.pc[t].IsChecking() ensures r.pc[t].Locks() {
    }
  }

  /** When every activation has come to rest, whatever is queued is on the worklist. */
  lemma NothingStranded(s: State, steps: seq<(Tid, Choice)>)
    requires Init(s)
    ensures var r := Run(s, steps); (forall t :: t in r.pc ==> r.pc[t].Idle?) ==> (r.queue != [] ==> r.listed == 1)
  {
    hide Run;
    NoLostWakeup(s, steps);
    RunInv(s, steps);
    var r := Run(s, steps);
    if forall t :: t in r.pc ==> r.pc[t].Idle? {
      assert Workers(r.pc) == {};
      assert r.mtx.None?;
    }
  }

  /** The count of active readers fits its 30 bits, and is the number of readers inside. */
  lemma ReaderCountExact(s: State, steps: seq<(Tid, Choice)>)
    requires Init(s)
    ensures var r := Run(s, steps); Readers(r.word) < READER_LIMIT && Readers(r.word) == |HoldingReaders(r.pc)|
  {
    hide Run;
    RunInv(s, steps);
  }
}
