/** The send queue of a socket in the example (example/fstack0/socket.c). What ff_write answers is
    arbitrary; buffers can be allocated. Lengths have 32 bits: `len` is unsigned, the result of ff_write is
    kept in an int, and both casts are written out. */
module SendQueue {
  import opened Arith
  import opened Options

  type Byte = x: nat | x < 256
  type Uint32 = x: int | 0 <= x < TWO32

  const SOCK_BUF_SIZE := 8192

  /** struct sock_buf: bytes, of which the first pos are sent. */
  datatype Buf = Buf(data: seq<Byte>, pos: nat)

  /** What ff_write does: it takes up to n bytes, or refuses. `again` says whether errno then reads EINTR,
      EWOULDBLOCK, EAGAIN or EINPROGRESS; a call that takes bytes leaves errno as it was. */
  datatype Answer = Sent(n: nat, again: bool) | Refused(again: bool)
  datatype Code = SOCK_SUCCESS | SOCK_INPROCESS | SOCK_ERROR

  /** The socket: its queue, the counter behind send_len, how often ff_write was called, how much it was
      given last, and what it has taken. */
  datatype Queue = Queue(connecting: bool, pool: seq<Buf>, sendLen: Uint32, calls: nat, offered: nat, wire: seq<Byte>)

  /** The conversion of 32 bits to int. */
  function AsInt(n: nat): int
    requires n < TWO32
  {
    if n < TWO31 then n else n - TWO32
  }

  predicate BufOk(b: Buf) {
    b.pos < |b.data| <= SOCK_BUF_SIZE
  }

  predicate PoolOk(pool: seq<Buf>) {
    forall i | 0 <= i < |pool| :: BufOk(pool[i])
  }

  /** The bytes that wait. */
  function Pending(pool: seq<Buf>): seq<Byte>
    requires PoolOk(pool)
  {
    if pool == [] then [] else Left(pool[0]) + Pending(pool[1..])
  }

  function Left(b: Buf): (s: seq<Byte>)
    requires BufOk(b)
    ensures 0 < |s| == |b.data| - b.pos <= SOCK_BUF_SIZE
  {
    b.data[b.pos..]
  }

  /** Everything accepted so far, sent or not. */
  function Stream(q: Queue): seq<Byte>
    requires PoolOk(q.pool)
  {
    q.wire + Pending(q.pool)
  }

  lemma PendingHead(pool: seq<Buf>)
    requires PoolOk(pool) && pool != []
    ensures Pending(pool) == Left(pool[0]) + Pending(pool[1..])
  {
  }

  lemma {:induction false} PendingAppend(a: seq<Buf>, b: seq<Buf>)
    requires PoolOk(a) && PoolOk(b)
    ensures PoolOk(a + b) && Pending(a + b) == Pending(a) + Pending(b)
  {
    hide Left, BufOk;
    if a == [] {
      assert a + b == b;
    } else {
      PendingAppend(a[1..], b);
      assert (a + b)[1..] == a[1..] + b;
    }
  }

  // ----- socket_write_buffer

  /** How many bytes the next buffer takes: the sum in the test has 32 bits. */
  function Piece(len: nat, pos: nat): nat
    requires pos < len < TWO32
  {
    if len > (SOCK_BUF_SIZE + pos) % TWO32 then SOCK_BUF_SIZE else len - pos
  }

  /** pos after some turns of the loop, which goes on while pos < len. */
  function Position(len: nat, turns: nat): (pos: nat)
    requires len < TWO32
    ensures pos < TWO32
  {
    if turns == 0 then 0
    else
      var pos := Position(len, turns - 1);
      if pos < len then (pos + Piece(len, pos)) % TWO32 else pos
  }

  lemma PieceFits(len: nat, pos: nat)
    requires pos < len <= TWO32 - SOCK_BUF_SIZE
    ensures 0 < Piece(len, pos) <= SOCK_BUF_SIZE && pos + Piece(len, pos) <= len
  {
  }

  /** From a length of 2^32 - 8192 + 1 on, the sum in the test wraps at the last full buffer, and pos with it. */
  lemma PieceWraps(len: nat)
    requires TWO32 - SOCK_BUF_SIZE < len < TWO32
    ensures var last := TWO32 - SOCK_BUF_SIZE;
      Piece(len, last) == SOCK_BUF_SIZE && last + Piece(len, last) > len && (last + Piece(len, last)) % TWO32 == 0
  {
  }

  /** For such a length pos goes round over the multiples of the buffer size. */
  function Round(turns: nat): (m: nat)
    ensures SOCK_BUF_SIZE * m <= TWO32 - SOCK_BUF_SIZE
  {
    if turns == 0 || SOCK_BUF_SIZE * (Round(turns - 1) + 1) == TWO32 then 0 else Round(turns - 1) + 1
  }

  lemma {:induction false} NeverThere(len: nat, turns: nat)
    requires TWO32 - SOCK_BUF_SIZE < len < TWO32
    ensures Position(len, turns) == SOCK_BUF_SIZE * Round(turns) < len
  {
    hide Piece;
    if turns > 0 {
      NeverThere(len, turns - 1);
      var pos := Position(len, turns - 1);
      if pos == TWO32 - SOCK_BUF_SIZE {
        PieceWraps(len);
      } else {
        FullPiece(len, pos);
      }
    }
  }

  lemma FullPiece(len: nat, pos: nat)
    requires pos + SOCK_BUF_SIZE < len < TWO32
    ensures Piece(len, pos) == SOCK_BUF_SIZE && (pos + SOCK_BUF_SIZE) % TWO32 == pos + SOCK_BUF_SIZE
  {
  }

  lemma {:induction false} Arrives(len: nat, turns: nat)
    requires len <= TWO32 - SOCK_BUF_SIZE
    ensures Position(len, turns) == len || turns <= Position(len, turns) < len
  {
    if turns > 0 {
      Arrives(len, turns - 1);
      if Position(len, turns - 1) < len {
        PieceFits(len, Position(len, turns - 1));
      }
    }
  }

  /** The loop ends exactly for the lengths whose last full buffer does not reach 2^32. */
  lemma LoopEnds(len: nat)
    requires len < TWO32
    ensures (exists turns :: Position(len, turns) >= len) <==> len <= TWO32 - SOCK_BUF_SIZE
  {
    hide Position, Piece;
    if len <= TWO32 - SOCK_BUF_SIZE {
      Arrives(len, len);
    } else {
      forall turns ensures Position(len, turns) < len {
        NeverThere(len, turns);
      }
    }
  }

  /** The buffers made of data from pos on. */
  function Cut(data: seq<Byte>, pos: nat): seq<Buf>
    requires pos <= |data| <= TWO32 - SOCK_BUF_SIZE
    decreases |data| - pos
  {
    if pos == |data| then []
    else
      PieceFits(|data|, pos);
      var end := pos + Piece(|data|, pos);
      [Buf(data[pos..end], 0)] + Cut(data, end)
  }

  lemma {:induction false} CutPending(data: seq<Byte>, pos: nat)
    requires pos <= |data| <= TWO32 - SOCK_BUF_SIZE
    ensures PoolOk(Cut(data, pos)) && Pending(Cut(data, pos)) == data[pos..]
    ensures pos < |data| ==> Cut(data, pos) != []
    decreases |data| - pos
  {
    hide Piece;
    if pos < |data| {
      PieceFits(|data|, pos);
      var end := pos + Piece(|data|, pos);
      CutPending(data, end);
      assert Cut(data, pos)[1..] == Cut(data, end);
      assert data[pos..] == data[pos..end] + data[end..];
    }
  }

  // ----- socket_write

  /** How many bytes ff_write takes. */
  function Taken(a: Answer, bytes: seq<Byte>): (k: nat)
    ensures k <= |bytes|
  {
    if a.Refused? then 0 else if a.n < |bytes| then a.n else |bytes|
  }

  /** What the int variable then holds. */
  function Result(a: Answer, bytes: seq<Byte>): (n: int)
    requires |bytes| < TWO32
    ensures n <= |bytes|
  {
    if a.Refused? then -1 else AsInt(Taken(a, bytes))
  }

  /** The call itself. */
  function Offered(q: Queue, bytes: seq<Byte>, env: nat -> Answer): Queue {
    q.(calls := q.calls + 1, offered := |bytes|, wire := q.wire + bytes[..Taken(env(q.calls), bytes)])
  }

  /** *send_len += n */
  function Counted(q: Queue, n: nat): Queue {
    q.(sendLen := (q.sendLen + n) % TWO32)
  }

  /** socket_write_buffer; None if its loop does not end. */
  function Buffered(q: Queue, data: seq<Byte>): Option<Queue>
    requires |data| < TWO32
  {
    if |data| <= TWO32 - SOCK_BUF_SIZE then Some(q.(pool := q.pool + Cut(data, 0))) else None
  }

  /** How the first loop of socket_write ends: with an empty queue, for now, or with an error. */
  datatype Drain = Empty(q: Queue) | Later(q: Queue) | Broken(q: Queue)

  /** The turn of the first loop for a buffer; Empty if the loop goes on. */
  function Turned(q: Queue, n: int, env: nat -> Answer): (d: Drain)
    requires PoolOk(q.pool) && q.pool != [] && n <= |Left(q.pool[0])|
    ensures d.Empty? ==> d.q.pool == q.pool[1..] && PoolOk(d.q.pool)
  {
    var head := q.pool[0];
    var o := Offered(q, Left(head), env);
    if n < 0 then
      if env(q.calls).again then Later(o) else Broken(o)
    else if n < |Left(head)| then
      Later(Counted(o, n).(pool := q.pool[0 := Buf(head.data, head.pos + n)]))
    else
      Empty(Counted(o, n).(pool := q.pool[1..]))
  }

  function Drained(q: Queue, env: nat -> Answer): Drain
    requires PoolOk(q.pool)
    decreases |q.pool|
  {
    if q.pool == [] then Empty(q)
    else
      match Turned(q, Result(env(q.calls), Left(q.pool[0])), env)
      case Empty(o) => Drained(o, env)
      case d => d
  }

  /** The new bytes, once the queue is empty. */
  function Direct(q: Queue, data: seq<Byte>, env: nat -> Answer): Option<(Queue, Code)>
    requires |data| < TWO32
  {
    if data == [] then Some((q, SOCK_SUCCESS))
    else
      var n := Result(env(q.calls), data);
      var o := Offered(q, data, env);
      if n < 0 then
        if env(q.calls).again then Postponed(Buffered(o, data)) else Some((o, SOCK_ERROR))
      else if n < AsInt(|data|) then
        Postponed(Buffered(Counted(o, n), data[n..]))
      else
        Some((Counted(o, n), SOCK_SUCCESS))
  }

  function Postponed(q: Option<Queue>): Option<(Queue, Code)> {
    match q
    case Some(o) => Some((o, SOCK_INPROCESS))
    case None => None
  }

  /** socket_write; None if it does not return. */
  function Written(q: Queue, data: seq<Byte>, env: nat -> Answer): Option<(Queue, Code)>
    requires PoolOk(q.pool) && |data| < TWO32
  {
    if q.connecting then Postponed(Buffered(q, data))
    else
      match Drained(q, env)
      case Empty(o) => Direct(o, data, env)
      case Later(o) => Postponed(Buffered(o, data))
      case Broken(o) => Some((o, SOCK_ERROR))
  }

  /** The last ff_write did not take all it was given. */
  predicate Short(q: Queue, env: nat -> Answer) {
    && q.calls > 0
    && match env(q.calls - 1)
       case Refused(again) => again
       case Sent(n, _) => n < q.offered
  }

  /** Some bytes went from the queue to the wire and were counted; nothing else happened to them. */
  predicate Moved(q: Queue, o: Queue) {
    && PoolOk(q.pool) && PoolOk(o.pool) && Stream(o) == Stream(q) && o.connecting == q.connecting
    && q.wire <= o.wire && o.sendLen == (q.sendLen + |o.wire| - |q.wire|) % TWO32
  }

  /** Bytes are neither lost nor doubled nor put in another order, and success means that nothing waits;
      after an error the new bytes were not accepted. */
  predicate Conserves(q: Queue, data: seq<Byte>, env: nat -> Answer)
    requires PoolOk(q.pool) && |data| < TWO32
  {
    match Written(q, data, env)
    case None => false
    case Some((o, code)) =>
      && PoolOk(o.pool) && o.connecting == q.connecting && q.wire <= o.wire
      && Stream(o) == (if code == SOCK_ERROR then Stream(q) else Stream(q) + data)
      && (code == SOCK_SUCCESS ==> o.pool == [])
      && (code == SOCK_INPROCESS && !q.connecting ==> o.pool != [] && Short(o, env))
      && (code == SOCK_ERROR ==> o.calls > 0 && env(o.calls - 1) == Refused(false))
      && o.sendLen == (q.sendLen + |o.wire| - |q.wire|) % TWO32
  }

  lemma CountedTwice(a: nat, b: nat, c: nat)
    ensures ((a + b) % TWO32 + c) % TWO32 == (a + b + c) % TWO32
  {
  }

  /** ff_write took none of the first buffer. */
  lemma HeadKept(q: Queue, o: Queue)
    requires PoolOk(q.pool) && o == q.(calls := o.calls, offered := o.offered, wire := o.wire) && o.wire == q.wire
    ensures Moved(q, o)
  {
  }

  /** ff_write took the first n bytes of the first buffer. */
  lemma HeadAdvanced(q: Queue, o: Queue, n: nat)
    requires PoolOk(q.pool) && q.pool != [] && n < |Left(q.pool[0])|
    requires o.pool == q.pool[0 := Buf(q.pool[0].data, q.pool[0].pos + n)] && o.connecting == q.connecting
    requires o.wire == q.wire + Left(q.pool[0])[..n] && o.sendLen == (q.sendLen + n) % TWO32
    ensures Moved(q, o)
  {
    hide BufOk;
    AdvancedPending(q.pool, n);
    assert Stream(o) == Stream(q);
  }

  lemma AdvancedPending(pool: seq<Buf>, n: nat)
    requires PoolOk(pool) && pool != [] && n < |Left(pool[0])|
    ensures var pool' := pool[0 := Buf(pool[0].data, pool[0].pos + n)];
      PoolOk(pool') && Pending(pool) == Left(pool[0])[..n] + Pending(pool')
  {
    hide Pending;
    var b := Buf(pool[0].data, pool[0].pos + n);
    PendingHead(pool);
    PendingHead(pool[0 := b]);
    assert pool[0 := b][1..] == pool[1..];
    assert Left(pool[0]) == Left(pool[0])[..n] + Left(b);
  }

  /** ff_write took all of the first buffer. */
  lemma HeadGone(q: Queue, o: Queue)
    requires PoolOk(q.pool) && q.pool != [] && o.pool == q.pool[1..] && o.connecting == q.connecting
    requires o.wire == q.wire + Left(q.pool[0]) && o.sendLen == (q.sendLen + |Left(q.pool[0])|) % TWO32
    ensures Moved(q, o)
  {
    hide BufOk, Left;
    assert Stream(o) == Stream(q);
  }

  /** Every turn moves bytes. */
  lemma TurnMoves(q: Queue, env: nat -> Answer)
    requires PoolOk(q.pool) && q.pool != []
    ensures var d := Turned(q, Result(env(q.calls), Left(q.pool[0])), env);
      && Moved(q, d.q)
      && (d.Later? ==> d.q.pool != [] && Short(d.q, env))
      && (d.Broken? ==> d.q.pool != [] && d.q.calls > 0 && env(d.q.calls - 1) == Refused(false))
  {
    hide Moved, PoolOk, BufOk;
    HeadOk(q.pool);
    var left := Left(q.pool[0]);
    var n := Result(env(q.calls), left);
    var d := Turned(q, n, env);
    if n < 0 {
      assert left[..0] == [];
      HeadKept(q, d.q);
    } else if n < |left| {
      HeadAdvanced(q, d.q, n);
    } else {
      assert left[..n] == left;
      HeadGone(q, d.q);
    }
  }

  lemma MovedTwice(q: Queue, o: Queue, p: Queue)
    requires Moved(q, o) && Moved(o, p)
    ensures Moved(q, p)
  {
    hide Stream, PoolOk;
    CountedTwice(q.sendLen, |o.wire| - |q.wire|, |p.wire| - |o.wire|);
  }

  /** The first loop moves bytes from the queue to the wire, until one ff_write takes less than it is given. */
  lemma {:induction false} DrainMoves(q: Queue, env: nat -> Answer)
    requires PoolOk(q.pool)
    ensures var d := Drained(q, env);
      && Moved(q, d.q)
      && (d.Empty? <==> d.q.pool == [])
      && (d.Later? ==> Short(d.q, env))
      && (d.Broken? ==> d.q.calls > 0 && env(d.q.calls - 1) == Refused(false))
    decreases |q.pool|
  {
    hide Moved, Result, Left, PoolOk, Stream, Turned, Short;
    if q.pool == [] {
      Unmoved(q);
    } else {
      TurnMoves(q, env);
      HeadOk(q.pool);
      var d := Turned(q, Result(env(q.calls), Left(q.pool[0])), env);
      if d.Empty? {
        DrainMoves(d.q, env);
        MovedTwice(q, d.q, Drained(d.q, env).q);
      }
    }
  }

  lemma HeadOk(pool: seq<Buf>)
    requires PoolOk(pool) && pool != []
    ensures BufOk(pool[0]) && PoolOk(pool[1..])
  {
  }

  lemma Unmoved(q: Queue)
    requires PoolOk(q.pool)
    ensures Moved(q, q)
  {
  }

  lemma MovedOk(q: Queue, o: Queue)
    requires Moved(q, o)
    ensures PoolOk(o.pool) && o.connecting == q.connecting
  {
  }

  /** The new bytes behind those that wait. */
  lemma BufferedStream(q: Queue, data: seq<Byte>)
    requires PoolOk(q.pool) && |data| <= TWO32 - SOCK_BUF_SIZE
    ensures var o := q.(pool := q.pool + Cut(data, 0));
      PoolOk(o.pool) && Stream(o) == Stream(q) + data && (data != [] || q.pool != [] ==> o.pool != [])
  {
    hide Cut, Pending, PoolOk;
    CutPending(data, 0);
    PendingAppend(q.pool, Cut(data, 0));
    Regrouped(q.wire, Pending(q.pool), data);
  }

  lemma Regrouped(a: seq<Byte>, b: seq<Byte>, c: seq<Byte>)
    ensures a + (b + c) == a + b + c && c[0..] == c
  {
  }

  /** Below 2^31 bytes neither cast changes a number. */
  lemma DirectConserves(q: Queue, data: seq<Byte>, env: nat -> Answer)
    requires q.pool == [] && !q.connecting && |data| < TWO31
    ensures Direct(q, data, env).Some?
    ensures var (o, code) := Direct(q, data, env).value;
      && PoolOk(o.pool) && o.connecting == q.connecting && q.wire <= o.wire
      && Stream(o) == (if code == SOCK_ERROR then q.wire else q.wire + data)
      && (code == SOCK_SUCCESS ==> o.pool == [])
      && (code == SOCK_INPROCESS ==> o.pool != [] && Short(o, env))
      && (code == SOCK_ERROR ==> o.calls > 0 && env(o.calls - 1) == Refused(false))
      && o.sendLen == (q.sendLen + |o.wire| - |q.wire|) % TWO32
  {
    hide Cut;
    if data != [] {
      var n := Result(env(q.calls), data);
      var o := Offered(q, data, env);
      if n < 0 {
        BufferedStream(o, data);
      } else {
        assert data == data[..n] + data[n..];
        if n < |data| {
          BufferedStream(Counted(o, n), data[n..]);
        }
      }
    }
  }

  /** Below 2^31 new bytes, socket_write keeps the stream whatever ff_write answers. */
  lemma ConservesBelow(q: Queue, data: seq<Byte>, env: nat -> Answer)
    requires PoolOk(q.pool) && |data| < TWO31
    ensures Conserves(q, data, env)
  {
    hide Cut, Drained, Direct, Pending;
    if q.connecting {
      BufferedStream(q, data);
    } else {
      DrainMoves(q, env);
      var d := Drained(q, env);
      if d.Later? {
        BufferedStream(d.q, data);
      } else if d.Empty? {
        DirectConserves(d.q, data, env);
        EmptyStream(d.q);
        var (o, code) := Direct(d.q, data, env).value;
        CountedTwice(q.sendLen, |d.q.wire| - |q.wire|, |o.wire| - |d.q.wire|);
      }
    }
  }

  lemma EmptyStream(q: Queue)
    requires q.pool == []
    ensures Stream(q) == q.wire
  {
  }

  /** From 2^31 on the length becomes negative: an ff_write that takes nothing passes for a complete one. */
  lemma LostAbove(data: seq<Byte>)
    requires TWO31 <= |data| < TWO32
    ensures var q := Queue(false, [], 0, 0, 0, []);
      var env := (i: nat) => Sent(0, false);
      && Written(q, data, env) == Some((q.(calls := 1, offered := |data|), SOCK_SUCCESS))
      && !Conserves(q, data, env)
  {
    var q := Queue(false, [], 0, 0, 0, []);
    var env := (i: nat) => Sent(0, false);
    assert Offered(q, data, env).wire == [];
  }

  /** The stream is kept for every socket and every behaviour of ff_write exactly below 2^31 bytes. */
  lemma ConservesExactly(data: seq<Byte>)
    requires |data| < TWO32
    ensures (forall q: Queue, env :: PoolOk(q.pool) ==> Conserves(q, data, env)) <==> |data| < TWO31
  {
    hide Conserves;
    if |data| < TWO31 {
      forall q: Queue, env | PoolOk(q.pool) ensures Conserves(q, data, env) {
        ConservesBelow(q, data, env);
      }
    } else {
      LostAbove(data);
    }
  }

  class Sock {
    var connecting: bool
    var pool: seq<Buf>
    var sendLen: Uint32             // *send_len
    var calls: nat                  // how often ff_write was called
    ghost var wire: seq<Byte>       // what it has taken
    ghost var offered: nat          // how much it was given last

    ghost predicate Valid()
      reads this
    {
      PoolOk(pool)
    }

    ghost function View(): Queue
      reads this
    {
      Queue(connecting, pool, sendLen, calls, offered, wire)
    }

    constructor ()
      ensures Valid() && View() == Queue(true, [], 0, 0, 0, [])
    {
      connecting, pool, sendLen, calls, wire, offered := true, [], 0, 0, [], 0;
    }

    /** ff_write: it takes some of the bytes, or none. */
    method Write(bytes: seq<Byte>, env: nat -> Answer) returns (n: int, again: bool)
      requires |bytes| < TWO32
      modifies this`calls, this`wire, this`offered
      ensures View() == Offered(old(View()), bytes, env)
      ensures n == Result(env(old(calls)), bytes) && again == env(old(calls)).again
    {
      var answer := env(calls);
      offered, wire := |bytes|, wire + bytes[..Taken(answer, bytes)];
      calls := calls + 1;
      n, again := Result(answer, bytes), answer.again;
    }

    /** socket_write_buffer, where its loop ends: the bytes are queued in pieces that fit a buffer. */
    method WriteBuffer(data: seq<Byte>)
      requires Valid() && |data| <= TWO32 - SOCK_BUF_SIZE
      modifies this`pool
      ensures Valid() && Pending(pool) == old(Pending(pool)) + data
      ensures pool == old(pool) + Cut(data, 0)
    {
      hide Pending, Left, Piece;
      var pos := 0;
      while pos < |data|
        invariant 0 <= pos <= |data| && pool + Cut(data, pos) == old(pool) + Cut(data, 0)
      {
        PieceFits(|data|, pos);
        var end := pos + Piece(|data|, pos);
        ghost var before := pool;
        pool := pool + [Buf(data[pos..end], 0)];
        assert pool + Cut(data, end) == before + Cut(data, pos);
        pos := end;
      }
      CutPending(data, 0);
      PendingAppend(old(pool), Cut(data, 0));
      assert data[0..] == data;
      assert pool + [] == pool;
    }

    /** One turn of the first loop of socket_write: the first buffer is offered. */
    method SendHead(env: nat -> Answer) returns (done: bool, failed: bool)
      requires Valid() && pool != []
      modifies this`pool, this`sendLen, this`calls, this`wire, this`offered
      ensures Turned(old(View()), Result(env(old(calls)), Left(old(pool)[0])), env)
              == if failed then Broken(View()) else if done then Empty(View()) else Later(View())
      ensures done ==> !failed
    {
      hide Result, PoolOk, BufOk, Left;
      HeadOk(pool);
      var buf := pool[0];
      var left := Left(buf);
      var n, again := Write(left, env);
      if n < 0 {
        return false, !again;
      }
      sendLen := (sendLen + n) % TWO32;
      if n < |left| {
        pool := pool[0 := Buf(buf.data, buf.pos + n)];
        return false, false;
      }
      pool := pool[1..];
      return true, false;
    }

    /** The first part of socket_write: the queue is sent, until ff_write takes less than it is given. */
    method SendQueued(env: nat -> Answer) returns (done: bool, failed: bool)
      requires Valid()
      modifies this`pool, this`sendLen, this`calls, this`wire, this`offered
      ensures Valid() && Moved(old(View()), View())
      ensures Drained(old(View()), env)
              == if failed then Broken(View()) else if done then Empty(View()) else Later(View())
      ensures done ==> !failed
    {
      hide Pending, Result, Moved, Turned, PoolOk, BufOk, Left;
      DrainMoves(View(), env);
      MovedOk(View(), Drained(View(), env).q);
      while pool != []
        invariant Valid() && Drained(View(), env) == Drained(old(View()), env)
        decreases |pool|
      {
        HeadOk(pool);
        var sent, broken := SendHead(env);
        if !sent {
          return false, broken;
        }
      }
      return true, false;
    }

    /** socket_write, where it returns. */
    method SocketWrite(data: seq<Byte>, env: nat -> Answer) returns (code: Code)
      requires Valid() && |data| < TWO32 && Written(View(), data, env).Some?
      modifies this
      ensures Written(old(View()), data, env) == Some((View(), code))
      ensures Valid() && (|data| < TWO31 ==> Conserves(old(View()), data, env))
    {
      hide Pending, Cut, Result, Drained, Conserves, Moved;
      if |data| < TWO31 {
        ConservesBelow(View(), data, env);
      }
      if connecting {
        WriteBuffer(data);
        return SOCK_INPROCESS;
      }
      var done, failed := SendQueued(env);
      if failed {
        return SOCK_ERROR;
      }
      if !done {
        WriteBuffer(data);
        return SOCK_INPROCESS;
      }
      DrainMoves(old(View()), env);
      if |data| > 0 {
        var n, again := Write(data, env);
        if n < 0 {
          if again {
            WriteBuffer(data);
            return SOCK_INPROCESS;
          }
          return SOCK_ERROR;
        }
        sendLen := (sendLen + n) % TWO32;
        if n < AsInt(|data|) {
          WriteBuffer(data[n..]);
          return SOCK_INPROCESS;
        }
      }
      return SOCK_SUCCESS;
    }
  }
}
