/** The ring that keeps transmitted buffers alive until the network card has passed them
    (lib/ff_memory.c, lib/ff_memory.h). Buffers are numbers, 0 is NULL. */
module TxRing {
  const TX_QUEUE_SIZE := 512

  // ----- what the ring is for

  /** The descriptors used so far, with the buffer whose last segment each was, or 0. At every
      descriptor the card has passed the one a ring's length before it; its buffer is freed then. The
      result gives the descriptor of each freed buffer and the descriptor at which it was freed. */
  function Freed(used: seq<nat>): seq<(nat, nat)> {
    if used == [] then [] else
      Freed(used[..|used|-1]) + Passed(used, |used| - 1)
  }

  function Passed(used: seq<nat>, t: nat): seq<(nat, nat)>
    requires t <= |used|
  {
    if t >= TX_QUEUE_SIZE && used[t - TX_QUEUE_SIZE] != 0 then [(t - TX_QUEUE_SIZE, t)] else []
  }

  /** A buffer is freed exactly when the descriptor TX_QUEUE_SIZE after its last one is used. */
  lemma {:induction false} FreedWhen(used: seq<nat>, d: nat, t: nat)
    ensures (d, t) in Freed(used) <==> t == d + TX_QUEUE_SIZE < |used| && used[d] != 0
  {
    if used != [] {
      FreedWhen(used[..|used|-1], d, t);
    }
  }

  /** And only once. */
  lemma {:induction false} FreedOnce(used: seq<nat>)
    ensures forall i, j | 0 <= i < j < |Freed(used)| :: Freed(used)[i].0 < Freed(used)[j].0
    ensures forall i | 0 <= i < |Freed(used)| :: Freed(used)[i].0 + TX_QUEUE_SIZE < |used|
  {
    if used != [] {
      FreedOnce(used[..|used|-1]);
    }
  }

  // ----- the ring

  class Ring {
    const table: array<nat>         // m_table
    var head: nat
    ghost var used: seq<nat>
    ghost var freed: seq<(nat, nat)>

    /** The table holds the last TX_QUEUE_SIZE descriptors, the oldest one at the head. */
    ghost predicate Valid()
      reads this, table
    {
      && table.Length == TX_QUEUE_SIZE && head < TX_QUEUE_SIZE && head <= |used|
      && (forall i | 0 <= i < TX_QUEUE_SIZE :: table[i] == Held(used, head, i))
      && freed == Freed(used)
    }

    /** ff_txring_init. */
    constructor ()
      ensures Valid() && used == [] && fresh(table)
    {
      table := new nat[TX_QUEUE_SIZE](_ => 0);
      head, used, freed := 0, [], [];
    }

    /** One descriptor: what was in its place is freed. */
    method Use(p: nat)
      requires Valid()
      modifies this, table
      ensures Valid() && used == old(used) + [p]
    {
      hide Freed;
      ghost var before, was := used, head;
      Grow(used, p);
      assert table[head] == (if |used| >= TX_QUEUE_SIZE then used[|used| - TX_QUEUE_SIZE] else 0);
      if table[head] != 0 {
        freed := freed + [(|used| - TX_QUEUE_SIZE, |used|)];
      }
      table[head] := p;
      used := used + [p];
      head := head + 1;
      if head >= TX_QUEUE_SIZE {
        head := 0;
      }
      forall i | 0 <= i < TX_QUEUE_SIZE ensures table[i] == Held(used, head, i) {
        assert i != was ==> table[i] == Held(before, was, i);
      }
    }

    /** ff_txring_enqueue. */
    method Enqueue(p: nat, segments: nat)
      requires Valid() && segments >= 1
      modifies this, table
      ensures Valid() && used == old(used) + seq(segments - 1, _ => 0) + [p]
    {
      hide Freed;
      for i := 0 to segments - 1
        invariant Valid() && used == old(used) + seq(i, _ => 0)
      {
        Use(0);
      }
      Use(p);
    }
  }

  lemma Grow(used: seq<nat>, p: nat)
    ensures Freed(used + [p]) == Freed(used) + Passed(used, |used|)
  {
    hide Passed;
    assert (used + [p])[..|used|] == used;
    SamePassed(used, p);
  }

  lemma SamePassed(used: seq<nat>, p: nat)
    ensures Passed(used + [p], |used|) == Passed(used, |used|)
  {
  }

  /** The buffer in place i of the table: places before the head were used in this turn, the others in
      the turn before. */
  ghost function Held(used: seq<nat>, head: nat, i: nat): nat
    requires head <= |used| && i < TX_QUEUE_SIZE
  {
    var d := |used| - head + i - (if i < head then 0 else TX_QUEUE_SIZE);
    if 0 <= d < |used| then used[d] else 0
  }
}
