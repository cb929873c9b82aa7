/** Which queue a flow belongs to: the indirection table that is written into the network card and the
    question whether a tuple would come back to this queue (lib/ff_dpdk_if.c). */
module Rss {
  import opened Arith
  import opened Toeplitz

  const GROUP := 64   // RTE_RETA_GROUP_SIZE

  function Groups(size: nat): nat {
    if size / GROUP == 0 then 1 else size / GROUP
  }

  /** The loops of set_rss_table: the queues take turns. */
  method SetRssTable(size: nat, queues: nat) returns (reta: array2<nat>)
    requires queues > 0
    ensures size == 0 ==> reta.Length0 == 0
    ensures size > 0 ==> reta.Length0 == Groups(size) && reta.Length1 == GROUP
    ensures forall i, j | 0 <= i < reta.Length0 && 0 <= j < reta.Length1 :: reta[i, j] == (GROUP * i + j) % queues
  {
    if size == 0 {
      reta := new nat[0, 0];
      return;
    }
    reta := new nat[Groups(size), GROUP];
    var hash := 0;
    for i := 0 to reta.Length0
      invariant hash == GROUP * i
      invariant forall x, y | 0 <= x < i && 0 <= y < GROUP :: reta[x, y] == (GROUP * x + y) % queues
    {
      for j := 0 to GROUP
        invariant hash == GROUP * i + j
        invariant forall x, y | 0 <= x < i && 0 <= y < GROUP :: reta[x, y] == (GROUP * x + y) % queues
        invariant forall y | 0 <= y < j :: reta[i, y] == (GROUP * i + y) % queues
      {
        reta[i, j] := hash % queues;
        hash := hash + 1;
      }
    }
  }

  /** The bitwise and of two numbers. */
  function And(a: nat, b: nat): nat {
    if a == 0 || b == 0 then 0 else 2 * And(a / 2, b / 2) + (if a % 2 == 1 && b % 2 == 1 then 1 else 0)
  }

  /** hash & (reta_size - 1), where a size of 0 makes a mask of 32 ones. */
  function Masked(hash: nat, size: nat): nat {
    And(hash, if size == 0 then 0xffff_ffff else size - 1)
  }

  function Remainder(a: nat, m: nat): nat
    requires m > 0
  {
    a % m
  }

  /** For a power of two the mask takes the remainder. */
  lemma {:induction false} MaskIsRemainder(hash: nat, size: nat)
    requires PowerOfTwo(size)
    ensures Masked(hash, size) == Remainder(hash, size)
  {
    hide Remainder;
    if size == 1 || hash == 0 {
      NoRemainder(hash, size);
    } else {
      MaskIsRemainder(hash / 2, size / 2);
      assert (size - 1) / 2 == size / 2 - 1 && (size - 1) % 2 == 1;
      HalfRemainder(hash, size / 2);
    }
  }

  lemma NoRemainder(a: nat, m: nat)
    requires m > 0 && (m == 1 || a == 0)
    ensures Remainder(a, m) == 0
  {
  }

  lemma HalfRemainder(a: nat, m: nat)
    requires m > 0
    ensures Remainder(a, 2 * m) == 2 * Remainder(a / 2, m) + a % 2
  {
    var q, r := (a / 2) / m, (a / 2) % m;
    assert a / 2 == q * m + r;
    assert a == 2 * (a / 2) + a % 2;
    assert q * (2 * m) == 2 * (q * m);
    DivModUnique(a, q, 2 * r + a % 2, 2 * m);
  }

  lemma WholeGroups(n: nat)
    requires PowerOfTwo(n)
    ensures n <= GROUP || n % GROUP == 0
  {
    if n > GROUP {
      Halves(n);
      Halves(n / 2);
      Halves(n / 2 / 2);
      Halves(n / 2 / 2 / 2);
      Halves(n / 2 / 2 / 2 / 2);
      Halves(n / 2 / 2 / 2 / 2 / 2);
    }
  }

  lemma Halves(n: nat)
    requires PowerOfTwo(n) && n > 1
    ensures PowerOfTwo(n / 2) && n == 2 * (n / 2)
  {
  }

  /** ff_rss_check. */
  method RssCheck(key: seq<Byte>, saddr: seq<Byte>, daddr: seq<Byte>, sport: seq<Byte>, dport: seq<Byte>, size: nat, queues: nat, queue: nat)
    returns (mine: bool)
    requires |key| >= 4
    ensures mine <==> queues <= 1 || Masked(Hash(key, Bits(saddr + daddr + sport + dport)) as nat, size) % queues == queue
  {
    hide Masked, Hash, Bits;
    if queues <= 1 {
      return true;
    }
    var hash := ToeplitzHash(key, saddr + daddr + sport + dport);
    return Masked(hash as nat, size) % queues == queue;
  }

  /** The entry that a hash selects is in the table, and names the queue that ff_rss_check accepts. */
  lemma TableAgrees(hash: nat, size: nat, queues: nat)
    requires PowerOfTwo(size) && queues > 0
    ensures var e := Masked(hash, size);
      e == Remainder(hash, size) && e / GROUP < Groups(size) && (GROUP * (e / GROUP) + e % GROUP) % queues == e % queues
  {
    MaskIsRemainder(hash, size);
    WholeGroups(size);
  }

  /** Asking the table that SetRssTable writes and asking ff_rss_check is the same: of all queues the one
      that the table names claims the tuple, and no other. */
  method Claims(key: seq<Byte>, saddr: seq<Byte>, daddr: seq<Byte>, sport: seq<Byte>, dport: seq<Byte>, size: nat, queues: nat)
    returns (reta: array2<nat>, claims: seq<bool>)
    requires |key| >= 4 && PowerOfTwo(size) && queues > 1
    ensures |claims| == queues
    ensures var e := Remainder(Hash(key, Bits(saddr + daddr + sport + dport)) as nat, size);
      && e / GROUP < reta.Length0 && e % GROUP < reta.Length1 && reta[e / GROUP, e % GROUP] < queues
      && forall q | 0 <= q < queues :: claims[q] <==> q == reta[e / GROUP, e % GROUP]
  {
    hide Masked, Hash, Bits, Groups, Remainder;
    reta := SetRssTable(size, queues);
    ghost var e := Masked(Hash(key, Bits(saddr + daddr + sport + dport)) as nat, size);
    TableAgrees(Hash(key, Bits(saddr + daddr + sport + dport)) as nat, size, queues);
    ghost var owner := reta[e / GROUP, e % GROUP];
    assert 0 <= e % queues < queues;
    claims := [];
    for q := 0 to queues
      invariant |claims| == q && reta[e / GROUP, e % GROUP] == owner == e % queues
      invariant forall r | 0 <= r < q :: claims[r] <==> r == owner
    {
      var mine := RssCheck(key, saddr, daddr, sport, dport, size, queues, q);
      claims := claims + [mine];
    }
  }
}
