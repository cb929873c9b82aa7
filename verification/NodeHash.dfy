/** A hash table of nodes that grows (lib/ff_ng_base.c, lib/ff_kern_subr.c): an array of lists, where the
    list of a node is chosen by the hash value of its key. */
module NodeHash {
  import opened Arith
  import opened Lists

  type Table = seq<seq<nat>>

  function Slot(hash: nat, size: nat): (r: nat)
    requires size > 0
    ensures r < size
  {
    hash % size
  }

  ghost predicate ListOk(t: Table, hashes: map<nat, nat>, b: nat)
    requires b < |t|
  {
    Distinct(t[b]) && forall n | n in t[b] :: n in hashes && Slot(hashes[n], |t|) == b
  }

  /** The table holds exactly the nodes of hashes, each once and where its hash value says. */
  ghost predicate Holds(t: Table, hashes: map<nat, nat>) {
    && |t| > 0
    && (forall n | n in hashes :: n in t[Slot(hashes[n], |t|)])
    && (forall b | 0 <= b < |t| :: ListOk(t, hashes, b))
  }

  /** LIST_INSERT_HEAD. */
  function Inserted(t: Table, n: nat, hash: nat): (r: Table)
    requires |t| > 0
    ensures |r| == |t|
  {
    t[Slot(hash, |t|) := [n] + t[Slot(hash, |t|)]]
  }

  lemma InsertedHolds(t: Table, hashes: map<nat, nat>, n: nat, hash: nat)
    requires Holds(t, hashes) && n !in hashes
    ensures Holds(Inserted(t, n, hash), hashes[n := hash])
  {
    hide Slot;
    var u, hashes' := Inserted(t, n, hash), hashes[n := hash];
    forall b | 0 <= b < |u| ensures ListOk(u, hashes', b) {
      assert ListOk(t, hashes, b);
    }
  }

  /** LIST_REMOVE. */
  function Removed(t: Table, n: nat, hash: nat): (r: Table)
    requires |t| > 0
    ensures |r| == |t|
  {
    t[Slot(hash, |t|) := Minus(t[Slot(hash, |t|)], n)]
  }

  lemma RemovedHolds(t: Table, hashes: map<nat, nat>, n: nat)
    requires Holds(t, hashes) && n in hashes
    ensures Holds(Removed(t, n, hashes[n]), hashes - {n})
  {
    hide Slot, Minus;
    var b := Slot(hashes[n], |t|);
    assert ListOk(t, hashes, b);
    MinusIn(t[b], n);
    var u := Removed(t, n, hashes[n]);
    forall c | 0 <= c < |u| ensures ListOk(u, hashes - {n}, c) {
      assert ListOk(t, hashes, c);
    }
  }

  // ----- growing

  /** The size that hashinit_flags chooses: the largest power of two that is not larger than asked for. */
  method HashSize(elements: nat) returns (size: nat)
    requires elements > 0
    ensures PowerOfTwo(size) && size <= elements < 2 * size
  {
    size := 1;
    while 2 * size <= elements
      invariant 1 <= size <= elements && PowerOfTwo(size)
      decreases elements - size
    {
      size := 2 * size;
    }
  }

  lemma EmptyHolds(size: nat)
    requires size > 0
    ensures Holds(seq(size, _ => []), map[])
  {
  }

  /** Moving the nodes of all lists into a new table, each by its hash value at that time. */
  method Rehash(t: Table, size: nat, ghost hashes: map<nat, nat>, now: map<nat, nat>) returns (u: Table)
    requires Holds(t, hashes) && now.Keys == hashes.Keys && size > 0
    ensures Holds(u, now) && |u| == size
  {
    hide Slot, Holds, ListOk, Inserted;
    u := seq(size, _ => []);
    EmptyHolds(size);
    ghost var moved: map<nat, nat> := map[];
    HoldsSize(t, hashes, now);
    for b := 0 to |t|
      invariant Holds(u, moved) && |u| == size && Part(t, hashes, now, moved, b, 0)
    {
      PartList(t, hashes, b);
      for i := 0 to |t[b]|
        invariant Holds(u, moved) && |u| == size && Part(t, hashes, now, moved, b, i)
      {
        PartNext(t, hashes, now, moved, b, i);
        var n := t[b][i];
        InsertedHolds(u, moved, n, now[n]);
        u := Inserted(u, n, now[n]);
        moved := moved[n := now[n]];
      }
      PartFull(t, hashes, now, moved, b);
    }
    PartAll(t, hashes, now, moved);
  }

  /** The nodes of the first b lists and of the first i places of list b have been moved. */
  ghost predicate Part(t: Table, hashes: map<nat, nat>, now: map<nat, nat>, moved: map<nat, nat>, b: nat, i: nat) {
    && b <= |t| && (b < |t| ==> i <= |t[b]|) && now.Keys == hashes.Keys
    && (forall n | n in moved :: n in now && moved[n] == now[n])
    && (forall n | n in hashes :: n in moved <==> Before(t, hashes, n, b, i))
  }

  ghost predicate Before(t: Table, hashes: map<nat, nat>, n: nat, b: nat, i: nat)
    requires n in hashes
  {
    |t| > 0 && (Slot(hashes[n], |t|) < b || (Slot(hashes[n], |t|) == b < |t| && i <= |t[b]| && n in t[b][..i]))
  }

  lemma HoldsSize(t: Table, hashes: map<nat, nat>, now: map<nat, nat>)
    requires Holds(t, hashes) && now.Keys == hashes.Keys
    ensures |t| > 0 && Part(t, hashes, now, map[], 0, 0)
  {
  }

  lemma PartList(t: Table, hashes: map<nat, nat>, b: nat)
    requires Holds(t, hashes) && b < |t|
    ensures forall n | n in t[b] :: n in hashes
  {
    assert ListOk(t, hashes, b);
  }

  lemma PartNext(t: Table, hashes: map<nat, nat>, now: map<nat, nat>, moved: map<nat, nat>, b: nat, i: nat)
    requires Holds(t, hashes) && b < |t| && i < |t[b]| && Part(t, hashes, now, moved, b, i)
    ensures t[b][i] in now && t[b][i] !in moved
    ensures Part(t, hashes, now, moved[t[b][i] := now[t[b][i]]], b, i + 1)
  {
    hide Slot;
    var l, n := t[b], t[b][i];
    assert ListOk(t, hashes, b);
    assert l[..i+1] == l[..i] + [n];
    assert n !in l[..i];
    forall m | m in hashes ensures m in moved[n := now[n]] <==> Before(t, hashes, m, b, i + 1) {
      assert m in moved <==> Before(t, hashes, m, b, i);
    }
  }

  lemma PartFull(t: Table, hashes: map<nat, nat>, now: map<nat, nat>, moved: map<nat, nat>, b: nat)
    requires Holds(t, hashes) && b < |t| && Part(t, hashes, now, moved, b, |t[b]|)
    ensures Part(t, hashes, now, moved, b + 1, 0)
  {
    hide Slot;
    assert t[b][..|t[b]|] == t[b];
    forall m | m in hashes ensures m in moved <==> Before(t, hashes, m, b + 1, 0) {
      assert m in moved <==> Before(t, hashes, m, b, |t[b]|);
    }
  }

  lemma PartAll(t: Table, hashes: map<nat, nat>, now: map<nat, nat>, moved: map<nat, nat>)
    requires Holds(t, hashes) && Part(t, hashes, now, moved, |t|, 0)
    ensures moved == now
  {
    hide ListOk;
    forall n | n in now ensures n in moved {
      assert Before(t, hashes, n, |t|, 0);
    }
  }
}
