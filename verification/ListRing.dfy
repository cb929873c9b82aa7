/** The intrusive doubly linked ring of the example (example/fstack0/list.h), as a sequence of nodes that
    starts with the head. */
module ListRing {

  class Node {
    var next: Node?
    var prev: Node?

    constructor ()
    {
      next, prev := null, null;
    }
  }

  function After(ring: seq<Node>, i: nat): Node
    requires i < |ring|
  {
    if i + 1 < |ring| then ring[i+1] else ring[0]
  }

  function Before(ring: seq<Node>, i: nat): Node
    requires i < |ring|
  {
    if i > 0 then ring[i-1] else ring[|ring|-1]
  }

  ghost predicate Linked(ring: seq<Node>, i: nat)
    requires i < |ring|
    reads ring
  {
    ring[i].next == After(ring, i) && ring[i].prev == Before(ring, i)
  }

  /** The links go once around, both ways. */
  ghost predicate Ring(ring: seq<Node>)
    reads ring
  {
    && |ring| > 0
    && (forall i, j | 0 <= i < j < |ring| :: ring[i] != ring[j])
    && (forall i | 0 <= i < |ring| :: Linked(ring, i))
  }

  /** INIT_LIST_HEAD. */
  method InitListHead(list: Node)
    modifies list
    ensures Ring([list])
  {
    list.next := list;
    list.prev := list;
  }

  /** __list_add, between place i and the one after it. */
  method AddBetween(x: Node, prev: Node, next: Node, ghost ring: seq<Node>, ghost i: nat)
    requires Ring(ring) && x !in ring && i < |ring| && prev == ring[i] && next == After(ring, i)
    modifies x, prev`next, next`prev
    ensures Ring(ring[..i+1] + [x] + ring[i+1..])
  {
    next.prev := x;
    x.next := next;
    x.prev := prev;
    prev.next := x;
    ghost var r := ring[..i+1] + [x] + ring[i+1..];
    forall k | 0 <= k < |r| ensures Linked(r, k) {
      assert k <= i ==> r[k] == ring[k] && old(Linked(ring, k));
      assert k > i + 1 ==> r[k] == ring[k-1] && old(Linked(ring, k - 1));
    }
  }

  /** list_add. */
  method ListAdd(x: Node, head: Node, ghost ring: seq<Node>)
    requires Ring(ring) && ring[0] == head && x !in ring && head.next != null
    modifies x, head`next, head.next`prev
    ensures Ring([head, x] + ring[1..])
  {
    assert Linked(ring, 0);
    AddBetween(x, head, head.next, ring, 0);
    assert ring[..1] + [x] + ring[1..] == [head, x] + ring[1..];
  }

  /** list_add_tail. */
  method ListAddTail(x: Node, head: Node, ghost ring: seq<Node>)
    requires Ring(ring) && ring[0] == head && x !in ring && head.prev != null
    modifies x, head`prev, head.prev`next
    ensures Ring(ring + [x])
  {
    assert Linked(ring, 0);
    AddBetween(x, head.prev, head, ring, |ring| - 1);
    assert ring[..|ring|] + [x] + ring[|ring|..] == ring + [x];
  }

  /** list_del: the others close up, and the entry is a ring of its own. */
  method ListDel(entry: Node, ghost ring: seq<Node>, ghost i: nat)
    requires Ring(ring) && 0 < i < |ring| && entry == ring[i]
    modifies entry, entry.prev, entry.next
    ensures Ring(ring[..i] + ring[i+1..]) && Ring([entry])
  {
    assert Linked(ring, i);
    var prev, next := entry.prev, entry.next;
    next.prev := prev;
    prev.next := next;
    entry.next := entry;
    entry.prev := entry;
    ghost var r := ring[..i] + ring[i+1..];
    forall k | 0 <= k < |r| ensures Linked(r, k) {
      assert k < i ==> r[k] == ring[k] && old(Linked(ring, k));
      assert k >= i ==> r[k] == ring[k+1] && old(Linked(ring, k + 1));
    }
  }

  // ----- list_for_each_safe

  /** What the body of the iteration does with the entry it is at: leave it, list_del, or list_del followed by
      list_add_tail to the same list. */
  datatype Action = Keep | Drop | Requeue

  /** The iteration over a list of entries, of which done are passed and rest are ahead; the k-th visit of all
      takes the action act(k). The results are the entries in the order of the visits, and the list that is
      left. A re-entered entry is visited again, unless it was the last one. */
  function Walk<T>(done: seq<T>, rest: seq<T>, act: nat -> Action, k: nat, limit: nat): (seq<T>, seq<T>)
    requires forall j | j >= limit :: act(j) != Requeue
    decreases if k < limit then limit - k else 0, |rest|
  {
    if rest == [] then ([], done)
    else
      var x := rest[0];
      var (done', rest') := Stepped(done, rest, act(k));
      var (visited, left) := Walk(done', rest', act, k + 1, limit);
      ([x] + visited, left)
  }

  function Stepped<T>(done: seq<T>, rest: seq<T>, action: Action): (r: (seq<T>, seq<T>))
    requires rest != []
    ensures action != Requeue ==> |r.1| < |rest|
  {
    var x := rest[0];
    match action
    case Keep => (done + [x], rest[1..])
    case Drop => (done, rest[1..])
    case Requeue => if |rest| == 1 then (done + [x], []) else (done, rest[1..] + [x])
  }

  /** One turn: the next entry is read before the body. */
  method Visit(list: Node, action: Action, head: Node, ghost done: seq<Node>, ghost rest: seq<Node>, ghost all: seq<Node>)
    returns (temp: Node)
    requires rest != [] && Ring([head] + done + rest) && list == rest[0] && forall x | x in [head] + done + rest :: x in all
    modifies all
    ensures var (done', rest') := Stepped(done, rest, action);
      Ring([head] + done' + rest') && temp == if |rest| > 1 then rest[1] else head
    ensures action != Requeue || |rest| == 1 ==> Stepped(done, rest, action).1 == rest[1..]
  {
    hide Ring, After, Before;
    ghost var ring, i := [head] + done + rest, 1 + |done|;
    RingLinks(ring, i);
    Neighbours(ring, i);
    AfterHere(head, done, rest);
    RingApart(ring, i);
    OthersIn(ring, i);
    temp := list.next;
    if action != Keep {
      ListDel(list, ring, i);
      ghost var others := ring[..i] + ring[i+1..];
      assert others == [head] + done + rest[1..];
      if action == Requeue {
        RingLinks(others, 0);
        Neighbours(others, 0);
        assert others[0] == head && head in all && head.prev in all && list in all;
        ListAddTail(list, head, others);
      }
    }
    assert rest == [rest[0]] + rest[1..];
    StepRing(head, done, rest, action);
  }

  /** What the ring then is. */
  lemma StepRing(head: Node, done: seq<Node>, rest: seq<Node>, action: Action)
    requires rest != []
    ensures var (done', rest') := Stepped(done, rest, action);
      [head] + done' + rest' == match action {
        case Keep => [head] + done + rest
        case Drop => [head] + done + rest[1..]
        case Requeue => [head] + done + rest[1..] + [rest[0]]
      }
  {
  }

  lemma AfterHere(head: Node, done: seq<Node>, rest: seq<Node>)
    requires rest != []
    ensures var ring := [head] + done + rest; After(ring, 1 + |done|) == if |rest| > 1 then rest[1] else head
  {
  }

  lemma RingApart(ring: seq<Node>, i: nat)
    requires Ring(ring) && i < |ring|
    ensures ring[i] !in ring[..i] + ring[i+1..]
  {
  }

  lemma OthersIn(ring: seq<Node>, i: nat)
    requires i < |ring|
    ensures forall x | x in ring[..i] + ring[i+1..] :: x in ring
  {
  }

  lemma RingLinks(ring: seq<Node>, i: nat)
    requires Ring(ring) && i < |ring|
    ensures Linked(ring, i) && (forall j | 0 < j < |ring| :: ring[j] != ring[0])
  {
  }

  lemma Neighbours(ring: seq<Node>, i: nat)
    requires i < |ring|
    ensures ring[i] in ring && After(ring, i) in ring && Before(ring, i) in ring
  {
  }

  lemma SteppedIn<T>(done: seq<T>, rest: seq<T>, action: Action)
    requires rest != []
    ensures var (done', rest') := Stepped(done, rest, action);
      forall x | x in done' + rest' :: x in done + rest
  {
  }

  lemma WalkStep<T>(visited: seq<T>, done: seq<T>, rest: seq<T>, act: nat -> Action, k: nat, limit: nat)
    requires rest != [] && forall j | j >= limit :: act(j) != Requeue
    ensures var (done', rest') := Stepped(done, rest, act(k));
      && visited + Walk(done, rest, act, k, limit).0 == visited + [rest[0]] + Walk(done', rest', act, k + 1, limit).0
      && Walk(done, rest, act, k, limit).1 == Walk(done', rest', act, k + 1, limit).1
  {
    hide Stepped;
  }

  lemma WalkEnd<T>(visited: seq<T>, done: seq<T>, act: nat -> Action, k: nat, limit: nat)
    requires forall j | j >= limit :: act(j) != Requeue
    ensures Walk(done, [], act, k, limit) == ([], done) && visited + [] == visited && [] + visited == visited
  {
  }

  /** list_for_each_safe over a ring, with a body that may delete the entry it is at or put it at the end of the
      list: the visits and the ring that is left are those of the walk over the sequence. From some visit on, no
      entry is re-entered. */
  method ForEachSafe(head: Node, act: nat -> Action, ghost limit: nat, ghost ring: seq<Node>) returns (visited: seq<Node>)
    requires Ring(ring) && |ring| > 0 && ring[0] == head && forall k | k >= limit :: act(k) != Requeue
    modifies ring
    ensures visited == Walk([], ring[1..], act, 0, limit).0 && Ring([head] + Walk([], ring[1..], act, 0, limit).1)
  {
    hide Walk, Ring, After, Stepped;
    visited := [];
    RingLinks(ring, 0);
    var list := head.next;
    var k := 0;
    ghost var done: seq<Node>, rest := [], ring[1..];
    ghost var walk := Walk(done, rest, act, 0, limit);
    assert ring == [head] + done + rest;
    FirstEntry(ring);
    WalkEnd(walk.0, done, act, 0, limit);
    while list != head
      invariant Ring([head] + done + rest) && (forall x | x in done + rest :: x in ring)
      invariant list == if rest == [] then head else rest[0]
      invariant visited + Walk(done, rest, act, k, limit).0 == walk.0 && Walk(done, rest, act, k, limit).1 == walk.1
      decreases if k < limit then limit - k else 0, |rest|
    {
      assert [head] + done + rest == [head] + (done + rest);
      WalkStep(visited, done, rest, act, k, limit);
      SteppedIn(done, rest, act(k));
      visited := visited + [list];
      assert ring[0] in ring;
      list := Visit(list, act(k), head, done, rest, ring);
      ghost var next := Stepped(done, rest, act(k));
      NextEntry(head, done, rest, act(k));
      done, rest, k := next.0, next.1, k + 1;
    }
    NoneLeft(head, done, rest);
    WalkEnd(visited, done, act, k, limit);
    assert [head] + done + [] == [head] + done;
  }

  lemma FirstEntry(ring: seq<Node>)
    requires |ring| > 0
    ensures After(ring, 0) == if ring[1..] == [] then ring[0] else ring[1..][0]
  {
  }

  lemma NextEntry(head: Node, done: seq<Node>, rest: seq<Node>, action: Action)
    requires rest != []
    ensures var rest' := Stepped(done, rest, action).1;
      (if rest' == [] then head else rest'[0]) == if |rest| > 1 then rest[1] else head
  {
  }

  lemma NoneLeft(head: Node, done: seq<Node>, rest: seq<Node>)
    requires Ring([head] + done + rest)
    ensures rest != [] ==> rest[0] != head
  {
    if rest != [] {
      var ring := [head] + done + rest;
      assert ring[0] == head && ring[1 + |done|] == rest[0];
    }
  }

  /** Without re-entries every entry is visited once, in order, and those that are not deleted stay. */
  lemma {:induction false} EachOnce<T>(done: seq<T>, rest: seq<T>, act: nat -> Action, k: nat, limit: nat)
    requires forall j :: act(j) != Requeue
    ensures Walk(done, rest, act, k, limit) == (rest, done + Kept(rest, act, k))
    decreases |rest|
  {
    hide Walk, Stepped, Kept;
    KeptNext(rest, act, k);
    if rest == [] {
      WalkEnd(done, done, act, k, limit);
    } else {
      var (done', rest') := Stepped(done, rest, act(k));
      StepsOnce(done, rest, act(k));
      WalkStep([], done, rest, act, k, limit);
      EachOnce(done', rest', act, k + 1, limit);
      WalkEnd(Walk(done, rest, act, k, limit).0, done, act, k, limit);
      assert [] + [rest[0]] + rest[1..] == rest;
      assert done + [rest[0]] + Kept(rest[1..], act, k + 1) == done + ([rest[0]] + Kept(rest[1..], act, k + 1));
    }
  }

  lemma StepsOnce<T>(done: seq<T>, rest: seq<T>, action: Action)
    requires rest != [] && action != Requeue
    ensures Stepped(done, rest, action) == (if action == Drop then done else done + [rest[0]], rest[1..])
  {
  }

  lemma KeptNext<T>(entries: seq<T>, act: nat -> Action, k: nat)
    ensures Kept(entries, act, k) ==
      if entries == [] then [] else if act(k) == Drop then Kept(entries[1..], act, k + 1) else [entries[0]] + Kept(entries[1..], act, k + 1)
  {
  }

  function Kept<T>(entries: seq<T>, act: nat -> Action, k: nat): seq<T> {
    if entries == [] then []
    else (if act(k) == Drop then [] else [entries[0]]) + Kept(entries[1..], act, k + 1)
  }

  /** With re-entries every entry is still visited, and no entry is lost but those that were deleted. */
  lemma {:induction false} NoneMissed<T>(done: seq<T>, rest: seq<T>, act: nat -> Action, k: nat, limit: nat)
    requires forall j | j >= limit :: act(j) != Requeue
    ensures var (visited, left) := Walk(done, rest, act, k, limit);
      && (forall x | x in rest :: x in visited)
      && (forall x | x in left :: x in done || x in visited)
      && ((forall j :: act(j) != Drop) ==> multiset(left) == multiset(done) + multiset(rest))
    decreases if k < limit then limit - k else 0, |rest|
  {
    if rest != [] {
      var x := rest[0];
      var (done', rest') := Stepped(done, rest, act(k));
      NoneMissed(done', rest', act, k + 1, limit);
      assert rest == [x] + rest[1..];
    }
  }
}
