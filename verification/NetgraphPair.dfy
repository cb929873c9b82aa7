/** Making a pair of hooks, and what is left when that fails (ng_mkpeer, ng_con_nodes and its two
    later parts, lib/ff_ng_base.c). */
module NetgraphPair {
  import opened NetgraphNet
  import opened NetgraphView
  import opened NetgraphDestroy
  import opened NetgraphConnect

  // ----- changes to the two hooks only

  /** t differs from s only in the hooks of out. */
  ghost predicate Touch(s: Net, t: Net, out: set<nat>) {
    && (forall k {:trigger Look(t, k)} | k !in out :: Look(t, k) == Look(s, k))
    && (forall m {:trigger Visit(t, m)} :: ShedVisit(Visit(t, m), out) == ShedVisit(Visit(s, m), out))
  }

  lemma TouchTwice(s: Net, t: Net, u: Net, out: set<nat>)
    requires Touch(s, t, out) && Touch(t, u, out)
    ensures Touch(s, u, out)
  {
    hide Look, Visit, ShedVisit;
    forall k | k !in out ensures Look(u, k) == Look(s, k) {
      assert Look(u, k) == Look(t, k);
    }
    forall m ensures ShedVisit(Visit(u, m), out) == ShedVisit(Visit(s, m), out) {
      assert ShedVisit(Visit(u, m), out) == ShedVisit(Visit(t, m), out);
    }
  }

  lemma TouchAdded(s: Net, n: nat, name: string, h: nat, out: set<nat>)
    requires n in s.nodes && h in out
    ensures Touch(s, Added(s, n, name, h), out)
  {
    FreshSeen(s, h, name);
    var t := Fresh(s, h, name);
    EnlistSeen(t, h, n);
    var u := Enlist(t, h, n);
    forall m ensures ShedVisit(Visit(u, m), out) == ShedVisit(Visit(s, m), out) {
      assert Visit(t, m) == Visit(s, m);
      if m == n {
        assert ([h] + s.nodes[n].hooks)[1..] == s.nodes[n].hooks;
      }
    }
  }

  lemma TouchEnlist(s: Net, h: nat, n: nat, out: set<nat>)
    requires h in s.hooks && n in s.nodes && h in out
    ensures Touch(s, Enlist(s, h, n), out)
  {
    EnlistSeen(s, h, n);
    var u := Enlist(s, h, n);
    forall m ensures ShedVisit(Visit(u, m), out) == ShedVisit(Visit(s, m), out) {
      if m == n {
        assert ([h] + s.nodes[n].hooks)[1..] == s.nodes[n].hooks;
      }
    }
  }

  /** Two hooks whose peers, if any, are each other. */
  ghost predicate PeersInside(s: Net, out: set<nat>) {
    forall h | h in out && h in s.hooks && s.hooks[h].peer.To? :: s.hooks[h].peer.h in out
  }

  lemma TouchShed(s: Net, t: Net, gone: set<nat>, out: set<nat>)
    requires Inv(s) && Shed(s, t, gone) && gone <= out && PeersInside(s, out)
    ensures Touch(s, t, out)
  {
    hide Inv, HookOk, NodeOk, Without;
    forall k | k !in out ensures Look(t, k) == Look(s, k) {
      if k in s.hooks {
        InvHook(s, k);
        HookOpened(s, k);
      }
    }
    forall m ensures ShedVisit(Visit(t, m), out) == ShedVisit(Visit(s, m), out) {
      if m in s.nodes {
        WithoutBoth(s.nodes[m].hooks, gone, out);
        assert gone + out == out;
      }
    }
  }

  /** Nothing is left of the two hooks: the state is as before. */
  lemma Restored(s: Net, t: Net, out: set<nat>)
    requires Inv(s) && Inv(t) && Touch(s, t, out) && t.held == s.held && t.pinned == s.pinned
    requires forall h | h in out :: h !in s.hooks && (Look(t, h).Gone? || Look(t, h) == Stripped(Look(t, h)))
    ensures s == t
  {
    hide Inv, HookOk, NodeOk, Without;
    forall k ensures Look(t, k) == Look(s, k) {
      if k in out && k in t.hooks {
        InvHook(t, k);
        HookOpened(t, k);
        NotHeld(s, k);
        assert false;
      }
    }
    forall m ensures Visit(t, m) == Visit(s, m) {
      assert ShedVisit(Visit(t, m), out) == ShedVisit(Visit(s, m), out);
      if m in s.nodes {
        InvNode(s, m);
        NodeOpened(s, m);
        WithoutNone(s.nodes[m].hooks, out);
      }
      if m in t.nodes {
        InvNode(t, m);
        NodeOpened(t, m);
        forall h | h in t.nodes[m].hooks ensures h !in out {
          assert Look(t, h) == Look(s, h);
        }
        WithoutNone(t.nodes[m].hooks, out);
      }
    }
    SameNet(s, t);
  }

  lemma NotHeld(s: Net, h: nat)
    requires Inv(s) && h !in s.hooks
    ensures s.held[h] == 0
  {
  }

  // ----- an item's references

  /** What ng_send_fn2 adds. */
  lemma ItemStarts(s: Net, n: nat, h: nat)
    requires Inv(s) && n in s.nodes && h in s.hooks
    ensures Inv(Pin(s, n)) && h in Pin(s, n).hooks
    ensures var u := Take(Pin(s, n), h);
      && Inv(u) && n in u.nodes && u.nodes[n].valid == s.nodes[n].valid && u.nodes[n].hooks == s.nodes[n].hooks
      && u.hooks.Keys == s.hooks.Keys && SeenWith(s, u, multiset{h}, multiset{n})
  {
    hide HookOk, NodeOk, Inv;
    PinKeeps(s, n);
    TakeKeeps(Pin(s, n), h);
    PinSeen(s, n);
    TakeSeen(Pin(s, n), h);
  }

  /** What ng_apply_item and ng_snd_item take back. */
  lemma ItemEnds(v: Net, n: nat, h: nat)
    requires Inv(v) && n in v.nodes && h in v.hooks && h in v.held && v.pinned[n] > 1
    ensures v.hooks[h].refs > 0
    ensures var w := Drop(v, h);
      && n in w.nodes && n in w.pinned && w.pinned[n] > 1 && w.nodes[n].refs > 0
      && (var t := Unpin(w, n);
          && Inv(t) && t.held == v.held - multiset{h} && t.pinned == v.pinned - multiset{n}
          && (forall k {:trigger Look(t, k)} :: Look(t, k) ==
                if k == h && v.held[h] == 1 && Look(v, h) == Stripped(Look(v, h)) && !v.hooks[h].valid then Gone else Look(v, k))
          && (forall m {:trigger Visit(t, m)} :: Visit(t, m) == Visit(v, m)))
  {
    hide HookOk, NodeOk, Inv, Drop, Unpin;
    InvHook(v, h);
    HookOpened(v, h);
    DropSeen(v, h);
    DropKeeps(v, h);
    var w := Drop(v, h);
    assert Visit(w, n) == Visit(v, n);
    InvNode(w, n);
    UnpinSeen(w, n);
    UnpinKeeps(w, n);
    forall k ensures Look(Unpin(w, n), k) == Look(w, k) {
    }
    forall m ensures Visit(Unpin(w, n), m) == Visit(v, m) {
      assert Visit(w, m) == Visit(v, m);
    }
  }

  lemma ItemBack(s: Net, u: Net, n: nat, h: nat)
    requires Inv(s) && Inv(u) && n in s.nodes && h in s.hooks && SeenWith(s, u, multiset{h}, multiset{n})
    ensures n in u.nodes && h in u.hooks && h in u.held && u.pinned[n] > 1 && u.hooks[h].refs > 0
    ensures var w := Drop(u, h);
      && n in w.nodes && n in w.pinned && w.pinned[n] > 1 && w.nodes[n].refs > 0 && Unpin(w, n) == s
  {
    hide HookOk, NodeOk, Inv, Drop, Unpin;
    InvHook(s, h);
    HookOpened(s, h);
    InvNode(s, n);
    NodeOpened(s, n);
    assert Look(u, h) == Look(s, h) && Visit(u, n) == Visit(s, n);
    ItemEnds(u, n, h);
    var t := Unpin(Drop(u, h), n);
    forall k ensures Look(t, k) == Look(s, k) {
      assert Look(u, k) == Look(s, k);
    }
    forall m ensures Visit(t, m) == Visit(s, m) {
      assert Visit(u, m) == Visit(s, m);
    }
    assert t.held == s.held && t.pinned == s.pinned;
    SameNet(s, t);
  }

  /** The hook is marked valid while an item holds it. */
  lemma MarkBack(s: Net, u: Net, n: nat, h: nat)
    requires Inv(s) && Inv(u) && n in s.nodes && h in s.hooks && h in u.hooks && s.hooks[h].node.At? && SeenWith(s, u, multiset{h}, multiset{n})
    ensures Inv(Mark(s, h, true)) && Inv(Mark(u, h, true))
    ensures SeenWith(Mark(s, h, true), Mark(u, h, true), multiset{h}, multiset{n})
  {
    hide HookOk, NodeOk, Inv, Mark;
    assert Look(u, h) == Look(s, h);
    MarkKeeps(s, h, true);
    MarkKeeps(u, h, true);
    MarkSeen(s, h, true);
    MarkSeen(u, h, true);
    SeenMarked(s, u, Mark(s, h, true), Mark(u, h, true), multiset{h}, multiset{n}, h);
  }

  lemma SeenMarked(s: Net, u: Net, s': Net, u': Net, holds: multiset<nat>, pins: multiset<nat>, h: nat)
    requires SeenWith(s, u, holds, pins)
    requires s'.held == s.held && SameNodes(s, s') && u'.held == u.held && SameNodes(u, u')
    requires forall k {:trigger Look(s', k)} :: Look(s', k) == if k == h then WithValid(Look(s, h), true) else Look(s, k)
    requires forall k {:trigger Look(u', k)} :: Look(u', k) == if k == h then WithValid(Look(u, h), true) else Look(u, k)
    ensures SeenWith(s', u', holds, pins)
  {
    hide Look, Visit;
    forall k ensures Look(u', k) == Look(s', k) {
      assert Look(u, k) == Look(s, k);
    }
    forall m ensures Visit(u', m) == Visit(s', m) {
      assert Visit(u, m) == Visit(s, m);
    }
  }

  /** A pair is finished by its second hook entering its node and both becoming valid. */
  function Finished(s: Net, h1: nat, h2: nat, n2: nat): Net
    requires h1 in s.hooks && h2 in s.hooks && n2 in s.nodes
  {
    Mark(Mark(Enlist(s, h2, n2), h1, true), h2, true)
  }

  lemma FinishedKeeps(s: Net, h1: nat, h2: nat, n2: nat)
    requires Inv(s) && h1 in s.hooks && h2 in s.hooks && n2 in s.nodes && h1 != h2 && s.hooks[h1].node.At? && s.hooks[h2].node == Nowhere
    ensures Inv(Finished(s, h1, h2, n2))
  {
    hide HookOk, NodeOk, Inv;
    EnlistKeeps(s, h2, n2);
    MarkKeeps(Enlist(s, h2, n2), h1, true);
    MarkKeeps(Mark(Enlist(s, h2, n2), h1, true), h2, true);
  }

  lemma FinishedSeen(s: Net, h1: nat, h2: nat, n2: nat)
    requires h1 in s.hooks && h2 in s.hooks && n2 in s.nodes && h1 != h2
    ensures var t := Finished(s, h1, h2, n2);
      && t.held == s.held && t.pinned == s.pinned
      && (forall k {:trigger Look(t, k)} :: Look(t, k) ==
            if k == h1 then WithValid(Look(s, h1), true)
            else if k == h2 then WithNode(WithValid(Look(s, h2), true), At(n2))
            else Look(s, k))
      && (forall m {:trigger Visit(t, m)} :: Visit(t, m) ==
            if m == n2 then Place([h2] + s.nodes[n2].hooks, s.nodes[n2].valid, s.nodes[n2].closing) else Visit(s, m))
  {
  }

  lemma FinishedBack(s: Net, u: Net, h1: nat, h2: nat, n2: nat)
    requires Inv(s) && Inv(u) && h1 != h2 && n2 in s.nodes && n2 in u.nodes
    requires h1 in s.hooks && h2 in s.hooks && h1 in u.hooks && h2 in u.hooks
    requires s.hooks[h1].node.At? && s.hooks[h2].node == Nowhere && SeenWith(s, u, multiset{h2}, multiset{n2})
    ensures Inv(Finished(s, h1, h2, n2)) && Inv(Finished(u, h1, h2, n2))
    ensures SeenWith(Finished(s, h1, h2, n2), Finished(u, h1, h2, n2), multiset{h2}, multiset{n2})
  {
    hide HookOk, NodeOk, Inv, Finished;
    assert Look(u, h1) == Look(s, h1) && Look(u, h2) == Look(s, h2) && Visit(u, n2) == Visit(s, n2);
    FinishedKeeps(s, h1, h2, n2);
    FinishedKeeps(u, h1, h2, n2);
    FinishedSeen(s, h1, h2, n2);
    FinishedSeen(u, h1, h2, n2);
    var s', u' := Finished(s, h1, h2, n2), Finished(u, h1, h2, n2);
    forall k ensures Look(u', k) == Look(s', k) {
      assert Look(u, k) == Look(s, k);
    }
    forall m ensures Visit(u', m) == Visit(s', m) {
      assert Visit(u, m) == Visit(s, m);
    }
  }

  /** The two hooks of a pair that is being made, held by their maker. */
  ghost predicate Making(s: Net, h1: nat, h2: nat) {
    && h1 != h2 && h1 in s.hooks && h2 in s.hooks && h1 in s.held && h2 in s.held
    && s.hooks[h1].peer == To(h2) && s.hooks[h2].peer == To(h1)
    && !s.hooks[h1].valid && !s.hooks[h2].valid
    && s.hooks[h1].node.At? && s.hooks[h1].node.n in s.nodes && s.nodes[s.hooks[h1].node.n].valid
  }

  /** The pair has been taken apart; only its maker still holds the hooks. */
  ghost predicate Unmade(s: Net, t: Net, h1: nat, h2: nat) {
    && t.held == s.held && t.pinned == s.pinned && Touch(s, t, {h1, h2})
    && h1 in t.hooks && h2 in t.hooks && Look(t, h1) == Stripped(Look(t, h1)) && Look(t, h2) == Stripped(Look(t, h2))
  }

  /** Destroying either of them takes the pair apart, if neither's node refuses. */
  lemma Unmakes(s: Net, t: Net, h1: nat, h2: nat, h: nat)
    requires Inv(s) && Making(s, h1, h2) && (h == h1 || h == h2) && !Refuses(s, s.hooks[h2].node)
    requires Shed(s, t, Zapped(s, h))
    ensures Unmade(s, t, h1, h2)
  {
    hide HookOk, NodeOk, Inv, Touch;
    assert Zapped(s, h) == {h1, h2};
    TouchShed(s, t, {h1, h2}, {h1, h2});
    assert Look(t, h1) == ShedLook(Look(s, h1), h1, {h1, h2}, s.held[h1]);
    assert Look(t, h2) == ShedLook(Look(s, h2), h2, {h1, h2}, s.held[h2]);
  }

  /** Destroying one once more changes nothing. */
  lemma UnmadeAgain(s: Net, t: Net, u: Net, h1: nat, h2: nat, h: nat)
    requires Inv(t) && Unmade(s, t, h1, h2) && (h == h1 || h == h2) && h1 in s.held && h2 in s.held
    requires Shed(t, u, Zapped(t, h))
    ensures Unmade(s, u, h1, h2)
  {
    hide HookOk, NodeOk, Inv, Touch;
    assert Zapped(t, h) == {h};
    TouchShed(t, u, {h}, {h1, h2});
    TouchTwice(s, t, u, {h1, h2});
    assert Look(u, h1) == ShedLook(Look(t, h1), h1, {h}, t.held[h1]);
    assert Look(u, h2) == ShedLook(Look(t, h2), h2, {h}, t.held[h2]);
  }

  /** What an unmade pair looks like once the item that carried h2 is gone. */
  lemma UnmadeBack(s: Net, u: Net, v: Net, t: Net, h1: nat, h2: nat, n2: nat)
    requires SeenWith(s, u, multiset{h2}, multiset{n2}) && Unmade(u, v, h1, h2) && h1 in s.held && h2 in s.held && h1 != h2
    requires t.held == v.held - multiset{h2} && t.pinned == v.pinned - multiset{n2}
    requires
      forall k {:trigger Look(t, k)} :: Look(t, k) ==
        if k == h2 && v.held[h2] == 1 && Look(v, h2) == Stripped(Look(v, h2)) && !v.hooks[h2].valid then Gone else Look(v, k)
    requires forall m {:trigger Visit(t, m)} :: Visit(t, m) == Visit(v, m)
    ensures Unmade(s, t, h1, h2)
  {
    hide Visit;
    assert t.held == s.held && t.pinned == s.pinned;
    forall k | k !in {h1, h2} ensures Look(t, k) == Look(s, k) {
      assert Look(u, k) == Look(s, k) && Look(v, k) == Look(u, k);
    }
    forall m ensures ShedVisit(Visit(t, m), {h1, h2}) == ShedVisit(Visit(s, m), {h1, h2}) {
      assert Visit(t, m) == Visit(v, m) && Visit(u, m) == Visit(s, m);
    }
    assert Look(t, h1) == Look(v, h1) && Look(t, h2) == Look(v, h2);
  }

  /** Making goes on in the view of the item. */
  lemma MakingSeen(s: Net, u: Net, h1: nat, h2: nat, n2: nat)
    requires Making(s, h1, h2) && SeenWith(s, u, multiset{h2}, multiset{n2}) && n2 in s.nodes
    ensures Making(u, h1, h2) && u.hooks[h1].node == s.hooks[h1].node && u.hooks[h2].node == s.hooks[h2].node
    ensures u.hooks[h2].name == s.hooks[h2].name && n2 in u.nodes && u.nodes[n2].valid == s.nodes[n2].valid
  {
    assert Look(u, h1) == Look(s, h1) && Look(u, h2) == Look(s, h2);
    assert Visit(u, s.hooks[h1].node.n) == Visit(s, s.hooks[h1].node.n) && Visit(u, n2) == Visit(s, n2);
  }

  lemma TakenSeen(s: Net, u: Net, n2: nat, name: string)
    requires n2 in s.nodes && n2 in u.nodes && Visit(u, n2) == Visit(s, n2)
    requires forall h | h in s.nodes[n2].hooks :: Look(u, h) == Look(s, h)
    ensures Taken(u, n2, name) == Taken(s, n2, name)
  {
    forall h | h in s.nodes[n2].hooks ensures Named(u, h, name) == Named(s, h, name) {
      assert Look(u, h) == Look(s, h);
    }
  }

  lemma UnmadeTouch(s: Net, t: Net, u: Net, h1: nat, h2: nat)
    requires Touch(s, t, {h1, h2}) && t.held == s.held && t.pinned == s.pinned && Unmade(t, u, h1, h2)
    ensures Unmade(s, u, h1, h2)
  {
    TouchTwice(s, t, u, {h1, h2});
  }

  lemma MakingEnlisted(s: Net, h1: nat, h2: nat, n2: nat)
    requires Making(s, h1, h2) && n2 in s.nodes && s.nodes[n2].valid
    ensures var t := Enlist(s, h2, n2);
      && Making(t, h1, h2) && !Refuses(t, t.hooks[h2].node) && Touch(s, t, {h1, h2}) && t.held == s.held && t.pinned == s.pinned
  {
    TouchEnlist(s, h2, n2, {h1, h2});
  }

  lemma UnmadeThere(s: Net, t: Net, h1: nat, h2: nat)
    requires Unmade(s, t, h1, h2)
    ensures h1 in t.hooks && h2 in t.hooks && t.held == s.held && t.pinned == s.pinned
  {
  }

  lemma MakingHas(s: Net, h1: nat, h2: nat)
    requires Making(s, h1, h2)
    ensures h1 != h2 && h1 in s.hooks && h2 in s.hooks && h1 in s.held && h2 in s.held && s.hooks[h1].node.At?
  {
  }

  lemma TakenSame(s: Net, u: Net, n2: nat, name: string, h2: nat)
    requires n2 in s.nodes && n2 in u.nodes && SeenWith(s, u, multiset{h2}, multiset{n2})
    ensures Taken(u, n2, name) == Taken(s, n2, name)
  {
    TakenSeen(s, u, n2, name);
  }

  lemma FinishedHas(s: Net, h1: nat, h2: nat, n2: nat)
    requires h1 in s.hooks && h2 in s.hooks && n2 in s.nodes
    ensures h2 in Finished(s, h1, h2, n2).hooks && n2 in Finished(s, h1, h2, n2).nodes
  {
  }

  lemma UnmadeItem(s: Net, u: Net, v: Net, h1: nat, h2: nat, n2: nat)
    requires Inv(s) && n2 in s.nodes && SeenWith(s, u, multiset{h2}, multiset{n2}) && Unmade(u, v, h1, h2)
    ensures n2 in v.nodes && h2 in v.hooks && h2 in v.held && v.pinned[n2] > 1
  {
    hide HookOk, NodeOk, Inv;
    InvNode(s, n2);
    NodeOpened(s, n2);
    assert Visit(u, n2) == Visit(s, n2);
    assert ShedVisit(Visit(v, n2), {h1, h2}) == ShedVisit(Visit(u, n2), {h1, h2});
  }

  // ----- the whole operations

  /** What the types of the two nodes say to the new hooks and to the connection. */
  datatype Vetoes = Vetoes(new1: bool, new2: bool, connect1: bool, connect2: bool)

  function ConnectError(s: Net, n: nat, name: string, n2: nat, name2: string, veto: Vetoes): Error
    requires n in s.nodes && n2 in s.nodes
  {
    if Taken(s, n2, name2) || Taken(s, n, name) then Eexist
    else if veto.new1 then Vetoed
    else if !s.nodes[n2].valid then Einval
    else if veto.new2 || veto.connect2 || veto.connect1 then Vetoed
    else Ok
  }

  /** What the error says, in terms of the names in use and of the four vetoes. */
  lemma ConnectMeans(s: Net, n: nat, name: string, n2: nat, name2: string, veto: Vetoes)
    requires n in s.nodes && n2 in s.nodes
    ensures var e := ConnectError(s, n, name, n2, name2, veto);
      var free :=
        && (forall h | h in s.nodes[n].hooks && h in s.hooks && s.hooks[h].valid :: s.hooks[h].name != name)
        && (forall h | h in s.nodes[n2].hooks && h in s.hooks && s.hooks[h].valid :: s.hooks[h].name != name2);
      && (e == Ok <==> free && s.nodes[n2].valid && !veto.new1 && !veto.new2 && !veto.connect1 && !veto.connect2)
      && (e == Eexist <==> !free)
      && (e == Einval <==> free && !veto.new1 && !s.nodes[n2].valid)
      && e != Enxio
  {
    FreeMeans(s, n, name);
    FreeMeans(s, n2, name2);
    hide Taken, Named;
  }

  lemma FreeMeans(s: Net, n: nat, name: string)
    requires n in s.nodes
    ensures !Taken(s, n, name) <==> (forall h | h in s.nodes[n].hooks && h in s.hooks && s.hooks[h].valid :: s.hooks[h].name != name)
  {
    if !Taken(s, n, name) {
      forall h | h in s.nodes[n].hooks && h in s.hooks && s.hooks[h].valid ensures s.hooks[h].name != name {
        assert !Named(s, h, name);
      }
    }
  }

  function Longer(nodes: map<nat, Node>, n: nat, h: nat): map<nat, Node>
    requires n in nodes
  {
    var d := nodes[n];
    nodes[n := d.(hooks := [h] + d.hooks, numhooks := d.numhooks + 1, refs := d.refs + 1)]
  }

  /** Two new hooks that are each other's peer. */
  function Linked(s: Net, n: nat, name: string, h1: nat, n2: nat, name2: string, h2: nat): Net
    requires n in s.nodes && n2 in s.nodes
  {
    s.(hooks := s.hooks[h1 := Hook(name, true, To(h2), At(n), 2)][h2 := Hook(name2, true, To(h1), At(n2), 2)],
       nodes := Longer(Longer(s.nodes, n, h1), n2, h2))
  }

  lemma LinkedMeans(s: Net, n: nat, name: string, h1: nat, n2: nat, name2: string, h2: nat)
    requires n in s.nodes && n2 in s.nodes
    ensures var t := Linked(s, n, name, h1, n2, name2, h2);
      && t.hooks == s.hooks[h1 := Hook(name, true, To(h2), At(n), 2)][h2 := Hook(name2, true, To(h1), At(n2), 2)]
      && n in t.nodes && n2 in t.nodes && h1 in t.nodes[n].hooks && h2 in t.nodes[n2].hooks
  {
  }

  /** The two hooks before the second has a node. */
  function Begun(s: Net, n: nat, name: string, name2: string, h1: nat, h2: nat): Net
    requires n in s.nodes && h1 != h2
  {
    Join(Fresh(Added(s, n, name, h1), h2, name2), h1, h2)
  }

  lemma ConnectStarts(s: Net, n: nat, name: string, n2: nat, name2: string, h1: nat, h2: nat)
    requires Inv(s) && n in s.nodes && s.nodes[n].valid && n2 in s.nodes && h1 !in s.hooks && h2 !in s.hooks && h1 != h2
    ensures Inv(Added(s, n, name, h1))
    ensures h1 in Added(s, n, name, h1).hooks && n in Added(s, n, name, h1).nodes && n2 in Added(s, n, name, h1).nodes && h2 !in Added(s, n, name, h1).hooks
    ensures var t := Begun(s, n, name, name2, h1, h2);
      && Inv(t) && Making(t, h1, h2) && t.hooks[h2].node == Nowhere && t.hooks[h2].name == name2
      && n2 in t.nodes && t.nodes[n2].valid == s.nodes[n2].valid && Taken(t, n2, name2) == Taken(s, n2, name2)
      && Touch(s, t, {h1, h2}) && t.held == s.held + multiset{h1, h2} && t.pinned == s.pinned
  {
    hide HookOk, NodeOk, Inv, Taken, Touch;
    FreshKeeps(s, h1, name);
    EnlistKeeps(Fresh(s, h1, name), h1, n);
    var a := Added(s, n, name, h1);
    FreshKeeps(a, h2, name2);
    var b := Fresh(a, h2, name2);
    JoinKeeps(b, h1, h2);
    var t := Join(b, h1, h2);
    assert multiset{h1} + multiset{h2} == multiset{h1, h2};
    BegunTouch(s, n, name, name2, h1, h2);
    BegunTaken(s, t, n, name2, n2, h1, h2);
  }

  lemma BegunTouch(s: Net, n: nat, name: string, name2: string, h1: nat, h2: nat)
    requires n in s.nodes && h1 != h2
    ensures Touch(s, Begun(s, n, name, name2, h1, h2), {h1, h2})
  {
    hide Added;
    TouchAdded(s, n, name, h1, {h1, h2});
    var a := Added(s, n, name, h1);
    AddedHas(s, n, name, h1);
    FreshSeen(a, h2, name2);
    var b := Fresh(a, h2, name2);
    JoinSeen(b, h1, h2);
    assert Touch(a, Join(b, h1, h2), {h1, h2});
    TouchTwice(s, a, Join(b, h1, h2), {h1, h2});
  }

  lemma AddedHas(s: Net, n: nat, name: string, h: nat)
    requires n in s.nodes
    ensures h in Added(s, n, name, h).hooks
  {
  }

  /** The hooks that are being made are not valid yet and take no name. */
  lemma BegunTaken(s: Net, t: Net, n: nat, name2: string, n2: nat, h1: nat, h2: nat)
    requires Inv(s) && n2 in s.nodes && n2 in t.nodes && Touch(s, t, {h1, h2}) && h1 !in s.hooks && h2 !in s.hooks
    requires h1 in t.hooks && h2 in t.hooks && !t.hooks[h1].valid && !t.hooks[h2].valid
    ensures Taken(t, n2, name2) == Taken(s, n2, name2)
  {
    hide HookOk, NodeOk, Inv;
    var out := {h1, h2};
    InvNode(s, n2);
    NodeOpened(s, n2);
    assert ShedVisit(Visit(t, n2), out) == ShedVisit(Visit(s, n2), out);
    WithoutIn(s.nodes[n2].hooks, out);
    WithoutIn(t.nodes[n2].hooks, out);
    forall h ensures Named(t, h, name2) && h in t.nodes[n2].hooks <==> Named(s, h, name2) && h in s.nodes[n2].hooks {
      if h !in out {
        assert Look(t, h) == Look(s, h);
        assert h in Without(t.nodes[n2].hooks, out) <==> h in Without(s.nodes[n2].hooks, out);
      }
    }
  }

  /** The makers drop their references and the pair has never been. */
  lemma Undone(s: Net, b: Net, t: Net, h1: nat, h2: nat)
    requires Inv(s) && Inv(t) && h1 !in s.hooks && h2 !in s.hooks && h1 != h2
    requires Touch(s, b, {h1, h2}) && b.held == s.held + multiset{h1, h2} && b.pinned == s.pinned && Unmade(b, t, h1, h2)
    ensures h1 in t.hooks && h1 in t.held && t.hooks[h1].refs > 0
    ensures var u := Drop(t, h1);
      && Inv(u) && h2 in u.hooks && h2 in u.held && u.hooks[h2].refs > 0 && Drop(u, h2) == s
  {
    hide HookOk, NodeOk, Inv, Drop, Touch;
    TouchTwice(s, b, t, {h1, h2});
    InvHook(t, h1);
    DropSeen(t, h1);
    DropKeeps(t, h1);
    var u := Drop(t, h1);
    assert Look(u, h2) == Look(t, h2);
    InvHook(u, h2);
    DropSeen(u, h2);
    DropKeeps(u, h2);
    var v := Drop(u, h2);
    assert v.held == s.held;
    TouchDropped(t, u, v, h1, h2);
    TouchTwice(s, t, v, {h1, h2});
    assert forall k :: Look(v, k).Gone? || Look(v, k) == Look(t, k);
    Restored(s, v, {h1, h2});
  }

  lemma TouchDropped(t: Net, u: Net, v: Net, h1: nat, h2: nat)
    requires SameNodes(t, u) && SameNodes(u, v)
    requires forall k {:trigger Look(u, k)} | k != h1 :: Look(u, k) == Look(t, k)
    requires forall k {:trigger Look(v, k)} | k != h2 :: Look(v, k) == Look(u, k)
    ensures Touch(t, v, {h1, h2})
  {
    hide Look, Visit;
    forall m ensures Visit(v, m) == Visit(t, m) {
      assert Visit(u, m) == Visit(t, m);
    }
  }

  lemma LinkedEnds(s: Net, n: nat, name: string, n2: nat, name2: string, h1: nat, h2: nat)
    requires Inv(s) && Usable(s) && Quiet(s) && n in s.nodes && s.nodes[n].valid && n2 in s.nodes && s.nodes[n2].valid
    requires h1 !in s.hooks && h2 !in s.hooks && h1 != h2
    ensures h1 in Begun(s, n, name, name2, h1, h2).hooks && h2 in Begun(s, n, name, name2, h1, h2).hooks && n2 in Begun(s, n, name, name2, h1, h2).nodes
    ensures var t := Finished(Begun(s, n, name, name2, h1, h2), h1, h2, n2);
      && h1 in t.hooks && h1 in t.held && t.hooks[h1].refs > 0
      && (var u := Drop(t, h1); h2 in u.hooks && h2 in u.held && u.hooks[h2].refs > 0 && Drop(u, h2) == Linked(s, n, name, h1, n2, name2, h2))
    ensures Usable(Linked(s, n, name, h1, n2, name2, h2)) && Quiet(Linked(s, n, name, h1, n2, name2, h2))
  {
    hide Inv, Usable, Quiet, Begun, Finished;
    BegunIs(s, n, name, name2, h1, h2);
    FinishedIs(Begun(s, n, name, name2, h1, h2), h1, h2, n2);
    LinkedKeeps(s, n, name, n2, name2, h1, h2);
    var t := Finished(Begun(s, n, name, name2, h1, h2), h1, h2, n2);
    var v, w := Drop(Drop(t, h1), h2), Linked(s, n, name, h1, n2, name2, h2);
    assert v.held == w.held;
    assert v.hooks == w.hooks;
  }

  lemma BegunIs(s: Net, n: nat, name: string, name2: string, h1: nat, h2: nat)
    requires n in s.nodes && h1 !in s.hooks && h2 !in s.hooks && h1 != h2
    ensures Begun(s, n, name, name2, h1, h2) ==
      Net(s.hooks[h1 := Hook(name, false, To(h2), At(n), 3)][h2 := Hook(name2, false, To(h1), Nowhere, 2)],
          Longer(s.nodes, n, h1), s.held + multiset{h1} + multiset{h2}, s.pinned)
  {
    assert Begun(s, n, name, name2, h1, h2).hooks == s.hooks[h1 := Hook(name, false, To(h2), At(n), 3)][h2 := Hook(name2, false, To(h1), Nowhere, 2)];
  }

  lemma FinishedIs(s: Net, h1: nat, h2: nat, n2: nat)
    requires h1 in s.hooks && h2 in s.hooks && n2 in s.nodes && h1 != h2
    ensures Finished(s, h1, h2, n2) ==
      Net(s.hooks[h1 := s.hooks[h1].(valid := true)][h2 := s.hooks[h2].(valid := true, node := At(n2), refs := s.hooks[h2].refs + 1)],
          Longer(s.nodes, n2, h2), s.held, s.pinned)
  {
    assert Finished(s, h1, h2, n2).hooks ==
      s.hooks[h1 := s.hooks[h1].(valid := true)][h2 := s.hooks[h2].(valid := true, node := At(n2), refs := s.hooks[h2].refs + 1)];
  }

  lemma LinkedKeeps(s: Net, n: nat, name: string, n2: nat, name2: string, h1: nat, h2: nat)
    requires Usable(s) && Quiet(s) && n in s.nodes && s.nodes[n].valid && n2 in s.nodes && s.nodes[n2].valid
    ensures Usable(Linked(s, n, name, h1, n2, name2, h2)) && Quiet(Linked(s, n, name, h1, n2, name2, h2))
  {
  }

  // ----- hook names

  /** On a node, valid hooks have different names. */
  ghost predicate Unique(s: Net) {
    forall h, k | h in s.hooks && k in s.hooks && s.hooks[h].valid && s.hooks[k].valid && s.hooks[h].node == s.hooks[k].node &&
                  s.hooks[h].name == s.hooks[k].name :: h == k
  }

  /** Connecting keeps the names of a node apart, except when a node is connected to itself with one
      and the same name for both hooks. */
  lemma LinkedUnique(s: Net, n: nat, name: string, n2: nat, name2: string, h1: nat, h2: nat)
    requires Inv(s) && Unique(s) && n in s.nodes && n2 in s.nodes && h1 !in s.hooks && h2 !in s.hooks && h1 != h2
    requires !Taken(s, n, name) && !Taken(s, n2, name2)
    ensures Unique(Linked(s, n, name, h1, n2, name2, h2)) <==> !(n == n2 && name == name2)
  {
    hide HookOk, NodeOk, Inv, Longer;
    var t := Linked(s, n, name, h1, n2, name2, h2);
    if n == n2 && name == name2 {
      assert t.hooks[h1].node == t.hooks[h2].node && t.hooks[h1].name == t.hooks[h2].name;
    } else {
      forall h, k | h in t.hooks && k in t.hooks && t.hooks[h].valid && t.hooks[k].valid && t.hooks[h].node == t.hooks[k].node &&
                    t.hooks[h].name == t.hooks[k].name
        ensures h == k
      {
        Untaken(s, n, name, h);
        Untaken(s, n, name, k);
        Untaken(s, n2, name2, h);
        Untaken(s, n2, name2, k);
      }
    }
  }

  lemma Untaken(s: Net, n: nat, name: string, h: nat)
    requires Inv(s) && n in s.nodes && !Taken(s, n, name)
    ensures h in s.hooks && s.hooks[h].valid && s.hooks[h].node == At(n) ==> s.hooks[h].name != name
  {
    hide HookOk, NodeOk, Inv;
    if h in s.hooks && s.hooks[h].valid && s.hooks[h].node == At(n) {
      InvHook(s, h);
      HookOpened(s, h);
      assert Named(s, h, s.hooks[h].name);
    }
  }

  /** Taking hooks away keeps names apart. */
  lemma ShedUnique(s: Net, t: Net, out: set<nat>)
    requires Unique(s) && forall k {:trigger Look(t, k)} :: Look(t, k) == ShedLook(Look(s, k), k, out, s.held[k])
    ensures Unique(t)
  {
    forall h, k | h in t.hooks && k in t.hooks && t.hooks[h].valid && t.hooks[k].valid && t.hooks[h].node == t.hooks[k].node &&
                  t.hooks[h].name == t.hooks[k].name
      ensures h == k
    {
      assert Look(t, h) == ShedLook(Look(s, h), h, out, s.held[h]) && Look(t, k) == ShedLook(Look(s, k), k, out, s.held[k]);
    }
  }

  lemma BypassUnique(s: Net, t: Net, a: nat, b: nat)
    requires Unique(s) && a in s.hooks && b in s.hooks && s.hooks[a].peer.To? && s.hooks[b].peer.To? && Bypassed(s, t, a, b)
    ensures Unique(t)
  {
    hide Visit;
    forall h, k | h in t.hooks && k in t.hooks && t.hooks[h].valid && t.hooks[k].valid && t.hooks[h].node == t.hooks[k].node &&
                  t.hooks[h].name == t.hooks[k].name
      ensures h == k
    {
      assert Look(t, h) == BypassedLook(s, a, b, h) && Look(t, k) == BypassedLook(s, a, b, k);
    }
  }
}
