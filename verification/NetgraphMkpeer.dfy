/** ng_mkpeer (lib/ff_ng_base.c), on states: what it has built, and how the failing paths take it back. */
module NetgraphMkpeer {
  import opened NetgraphNet
  import opened NetgraphView
  import opened NetgraphDestroy
  import opened NetgraphConnect
  import opened NetgraphClose
  import opened NetgraphPair

  /** What ng_make_node finds under the type's name. */
  datatype Type = Unknown | NoConstructor | Constructs(veto: bool)

  function MkpeerError(s: Net, kind: Type, n: nat, name: string, veto: Vetoes): Error
    requires n in s.nodes
  {
    match kind
    case Unknown => Enxio
    case NoConstructor => Einval
    case Constructs(no) =>
      if no then Vetoed
      else if Taken(s, n, name) then Eexist
      else if veto.new1 || veto.new2 || veto.connect1 || veto.connect2 then Vetoed
      else Ok
  }

  /** What the error says, in terms of the type, the names in use and the four vetoes. */
  lemma MkpeerMeans(s: Net, kind: Type, n: nat, name: string, veto: Vetoes)
    requires n in s.nodes
    ensures var e := MkpeerError(s, kind, n, name, veto);
      var free := (forall h | h in s.nodes[n].hooks && h in s.hooks && s.hooks[h].valid :: s.hooks[h].name != name);
      && (e == Ok <==> kind == Constructs(false) && free && !veto.new1 && !veto.new2 && !veto.connect1 && !veto.connect2)
      && (e == Enxio <==> kind == Unknown)
      && (e == Einval <==> kind == NoConstructor)
      && (e == Eexist <==> kind == Constructs(false) && !free)
  {
    FreeMeans(s, n, name);
    hide Taken;
  }

  lemma MadeMeans(s: Net, n: nat, name: string, h1: nat, n2: nat, name2: string, h2: nat)
    requires n in s.nodes && n2 !in s.nodes
    ensures n in FreshNode(s, n2).nodes && n2 in FreshNode(s, n2).nodes
    ensures var t := Linked(FreshNode(s, n2), n, name, h1, n2, name2, h2);
      && t.hooks == s.hooks[h1 := Hook(name, true, To(h2), At(n), 2)][h2 := Hook(name2, true, To(h1), At(n2), 2)]
      && n in t.nodes && n2 in t.nodes && h1 in t.nodes[n].hooks && h2 in t.nodes[n2].hooks
  {
    hide Linked;
    LinkedMeans(FreshNode(s, n2), n, name, h1, n2, name2, h2);
  }

  lemma FreshNodeBack(s: Net, n: nat)
    requires Inv(s) && n !in s.nodes
    ensures n in FreshNode(s, n).pinned && Unpin(FreshNode(s, n), n) == s
  {
    assert FreshNode(s, n).nodes - {n} == s.nodes;
    assert s.pinned + multiset{n} - multiset{n} == s.pinned;
  }

  /** The new node is as it was made: shutting it down frees it, unless its type keeps it. */
  lemma NewNodeCloses(s: Net, t: Net, u: Net, n: nat, dies: bool)
    requires Inv(s) && Inv(t) && Inv(u) && n !in s.nodes
    requires t == FreshNode(s, n) && Closed(t, u, n, dies)
    ensures u == if dies then s else t
  {
    hide Inv, Closed;
    ClosedEmpty(t, u, n, dies);
    FreshNodeBack(s, n);
  }

  /** The same when the first hook is on its node already. */
  lemma NewNodeClosesAdded(s: Net, t: Net, u: Net, n: nat, name: string, h: nat, n2: nat, dies: bool)
    requires Inv(s) && Inv(t) && Inv(u) && n in s.nodes && n2 !in s.nodes && h !in s.hooks
    requires t == Added(FreshNode(s, n2), n, name, h) && Closed(t, u, n2, dies)
    ensures u == if dies then Added(s, n, name, h) else t
  {
    hide Inv, Closed, HookOk, NodeOk;
    NotPinned(s, n2);
    ClosedEmpty(t, u, n2, dies);
    if dies {
      assert u.nodes == Added(s, n, name, h).nodes;
      assert u.pinned == s.pinned;
    }
  }

  lemma NotPinned(s: Net, n: nat)
    requires Inv(s) && n !in s.nodes
    ensures s.pinned[n] == 0
  {
  }

  /** A single new hook is taken back. */
  lemma AddUndone(s: Net, n: nat, name: string, h: nat, t: Net)
    requires Inv(s) && n in s.nodes && h !in s.hooks && Inv(t)
    requires var a := Added(s, n, name, h); h in a.hooks && Inv(a) && Shed(a, t, Zapped(a, h))
    ensures h in t.hooks && h in t.held && t.hooks[h].refs > 0 && Drop(t, h) == s
  {
    hide Inv, HookOk, NodeOk, Drop, Shed;
    var a := Added(s, n, name, h);
    assert Zapped(a, h) == {h};
    TouchAdded(s, n, name, h, {h});
    TouchShed(a, t, {h}, {h});
    TouchTwice(s, a, t, {h});
    ShedHeld(a, t, h);
    InvHook(t, h);
    DropSeen(t, h);
    DropKeeps(t, h);
    var v := Drop(t, h);
    assert Touch(t, v, {h});
    TouchTwice(s, t, v, {h});
    assert v.held == s.held && v.pinned == s.pinned;
    assert Look(v, h).Gone? || Look(v, h) == Look(t, h);
    Restored(s, v, {h});
  }

  lemma ShedHeld(s: Net, t: Net, h: nat)
    requires Shed(s, t, {h}) && h in s.held && h in s.hooks
    ensures h in t.hooks && t.held == s.held && t.pinned == s.pinned && Look(t, h) == Stripped(Look(t, h))
  {
    hide Visit;
    assert Look(t, h) == ShedLook(Look(s, h), h, {h}, s.held[h]);
  }

  /** Both hooks on their nodes and linked. */
  function Coupled(s: Net, n: nat, name: string, n2: nat, name2: string, h1: nat, h2: nat): Net
    requires n in s.nodes && n2 in s.nodes && h1 != h2
  {
    Join(Added(Added(s, n, name, h1), n2, name2, h2), h1, h2)
  }

  lemma CoupledIs(s: Net, n: nat, name: string, n2: nat, name2: string, h1: nat, h2: nat)
    requires n in s.nodes && n2 in s.nodes && h1 !in s.hooks && h2 !in s.hooks && h1 != h2
    ensures var c := Coupled(s, n, name, n2, name2, h1, h2);
      && c.hooks == s.hooks[h1 := Hook(name, false, To(h2), At(n), 3)][h2 := Hook(name2, false, To(h1), At(n2), 3)]
      && c.nodes == Longer(Longer(s.nodes, n, h1), n2, h2)
      && c.held == s.held + multiset{h1} + multiset{h2} && c.pinned == s.pinned
  {
  }

  lemma CoupledMarked(s: Net, n: nat, name: string, n2: nat, name2: string, h1: nat, h2: nat)
    requires n in s.nodes && n2 in s.nodes && h1 !in s.hooks && h2 !in s.hooks && h1 != h2
    ensures var c, b := Coupled(s, n, name, n2, name2, h1, h2), Begun(s, n, name, name2, h1, h2);
      && h1 in c.hooks && h2 in c.hooks && h1 in b.hooks && h2 in b.hooks && n2 in b.nodes
      && Mark(Mark(c, h1, true), h2, true) == Finished(b, h1, h2, n2)
  {
    hide Coupled, Begun, Finished;
    CoupledIs(s, n, name, n2, name2, h1, h2);
    BegunIs(s, n, name, name2, h1, h2);
    FinishedIs(Begun(s, n, name, name2, h1, h2), h1, h2, n2);
    var c := Coupled(s, n, name, n2, name2, h1, h2);
    assert Mark(Mark(c, h1, true), h2, true).hooks == Finished(Begun(s, n, name, name2, h1, h2), h1, h2, n2).hooks;
  }

  lemma CoupledMakes(s: Net, n: nat, name: string, n2: nat, name2: string, h1: nat, h2: nat)
    requires Inv(s) && n in s.nodes && n2 in s.nodes && s.nodes[n].valid && s.nodes[n2].valid && h1 !in s.hooks && h2 !in s.hooks && h1 != h2
    ensures var c := Coupled(s, n, name, n2, name2, h1, h2);
      && Making(c, h1, h2) && !Refuses(c, c.hooks[h2].node) && Touch(s, c, {h1, h2}) && c.held == s.held + multiset{h1, h2} && c.pinned == s.pinned
  {
    hide Inv, HookOk, NodeOk, Touch, Coupled, Added;
    CoupledIs(s, n, name, n2, name2, h1, h2);
    var c := Coupled(s, n, name, n2, name2, h1, h2);
    assert multiset{h1} + multiset{h2} == multiset{h1, h2};
    CoupledTouch(s, n, name, n2, name2, h1, h2);
  }

  lemma CoupledTouch(s: Net, n: nat, name: string, n2: nat, name2: string, h1: nat, h2: nat)
    requires n in s.nodes && n2 in s.nodes && h1 !in s.hooks && h2 !in s.hooks && h1 != h2
    ensures Touch(s, Coupled(s, n, name, n2, name2, h1, h2), {h1, h2})
  {
    hide Without, ShedVisit;
    var out := {h1, h2};
    TouchAdded(s, n, name, h1, out);
    var a := Added(s, n, name, h1);
    TouchAdded(a, n2, name2, h2, out);
    var b := Added(a, n2, name2, h2);
    JoinSeen(b, h1, h2);
    assert Touch(b, Join(b, h1, h2), out);
    TouchTwice(s, a, b, out);
    TouchTwice(s, b, Join(b, h1, h2), out);
  }

  /** A pair taken apart leaves the other hooks usable and the lists as they were. */
  lemma UnmadeKeeps(s: Net, t: Net, h1: nat, h2: nat)
    requires Usable(s) && Quiet(s) && Inv(t) && Unmade(s, t, h1, h2)
    ensures Usable(t) && Quiet(t)
  {
    hide Inv, HookOk, NodeOk;
    forall k | k in t.hooks && t.hooks[k].valid ensures t.hooks[k].peer.To? {
      assert k !in {h1, h2} ==> Look(t, k) == Look(s, k);
      assert k in {h1, h2} ==> Look(t, k) == Stripped(Look(t, k));
    }
    forall m | m in t.nodes && !t.nodes[m].valid ensures t.nodes[m].hooks == [] {
      assert ShedVisit(Visit(t, m), {h1, h2}) == ShedVisit(Visit(s, m), {h1, h2});
      UnmadeList(s, t, h1, h2, m);
    }
  }

  lemma UnmadeList(s: Net, t: Net, h1: nat, h2: nat, m: nat)
    requires Inv(t) && Unmade(s, t, h1, h2) && m in t.nodes
    ensures m in s.nodes && t.nodes[m].valid == s.nodes[m].valid && t.nodes[m].closing == s.nodes[m].closing
    ensures t.nodes[m].hooks == Without(s.nodes[m].hooks, {h1, h2})
  {
    hide Inv, HookOk, NodeOk, Without;
    InvNode(t, m);
    NodeOpened(t, m);
    forall h | h in t.nodes[m].hooks ensures h !in {h1, h2} {
      assert Look(t, h).node == At(m);
    }
    WithoutNone(t.nodes[m].hooks, {h1, h2});
    assert ShedVisit(Visit(t, m), {h1, h2}) == ShedVisit(Visit(s, m), {h1, h2});
  }

  /** The new node after its pair was taken apart. */
  lemma UnmadeNewNode(s: Net, t: Net, n: nat, name: string, n2: nat, name2: string, h1: nat, h2: nat)
    requires Inv(s) && n in s.nodes && n2 !in s.nodes && h1 !in s.hooks && h2 !in s.hooks && h1 != h2 && Inv(t)
    requires Unmade(Coupled(FreshNode(s, n2), n, name, n2, name2, h1, h2), t, h1, h2)
    ensures n2 in t.nodes && t.nodes[n2] == Node([], 0, 1, true, false)
  {
    hide Inv, HookOk, NodeOk, Coupled, Unmade, Touch;
    var s1 := FreshNode(s, n2);
    CoupledIs(s1, n, name, n2, name2, h1, h2);
    var c := Coupled(s1, n, name, n2, name2, h1, h2);
    NotPinned(s, n2);
    UnmadeThere(c, t, h1, h2);
    UnmadePlace(c, t, h1, h2, n2);
    UnmadeList(c, t, h1, h2, n2);
    assert c.nodes[n2].hooks == [h2];
    InvNode(t, n2);
    NodeOpened(t, n2);
  }

  lemma UnmadePlace(s: Net, t: Net, h1: nat, h2: nat, m: nat)
    requires Unmade(s, t, h1, h2) && m in s.nodes
    ensures m in t.nodes
  {
    assert ShedVisit(Visit(t, m), {h1, h2}) == ShedVisit(Visit(s, m), {h1, h2});
  }

  /** The node is shut down, the makers drop their references, and nothing has happened. */
  lemma VetoEnds(s: Net, t: Net, u: Net, n: nat, name: string, n2: nat, name2: string, h1: nat, h2: nat, dies: bool)
    requires Inv(s) && n in s.nodes && s.nodes[n].valid && n2 !in s.nodes && h1 !in s.hooks && h2 !in s.hooks && h1 != h2
    requires Inv(FreshNode(s, n2)) && Inv(t) && Inv(u)
    requires Unmade(Coupled(FreshNode(s, n2), n, name, n2, name2, h1, h2), t, h1, h2) && Closed(t, u, n2, dies)
    ensures h1 in u.hooks && h1 in u.held && u.hooks[h1].refs > 0
    ensures var v := Drop(u, h1);
      && Inv(v) && h2 in v.hooks && h2 in v.held && v.hooks[h2].refs > 0 && Drop(v, h2) == if dies then s else FreshNode(s, n2)
  {
    hide Inv, HookOk, NodeOk, Coupled, Unmade, Touch, Closed, Drop, Unpin;
    var s1 := FreshNode(s, n2);
    var c := Coupled(s1, n, name, n2, name2, h1, h2);
    CoupledMakes(s1, n, name, n2, name2, h1, h2);
    UnmadeNewNode(s, t, n, name, n2, name2, h1, h2);
    ClosedEmpty(t, u, n2, dies);
    if dies {
      VetoUnpins(s, c, t, u, n2, h1, h2);
      Undone(s, u, u, h1, h2);
    } else {
      Undone(s1, c, t, h1, h2);
    }
  }

  lemma VetoUnpins(s: Net, c: Net, t: Net, u: Net, n2: nat, h1: nat, h2: nat)
    requires Inv(s) && n2 !in s.nodes && Inv(t) && Inv(u) && n2 in t.nodes && t.nodes[n2] == Node([], 0, 1, true, false) && n2 in t.pinned
    requires Touch(FreshNode(s, n2), c, {h1, h2}) && c.held == s.held + multiset{h1, h2} && c.pinned == FreshNode(s, n2).pinned
    requires Unmade(c, t, h1, h2) && u == Unpin(t, n2)
    ensures Touch(s, u, {h1, h2}) && u.held == s.held + multiset{h1, h2} && u.pinned == s.pinned && Unmade(u, u, h1, h2)
  {
    hide Inv, HookOk, NodeOk, Unpin, Without;
    var s1 := FreshNode(s, n2);
    FreshNodeSeen(s, n2);
    InvNode(t, n2);
    NodeOpened(t, n2);
    UnpinSeen(t, n2);
    assert u.pinned == s.pinned;
    forall k | k !in {h1, h2} ensures Look(u, k) == Look(s, k) {
      assert Look(u, k) == Look(t, k) == Look(c, k) == Look(s1, k) == Look(s, k);
    }
    forall m ensures ShedVisit(Visit(u, m), {h1, h2}) == ShedVisit(Visit(s, m), {h1, h2}) {
      if m != n2 {
        assert Visit(u, m) == Visit(t, m) && Visit(s1, m) == Visit(s, m);
        assert ShedVisit(Visit(t, m), {h1, h2}) == ShedVisit(Visit(c, m), {h1, h2});
      }
    }
    assert Look(u, h1) == Look(t, h1) && Look(u, h2) == Look(t, h2);
  }

  /** The new node has no hooks and no names. */
  lemma NewNodeUntaken(s: Net, n: nat, name: string, n2: nat, name2: string, h: nat)
    requires Inv(s) && n in s.nodes && n2 !in s.nodes
    ensures n in FreshNode(s, n2).nodes && Taken(FreshNode(s, n2), n, name) == Taken(s, n, name)
    ensures !Taken(FreshNode(s, n2), n2, name2) && !Taken(Added(FreshNode(s, n2), n, name, h), n2, name2)
  {
    hide Inv;
    forall k ensures Named(FreshNode(s, n2), k, name) == Named(s, k, name) {
    }
  }

  lemma MkpeerStarts(s: Net, n2: nat)
    requires Inv(s) && Usable(s) && Quiet(s) && n2 !in s.nodes
    ensures Inv(FreshNode(s, n2)) && Usable(FreshNode(s, n2)) && Quiet(FreshNode(s, n2))
  {
    hide Inv;
    FreshNodeKeeps(s, n2);
  }

  lemma AddedUsable(s: Net, n: nat, name: string, h: nat)
    requires Usable(s) && Quiet(s) && n in s.nodes && s.nodes[n].valid
    ensures Usable(Added(s, n, name, h)) && Quiet(Added(s, n, name, h))
  {
  }

  lemma CoupledUsable(s: Net, n: nat, name: string, n2: nat, name2: string, h1: nat, h2: nat)
    requires Usable(s) && Quiet(s) && n in s.nodes && s.nodes[n].valid && n2 in s.nodes && s.nodes[n2].valid
    requires h1 !in s.hooks && h2 !in s.hooks && h1 != h2
    ensures Usable(Coupled(s, n, name, n2, name2, h1, h2)) && Quiet(Coupled(s, n, name, n2, name2, h1, h2))
  {
    hide Coupled;
    CoupledIs(s, n, name, n2, name2, h1, h2);
  }

  lemma NewNodeHas(s: Net, n2: nat)
    requires Inv(s) && n2 !in s.nodes
    ensures var t := FreshNode(s, n2);
      n2 in t.nodes && t.nodes[n2].hooks == [] && t.nodes[n2].valid && !t.nodes[n2].closing && n2 in t.pinned && t.hooks == s.hooks &&
      forall n | n in s.nodes :: n in t.nodes && t.nodes[n] == s.nodes[n]
  {
  }

  lemma AddedKeys(s: Net, n: nat, name: string, h: nat)
    requires n in s.nodes
    ensures var t := Added(s, n, name, h);
      t.hooks.Keys == s.hooks.Keys + {h} && t.nodes.Keys == s.nodes.Keys &&
      forall m | m in s.nodes :: t.nodes[m].valid == s.nodes[m].valid && t.nodes[m].closing == s.nodes[m].closing
  {
  }

  lemma CoupledInv(s: Net, n: nat, name: string, n2: nat, name2: string, h1: nat, h2: nat)
    requires Inv(s) && n in s.nodes && n2 in s.nodes && h1 !in s.hooks && h2 !in s.hooks && h1 != h2
    requires Inv(Added(Added(s, n, name, h1), n2, name2, h2))
    ensures Inv(Coupled(s, n, name, n2, name2, h1, h2))
    ensures h1 in Coupled(s, n, name, n2, name2, h1, h2).hooks && h2 in Coupled(s, n, name, n2, name2, h1, h2).hooks
    ensures var a := Added(Added(s, n, name, h1), n2, name2, h2);
      h1 in a.hooks && h2 in a.hooks && Coupled(s, n, name, n2, name2, h1, h2) == Join(a, h1, h2)
  {
    hide Inv;
    JoinKeeps(Added(Added(s, n, name, h1), n2, name2, h2), h1, h2);
  }

  lemma CoupledHomes(s: Net, n: nat, name: string, n2: nat, name2: string, h1: nat, h2: nat)
    requires n in s.nodes && n2 in s.nodes && h1 !in s.hooks && h2 !in s.hooks && h1 != h2
    ensures var c := Coupled(s, n, name, n2, name2, h1, h2);
      h1 in c.hooks && h2 in c.hooks && c.hooks[h1].node == At(n) && c.hooks[h2].node == At(n2)
  {
    hide Coupled;
    CoupledIs(s, n, name, n2, name2, h1, h2);
  }
}
