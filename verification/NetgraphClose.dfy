/** Why ng_rmnode (lib/ff_ng_base.c) takes away the hooks of the node and their peers. */
module NetgraphClose {
  import opened NetgraphNet
  import opened NetgraphView
  import opened NetgraphDestroy
  import opened NetgraphConnect

  /** The hook is on the node. */
  predicate On(s: Net, h: nat, n: nat) {
    h in s.hooks && s.hooks[h].node == At(n)
  }

  /** The hooks of the node and their peers. */
  function Zone(s: Net, n: nat): set<nat> {
    set h | h in s.hooks && (On(s, h, n) || (s.hooks[h].peer.To? && On(s, s.hooks[h].peer.h, n)))
  }

  /** With a hook its peer has gone as well, or will because it is on the same node. */
  ghost predicate Paired(s: Net, n: nat, out: set<nat>) {
    forall h | h in out && h in s.hooks && s.hooks[h].peer.To? :: s.hooks[h].peer.h in out || On(s, s.hooks[h].peer.h, n)
  }

  /** No node other than n refuses to have a hook destroyed. */
  ghost predicate QuietBut(s: Net, n: nat) {
    forall m | m in s.nodes && m != n && !s.nodes[m].valid :: s.nodes[m].hooks == []
  }

  ghost predicate Closing(s: Net, t: Net, n: nat, out: set<nat>) {
    Inv(s) && QuietBut(s, n) && n in s.nodes && !s.nodes[n].valid && Shed(s, t, out) && out <= Zone(s, n) && Paired(s, n, out)
  }

  lemma {:induction false} WithoutShorter(l: seq<nat>, out: set<nat>, x: nat)
    requires x in l && x in out
    ensures |Without(l, out)| < |l|
  {
    if l[0] in out {
      WithoutAtMost(l[1..], out);
    } else {
      WithoutShorter(l[1..], out, x);
    }
  }

  lemma {:induction false} WithoutAtMost(l: seq<nat>, out: set<nat>)
    ensures |Without(l, out)| <= |l|
  {
    if l != [] {
      WithoutAtMost(l[1..], out);
    }
  }

  lemma ClosingStarts(s: Net, n: nat)
    requires Inv(s) && QuietBut(s, n) && n in s.nodes && !s.nodes[n].valid
    ensures Closing(s, s, n, {})
  {
    hide Inv, Without;
    forall m ensures Visit(s, m) == ShedVisit(Visit(s, m), {}) {
      if m in s.nodes {
        WithoutNone(s.nodes[m].hooks, {});
      }
    }
  }

  lemma ClosingPlace(s: Net, t: Net, n: nat, out: set<nat>)
    requires Closing(s, t, n, out)
    ensures n in t.nodes && !t.nodes[n].valid && t.nodes[n].closing == s.nodes[n].closing && t.pinned == s.pinned
    ensures t.nodes[n].hooks == Without(s.nodes[n].hooks, out)
  {
    hide Inv, Look, Without;
    assert Visit(t, n) == ShedVisit(Visit(s, n), out);
  }

  /** One more hook of the node is destroyed. */
  lemma ClosingStep(s: Net, t: Net, u: Net, n: nat, out: set<nat>, h: nat)
    requires Closing(s, t, n, out) && Inv(t) && n in t.nodes && h in t.nodes[n].hooks
    requires h in t.hooks && Shed(t, u, Zapped(t, h))
    ensures Closing(s, u, n, out + Zapped(t, h))
    ensures n in u.nodes && |u.nodes[n].hooks| < |t.nodes[n].hooks|
  {
    hide Inv, HookOk, NodeOk, Without, Zone, Paired, Zapped, Look, Visit, Shed;
    ClosingSight(s, t, n, out, h);
    ClosingZap(s, t, n, out, h);
    ShedBoth(s, t, u, out, Zapped(t, h));
    ClosingPlace(s, u, n, out + Zapped(t, h));
    assert u.nodes[n].hooks == Without(t.nodes[n].hooks, Zapped(t, h)) by {
      ShedPlace(t, u, Zapped(t, h), n);
    }
    ZappedSelf(t, h);
    WithoutShorter(t.nodes[n].hooks, Zapped(t, h), h);
  }

  lemma ShedPlace(s: Net, t: Net, out: set<nat>, n: nat)
    requires Shed(s, t, out) && n in s.nodes
    ensures n in t.nodes && t.nodes[n].hooks == Without(s.nodes[n].hooks, out)
  {
    hide Look, Without;
    assert Visit(t, n) == ShedVisit(Visit(s, n), out);
  }

  lemma ClosingSight(s: Net, t: Net, n: nat, out: set<nat>, h: nat)
    requires Closing(s, t, n, out) && Inv(t) && n in t.nodes && h in t.nodes[n].hooks
    ensures h in s.hooks && h in t.hooks && On(s, h, n) && h !in out
    ensures t.hooks[h].peer == s.hooks[h].peer || (t.hooks[h].peer == Dead && s.hooks[h].peer.To? && s.hooks[h].peer.h in out)
  {
    hide Inv, HookOk, NodeOk, Without, Zone, Paired;
    ClosingPlace(s, t, n, out);
    WithoutIn(s.nodes[n].hooks, out);
    InvNode(s, n);
    NodeOpened(s, n);
    InvNode(t, n);
    NodeOpened(t, n);
    assert Look(t, h) == ShedLook(Look(s, h), h, out, s.held[h]);
  }

  lemma ClosingZap(s: Net, t: Net, n: nat, out: set<nat>, h: nat)
    requires Closing(s, t, n, out) && Inv(t) && h in s.hooks && h in t.hooks && On(s, h, n) && h !in out
    requires t.hooks[h].peer == s.hooks[h].peer || (t.hooks[h].peer == Dead && s.hooks[h].peer.To? && s.hooks[h].peer.h in out)
    ensures out + Zapped(t, h) <= Zone(s, n) && Paired(s, n, out + Zapped(t, h))
  {
    hide Inv, HookOk, NodeOk, Without, ShedVisit, ShedLook;
    InvHook(s, h);
    HookOpened(s, h);
    if s.hooks[h].peer.To? {
      ClosingPeer(s, t, n, out, h);
    }
    var out' := out + Zapped(t, h);
    forall k | k in out' && k in s.hooks && s.hooks[k].peer.To? ensures s.hooks[k].peer.h in out' || On(s, s.hooks[k].peer.h, n) {
      InvHook(s, k);
      HookOpened(s, k);
    }
  }

  /** The peer is destroyed with the hook, was destroyed before or is on the same node. */
  lemma ClosingPeer(s: Net, t: Net, n: nat, out: set<nat>, h: nat)
    requires Closing(s, t, n, out) && Inv(t) && h in s.hooks && h in t.hooks && On(s, h, n) && h !in out
    requires t.hooks[h].peer == s.hooks[h].peer || (t.hooks[h].peer == Dead && s.hooks[h].peer.To? && s.hooks[h].peer.h in out)
    requires s.hooks[h].peer.To?
    ensures var p := s.hooks[h].peer.h; p in Zapped(t, h) || p in out || On(s, p, n)
  {
    hide Inv, HookOk, NodeOk, Without, Zone, Paired;
    var p := s.hooks[h].peer.h;
    if p !in out && p !in Zapped(t, h) {
      InvHook(s, h);
      HookOpened(s, h);
      InvHook(t, p);
      HookOpened(t, p);
      var m := t.hooks[p].node.n;
      assert Look(t, p) == ShedLook(Look(s, p), p, out, s.held[p]);
      assert Visit(t, m) == ShedVisit(Visit(s, m), out);
      WithoutIn(s.nodes[m].hooks, out);
    }
  }

  /** The list is empty: the hooks of the node and their peers have gone. */
  lemma ClosingEnds(s: Net, t: Net, n: nat, out: set<nat>)
    requires Closing(s, t, n, out) && n in t.nodes && t.nodes[n].hooks == []
    ensures out == Zone(s, n)
  {
    hide Inv, HookOk, NodeOk, Without, Look, ShedLook;
    ClosingPlace(s, t, n, out);
    WithoutIn(s.nodes[n].hooks, out);
    forall h | h in Zone(s, n) ensures h in out {
      InvHook(s, h);
      HookOpened(s, h);
      if !On(s, h, n) {
        var p := s.hooks[h].peer.h;
        InvHook(s, p);
        HookOpened(s, p);
        assert p in out;
      }
    }
  }

  lemma ClosingShed(s: Net, t: Net, n: nat, out: set<nat>)
    requires Closing(s, t, n, out)
    ensures Shed(s, t, out)
  {
  }

  /** The node's hooks and their peers are gone; the node itself is freed if it dies and nobody else
      holds it, or is as new if its type wants to keep it. */
  ghost predicate Closed(s: Net, t: Net, n: nat, dies: bool) {
    && t.held == s.held && t.pinned == (if dies then s.pinned - multiset{n} else s.pinned)
    && (forall k {:trigger Look(t, k)} :: Look(t, k) == ShedLook(Look(s, k), k, Zone(s, n), s.held[k]))
    && (forall m {:trigger Visit(t, m)} :: Visit(t, m) ==
          if m != n then ShedVisit(Visit(s, m), Zone(s, n))
          else if !dies then Place([], true, false)
          else if s.pinned[n] == 1 then NoPlace
          else Place([], false, true))
  }

  lemma CloseStarts(s: Net, n: nat)
    requires Inv(s) && Quiet(s) && n in s.nodes
    ensures Inv(Pin(s, n)) && n in Pin(s, n).nodes
    ensures var s1 := Flag(Pin(s, n), n, false, true);
      && Inv(s1) && QuietBut(s1, n) && n in s1.nodes && !s1.nodes[n].valid && s1.nodes[n].closing
      && s1.pinned == s.pinned + multiset{n} && SameHooks(s, s1) && Zone(s1, n) == Zone(s, n)
      && (forall m {:trigger Visit(s1, m)} :: Visit(s1, m) == if m == n then Place(s.nodes[n].hooks, false, true) else Visit(s, m))
  {
    hide HookOk, NodeOk;
    PinKeeps(s, n);
    FlagKeeps(Pin(s, n), n, false, true);
    PinSeen(s, n);
    FlagSeen(Pin(s, n), n, false, true);
  }

  /** The end when the node dies: its own reference and the one of ng_rmnode go. */
  lemma CloseDies(s: Net, s1: Net, t: Net, n: nat)
    requires Inv(t) && n in s.nodes && n in t.nodes && n in s.pinned && t.nodes[n].hooks == []
    requires s1.pinned == s.pinned + multiset{n} && SameHooks(s, s1) && Zone(s1, n) == Zone(s, n)
    requires forall m {:trigger Visit(s1, m)} :: Visit(s1, m) == if m == n then Place(s.nodes[n].hooks, false, true) else Visit(s, m)
    requires Shed(s1, t, Zone(s, n))
    ensures n in t.pinned && t.nodes[n].refs > 0
    ensures var u := Unpin(t, n);
      && Inv(u) && n in u.nodes && n in u.pinned && u.nodes[n].hooks == [] && u.nodes[n].refs > 0
      && (var v := Unpin(u, n); Inv(v) && Closed(s, v, n, true))
  {
    hide HookOk, NodeOk, Unpin, Inv, Zone, Without, ShedLook, Look;
    InvNode(t, n);
    UnpinSeen(t, n);
    UnpinKeeps(t, n);
    var u := Unpin(t, n);
    assert Visit(u, n) == Visit(t, n);
    InvNode(u, n);
    UnpinSeen(u, n);
    UnpinKeeps(u, n);
    var v := Unpin(u, n);
    forall k ensures Look(v, k) == ShedLook(Look(s, k), k, Zone(s, n), s.held[k]) {
      assert Look(v, k) == Look(u, k) == Look(t, k) && Look(s1, k) == Look(s, k);
    }
    assert v.pinned == s.pinned - multiset{n};
    assert Visit(s1, n) == Place(s.nodes[n].hooks, false, true);
    assert Visit(t, n) == Place([], false, true);
    forall m | m != n ensures Visit(v, m) == ShedVisit(Visit(s, m), Zone(s, n)) {
      assert Visit(s1, m) == Visit(s, m) && Visit(v, m) == Visit(u, m) == Visit(t, m);
    }
  }

  /** The end when the type keeps the node. */
  lemma CloseSurvives(s: Net, s1: Net, t: Net, n: nat)
    requires Inv(t) && n in s.nodes && n in t.nodes && n in s.pinned && t.nodes[n].hooks == []
    requires s1.pinned == s.pinned + multiset{n} && SameHooks(s, s1) && Zone(s1, n) == Zone(s, n)
    requires forall m {:trigger Visit(s1, m)} :: Visit(s1, m) == if m == n then Place(s.nodes[n].hooks, false, true) else Visit(s, m)
    requires Shed(s1, t, Zone(s, n))
    ensures var u := Flag(t, n, true, false);
      && Inv(u) && n in u.nodes && n in u.pinned && u.nodes[n].hooks == [] && u.nodes[n].refs > 0
      && (var v := Unpin(u, n); Inv(v) && Closed(s, v, n, false))
  {
    hide HookOk, NodeOk, Unpin, Flag, Inv, Zone, Without, ShedLook, Look;
    FlagSeen(t, n, true, false);
    FlagKeeps(t, n, true, false);
    var u := Flag(t, n, true, false);
    assert Visit(u, n) == Place([], true, false);
    InvNode(u, n);
    NodeOpened(u, n);
    UnpinSeen(u, n);
    UnpinKeeps(u, n);
    var v := Unpin(u, n);
    forall k ensures Look(v, k) == ShedLook(Look(s, k), k, Zone(s, n), s.held[k]) {
      assert Look(v, k) == Look(u, k) == Look(t, k) && Look(s1, k) == Look(s, k);
    }
    assert v.pinned == s.pinned;
    forall m | m != n ensures Visit(v, m) == ShedVisit(Visit(s, m), Zone(s, n)) {
      assert Visit(s1, m) == Visit(s, m) && Visit(v, m) == Visit(u, m) == Visit(t, m);
    }
  }

  lemma ClosedKeeps(s: Net, t: Net, n: nat, dies: bool)
    requires Inv(s) && Usable(s) && Quiet(s) && Closed(s, t, n, dies)
    ensures Usable(t) && Quiet(t)
  {
    hide HookOk, NodeOk, Inv;
    forall k | k in t.hooks && t.hooks[k].valid ensures t.hooks[k].peer.To? {
      assert Look(t, k) == ShedLook(Look(s, k), k, Zone(s, n), s.held[k]);
      InvHook(s, k);
      HookOpened(s, k);
      var p := s.hooks[k].peer.h;
      InvHook(s, p);
      HookOpened(s, p);
    }
    forall m | m in t.nodes && !t.nodes[m].valid ensures t.nodes[m].hooks == [] {
      assert m != n ==> Visit(t, m) == ShedVisit(Visit(s, m), Zone(s, n));
      assert m == n ==> Visit(t, m).hooks == [];
    }
  }

  /** Shutting down a node without hooks. */
  lemma ClosedEmpty(s: Net, t: Net, n: nat, dies: bool)
    requires Inv(s) && Inv(t) && n in s.nodes && s.nodes[n] == Node([], 0, 1, true, false) && Closed(s, t, n, dies)
    ensures n in s.pinned && t == if dies then Unpin(s, n) else s
  {
    hide HookOk, NodeOk, Inv;
    InvNode(s, n);
    NodeOpened(s, n);
    ZoneEmpty(s, n);
    var u := if dies then Unpin(s, n) else s;
    UnpinKeeps(s, n);
    UnpinSeen(s, n);
    forall m ensures Visit(t, m) == Visit(u, m) {
      if m in s.nodes {
        WithoutNone(s.nodes[m].hooks, {});
      }
    }
    SameNet(u, t);
  }

  lemma ZoneEmpty(s: Net, n: nat)
    requires Inv(s) && n in s.nodes && s.nodes[n].hooks == []
    ensures Zone(s, n) == {}
  {
    hide HookOk, NodeOk, Inv;
    forall h ensures h !in Zone(s, n) {
      if h in s.hooks {
        InvHook(s, h);
        HookOpened(s, h);
        if s.hooks[h].peer.To? {
          InvHook(s, s.hooks[h].peer.h);
          HookOpened(s, s.hooks[h].peer.h);
        }
      }
    }
  }
}
