/** What the operations that connect and bypass hooks (lib/ff_ng_base.c) mean, on states. */
module NetgraphConnect {
  import opened NetgraphNet
  import opened NetgraphView
  import opened NetgraphDestroy

  datatype Error = Ok | Eexist | Einval | Enxio | Vetoed

  /** A valid hook with that name. */
  predicate Named(s: Net, h: nat, name: string) {
    h in s.hooks && s.hooks[h].valid && s.hooks[h].name == name
  }

  /** The node has a valid hook with that name. */
  predicate Taken(s: Net, n: nat, name: string)
    requires n in s.nodes
  {
    exists h | h in s.nodes[n].hooks :: Named(s, h, name)
  }

  /** A new hook on the node, held by its creator. */
  function Added(s: Net, n: nat, name: string, h: nat): Net
    requires n in s.nodes
  {
    Enlist(Fresh(s, h, name), h, n)
  }

  /** Valid hooks have a peer. */
  ghost predicate Usable(s: Net) {
    forall h | h in s.hooks && s.hooks[h].valid :: s.hooks[h].peer.To?
  }

  /** Nodes that are being shut down have no hooks. */
  ghost predicate Quiet(s: Net) {
    forall n | n in s.nodes && !s.nodes[n].valid :: s.nodes[n].hooks == []
  }

  // ----- ng_bypass

  /** The two hooks are gone and their peers joined, if these were other hooks. */
  ghost predicate Bypassed(s: Net, t: Net, a: nat, b: nat)
    requires a in s.hooks && b in s.hooks && s.hooks[a].peer.To? && s.hooks[b].peer.To?
  {
    && t.held == s.held && t.pinned == s.pinned
    && (forall k {:trigger Look(t, k)} :: Look(t, k) == BypassedLook(s, a, b, k))
    && (forall n {:trigger Visit(t, n)} :: Visit(t, n) == ShedVisit(Visit(s, n), {a, b}))
  }

  function BypassedLook(s: Net, a: nat, b: nat, k: nat): Sight
    requires a in s.hooks && b in s.hooks && s.hooks[a].peer.To? && s.hooks[b].peer.To?
  {
    var p, q := s.hooks[a].peer.h, s.hooks[b].peer.h;
    if k == a || k == b then (if k in s.held then Stripped(Look(s, k)) else Gone)
    else if k == p then WithPeer(Look(s, p), To(q))
    else if k == q then WithPeer(Look(s, q), To(p))
    else Look(s, k)
  }

  lemma BridgeSeen(s: Net, a: nat, b: nat)
    requires a in s.hooks && b in s.hooks && HookOk(s, a) && HookOk(s, b) && s.hooks[a].peer.To? && s.hooks[b].peer.To? && a != b
    ensures var t, p, q := Bridge(s, a, b), s.hooks[a].peer.h, s.hooks[b].peer.h;
      && t.held == s.held + multiset{a, b} && SameNodes(s, t)
      && forall k {:trigger Look(t, k)} :: Look(t, k) ==
           if k == a || k == b then WithPeer(Look(s, k), Dead)
           else if k == p then WithPeer(Look(s, p), To(q))
           else if k == q then WithPeer(Look(s, q), To(p))
           else Look(s, k)
  {
  }

  /** After the link updates: the references of the two links go, and none of the two hooks with them. */
  lemma BypassDrops(s: Net, a: nat, b: nat)
    requires Inv(s) && a in s.hooks && b in s.hooks && a != b
    requires s.hooks[a].peer.To? && s.hooks[b].peer.To? && s.hooks[a].node.At? && s.hooks[b].node.At?
    ensures s.hooks[a].peer.h in s.hooks && s.hooks[b].peer.h in s.hooks
    ensures var x := Bridge(s, a, b);
      && Inv(x) && a in x.hooks && a in x.held && x.hooks[a].refs > 0
      && (var y := Drop(x, a);
          && Inv(y) && b in y.hooks && b in y.held && y.hooks[b].refs > 0
          && (var z := Drop(y, b);
              && Inv(z) && z.held == s.held && z.pinned == s.pinned && a in z.hooks && b in z.hooks
              && z.hooks[a].peer == Dead && z.hooks[b].peer == Dead
              && (forall k {:trigger Look(z, k)} :: Look(z, k) == Look(x, k))
              && (forall n {:trigger Visit(z, n)} :: Visit(z, n) == Visit(s, n))))
  {
    hide HookOk, NodeOk, Inv, Drop, Bridge;
    InvHook(s, a);
    InvHook(s, b);
    HookOpened(s, a);
    HookOpened(s, b);
    BridgeKeeps(s, a, b);
    BridgeSeen(s, a, b);
    var x := Bridge(s, a, b);
    assert Look(x, a).Seen? && Look(x, b).Seen?;
    InvHook(x, a);
    DropSeen(x, a);
    DropKeeps(x, a);
    var y := Drop(x, a);
    assert Look(y, b) == Look(x, b);
    InvHook(y, b);
    DropSeen(y, b);
    DropKeeps(y, b);
    var z := Drop(y, b);
    assert Look(z, a) == Look(x, a) && Look(z, b) == Look(x, b);
    assert z.held == s.held;
  }

  lemma {:induction false} ShedBoth(s: Net, t: Net, u: Net, a: set<nat>, b: set<nat>)
    requires Shed(s, t, a) && Shed(t, u, b)
    ensures Shed(s, u, a + b)
  {
    hide Look, Visit, Without;
    forall k ensures Look(u, k) == ShedLook(Look(s, k), k, a + b, s.held[k]) {
      assert Look(t, k) == ShedLook(Look(s, k), k, a, s.held[k]);
    }
    forall n ensures Visit(u, n) == ShedVisit(Visit(s, n), a + b) {
      if Visit(s, n).Place? {
        WithoutBoth(Visit(s, n).hooks, a, b);
      }
    }
  }

  lemma BypassBetween(s: Net, t: Net, a: nat, b: nat)
    requires a in s.hooks && b in s.hooks && a != b && s.hooks[a].peer == Dead && s.hooks[b].peer == Dead
    requires Shed(s, t, Zapped(s, a))
    ensures b in t.hooks && t.hooks[b].peer == Dead && Zapped(s, a) == {a} && Zapped(t, b) == {b}
  {
    hide Visit;
    assert Look(t, b) == Look(s, b);
  }

  lemma BypassEnds(s: Net, z: Net, t: Net, u: Net, a: nat, b: nat)
    requires Inv(s) && Inv(u) && Usable(s) && a in s.hooks && b in s.hooks && a != b
    requires HookOk(s, a) && HookOk(s, b) && s.hooks[a].peer.To? && s.hooks[b].peer.To?
    requires z.held == s.held && z.pinned == s.pinned
    requires forall k {:trigger Look(z, k)} :: Look(z, k) == Look(Bridge(s, a, b), k)
    requires forall n {:trigger Visit(z, n)} :: Visit(z, n) == Visit(s, n)
    requires Shed(z, t, {a}) && Shed(t, u, {b})
    ensures Bypassed(s, u, a, b) && Usable(u) && (Quiet(s) ==> Quiet(u))
  {
    hide HookOk, NodeOk, Inv, Look, Visit, Bridge, Shed, Without;
    ShedBoth(z, t, u, {a}, {b});
    assert {a} + {b} == {a, b};
    BypassSeen(s, z, u, a, b);
    BypassUsable(s, u, a, b);
    if Quiet(s) {
      ShedQuiet(s, u, {a, b});
    }
  }

  lemma BypassSeen(s: Net, z: Net, u: Net, a: nat, b: nat)
    requires Inv(s) && a in s.hooks && b in s.hooks && a != b
    requires HookOk(s, a) && HookOk(s, b) && s.hooks[a].peer.To? && s.hooks[b].peer.To?
    requires z.held == s.held && z.pinned == s.pinned
    requires forall k {:trigger Look(z, k)} :: Look(z, k) == Look(Bridge(s, a, b), k)
    requires forall n {:trigger Visit(z, n)} :: Visit(z, n) == Visit(s, n)
    requires Shed(z, u, {a, b})
    ensures Bypassed(s, u, a, b)
  {
    hide HookOk, NodeOk, Inv, Bridge, Visit, Without;
    HookOpened(s, a);
    HookOpened(s, b);
    BridgeSeen(s, a, b);
    forall k ensures Look(u, k) == BypassedLook(s, a, b, k) {
      if k in s.hooks {
        InvHook(s, k);
        HookOpened(s, k);
      }
      assert Look(z, k) == Look(Bridge(s, a, b), k);
    }
  }

  lemma BypassUsable(s: Net, u: Net, a: nat, b: nat)
    requires Usable(s) && a in s.hooks && b in s.hooks && s.hooks[a].peer.To? && s.hooks[b].peer.To?
    requires Bypassed(s, u, a, b)
    ensures Usable(u)
  {
    hide Visit;
    forall k | k in u.hooks && u.hooks[k].valid ensures u.hooks[k].peer.To? {
      assert Look(u, k) == BypassedLook(s, a, b, k);
    }
  }

  lemma ShedQuiet(s: Net, u: Net, out: set<nat>)
    requires Quiet(s)
    requires forall n {:trigger Visit(u, n)} :: Visit(u, n) == ShedVisit(Visit(s, n), out)
    ensures Quiet(u)
  {
    forall n | n in u.nodes && !u.nodes[n].valid ensures u.nodes[n].hooks == [] {
      assert Visit(u, n) == ShedVisit(Visit(s, n), out);
    }
  }
}
