/** Why ng_destroy_hook (lib/ff_ng_base.c) takes away a hook and its peer, and nothing else: its parts
    one after the other, on states. */
module NetgraphDestroy {
  import opened NetgraphNet
  import opened NetgraphView

  ghost predicate RemovedSelf(s: Net, t: Net, p: nat)
    requires p in s.hooks
  {
    if s.hooks[p].node == Nowhere || Refuses(s, s.hooks[p].node) then t == s else Shed(s, t, Zapped(s, p))
  }

  function PartedLook(s: Net, h: nat, k: nat): Sight
    requires h in s.hooks
  {
    if k != h then ShedLook(Look(s, k), k, Zapped(s, h), s.held[k])
    else if s.held[h] == 0 && s.hooks[h].node == Nowhere then Gone
    else WithPeer(Look(s, h), Dead)
  }

  /** The hooks have parted: h has no peer any more, the rest is as after destroying h. */
  ghost predicate Parted(s: Net, t: Net, h: nat, p: nat)
    requires h in s.hooks
  {
    && t.held == s.held && t.pinned == s.pinned
    && (forall k {:trigger Look(t, k)} :: Look(t, k) == PartedLook(s, h, k))
    && (forall n {:trigger Visit(t, n)} :: Visit(t, n) == ShedVisit(Visit(s, n), Zapped(s, h) - {h}))
  }

  lemma LeaveSteps(s: Net, h: nat)
    requires Inv(s) && h in s.hooks && s.hooks[h].node.At? && s.hooks[h].peer == Dead && !s.hooks[h].valid
    ensures var n := s.hooks[h].node.n;
      && n in s.nodes && s.nodes[n].numhooks > 0
      && (var s1 := Unlist(s, h);
          && Inv(s1) && n in s1.nodes && n in s1.pinned && s1.pinned[n] > 1 && s1.nodes[n].refs > 0
          && (var s2 := Unpin(s1, n);
              && h in s2.hooks && h in s2.held && s2.hooks[h].refs > 0
              && Shed(s, Drop(s2, h), {h})))
  {
    hide HookOk, NodeOk, Drop, Unpin, Unlist, Without, Shed;
    HookOpened(s, h);
    var n := s.hooks[h].node.n;
    NodeOpened(s, n);
    UnlistKeeps(s, h);
    UnlistSeen(s, h);
    var s1 := Unlist(s, h);
    assert Look(s1, h).Seen? && Visit(s1, n).Place?;
    UnpinSeen(s1, n);
    UnpinKeeps(s1, n);
    var s2 := Unpin(s1, n);
    assert Look(s2, h) == Look(s1, h);
    DropSeen(s2, h);
    LeaveShed(s, Drop(s2, h), h);
  }

  lemma LeaveShed(s: Net, t: Net, h: nat)
    requires Inv(s) && h in s.hooks && s.hooks[h].node.At? && s.hooks[h].peer == Dead && !s.hooks[h].valid
    requires t.held == s.held && t.pinned == s.pinned
    requires
      forall k {:trigger Look(t, k)} :: Look(t, k) ==
        if k == h then (if s.held[h] == 0 then Gone else WithNode(Look(s, h), Nowhere)) else Look(s, k)
    requires
      forall m {:trigger Visit(t, m)} :: Visit(t, m) ==
        if m == s.hooks[h].node.n && m in s.nodes then Visit(s, m).(hooks := Without(s.nodes[m].hooks, {h})) else Visit(s, m)
    ensures Shed(s, t, {h})
  {
    hide HookOk, NodeOk, Without;
    forall k ensures Look(t, k) == ShedLook(Look(s, k), k, {h}, s.held[k]) {
      if k in s.hooks {
        HookOpened(s, k);
      }
    }
    forall m ensures Visit(t, m) == ShedVisit(Visit(s, m), {h}) {
      if m in s.nodes && m != s.hooks[h].node.n {
        NodeOpened(s, m);
        WithoutNone(s.nodes[m].hooks, {h});
      }
    }
  }

  lemma RmhookStarts(s: Net, p: nat)
    requires Inv(s) && p in s.hooks && s.hooks[p].node.At?
    ensures var n := s.hooks[p].node.n;
      && n in s.nodes && Inv(Pin(s, n))
      && p in Pin(s, n).hooks
      && (var u := Take(Pin(s, n), p);
          && Inv(u) && p in u.hooks && n in u.nodes && u.hooks[p].peer == s.hooks[p].peer && u.hooks[p].node == s.hooks[p].node
          && u.nodes[n].valid == s.nodes[n].valid && Zapped(u, p) == Zapped(s, p)
          && SeenWith(s, u, multiset{p}, multiset{n}))
  {
    hide HookOk, NodeOk;
    HookOpened(s, p);
    var n := s.hooks[p].node.n;
    PinKeeps(s, n);
    TakeKeeps(Pin(s, n), p);
    assert Zapped(Take(Pin(s, n), p), p) == Zapped(s, p);
  }

  /** The same hooks and nodes, with some more references held. */
  ghost predicate SeenWith(s: Net, t: Net, holds: multiset<nat>, pins: multiset<nat>) {
    && t.held == s.held + holds && t.pinned == s.pinned + pins
    && (forall k {:trigger Look(t, k)} :: Look(t, k) == Look(s, k))
    && (forall m {:trigger Visit(t, m)} :: Visit(t, m) == Visit(s, m))
  }

  /** An item's references are dropped again once the hook was destroyed, or the item refused. */
  lemma RmhookEnds(s: Net, u: Net, v: Net, p: nat)
    requires Inv(s) && Inv(v) && p in s.hooks && s.hooks[p].node.At? && s.hooks[p].node.n in s.nodes
    requires SeenWith(s, u, multiset{p}, multiset{s.hooks[p].node.n})
    requires if s.nodes[s.hooks[p].node.n].valid then Shed(u, v, Zapped(s, p)) else v == u
    ensures var n := s.hooks[p].node.n;
      && p in v.hooks && p in v.held && v.hooks[p].refs > 0
      && (var w := Drop(v, p);
          && n in w.nodes && n in w.pinned && w.pinned[n] > 1 && w.nodes[n].refs > 0
          && RemovedSelf(s, Unpin(w, n), p))
  {
    hide HookOk, NodeOk, Drop, Unpin, Inv, RemovedSelf, Without;
    var n := s.hooks[p].node.n;
    InvNode(s, n);
    NodeOpened(s, n);
    assert Look(v, p) == if s.nodes[n].valid then Stripped(Look(s, p)) else Look(s, p) by {
      assert Look(u, p) == Look(s, p);
    }
    assert Visit(v, n).Place? by {
      assert Visit(u, n) == Visit(s, n);
    }
    InvHook(v, p);
    DropSeen(v, p);
    DropKeeps(v, p);
    var w := Drop(v, p);
    assert Visit(w, n).Place?;
    InvNode(w, n);
    UnpinSeen(w, n);
    UnpinKeeps(w, n);
    RmhookSeen(s, u, v, w, Unpin(w, n), p);
    RmhookDone(s, Unpin(w, n), p);
  }

  lemma RmhookSeen(s: Net, u: Net, v: Net, w: Net, t: Net, p: nat)
    requires p in s.hooks && s.hooks[p].node.At? && s.hooks[p].node.n in s.nodes
    requires SeenWith(s, u, multiset{p}, multiset{s.hooks[p].node.n})
    requires if s.nodes[s.hooks[p].node.n].valid then Shed(u, v, Zapped(s, p)) else v == u
    requires w.held == v.held - multiset{p} && SameNodes(v, w) && SameHooks(w, t)
    requires t.pinned == w.pinned - multiset{s.hooks[p].node.n} && forall m {:trigger Visit(t, m)} :: Visit(t, m) == Visit(w, m)
    requires
      forall k {:trigger Look(w, k)} :: Look(w, k) ==
        if k == p && v.held[p] == 1 && Look(v, p).Seen? && Look(v, p).peer == Dead && Look(v, p).node == Nowhere then Gone else Look(v, k)
    ensures t.held == s.held && t.pinned == s.pinned
    ensures forall k {:trigger Look(t, k)} :: Look(t, k) == SelfLook(s, p, k)
    ensures forall m {:trigger Visit(t, m)} :: Visit(t, m) == SelfVisit(s, p, m)
  {
    hide HookOk, NodeOk, Inv, Look, Visit, ShedVisit, ShedLook, Zapped;
    var refused := Refuses(s, s.hooks[p].node);
    assert v.held == u.held && v.pinned == u.pinned;
    ZappedSelf(s, p);
    forall k ensures Look(t, k) == SelfLook(s, p, k) {
      RmhookHook(s, v, w, p, k, refused);
      assert Look(t, k) == Look(w, k);
    }
    forall m ensures Visit(t, m) == SelfVisit(s, p, m) {
      assert Visit(t, m) == Visit(w, m) == Visit(v, m) && Visit(u, m) == Visit(s, m);
    }
  }

  function SelfLook(s: Net, p: nat, k: nat): Sight
    requires p in s.hooks
  {
    if Refuses(s, s.hooks[p].node) then Look(s, k) else ShedLook(Look(s, k), k, Zapped(s, p), s.held[k])
  }

  function SelfVisit(s: Net, p: nat, m: nat): Place
    requires p in s.hooks
  {
    if Refuses(s, s.hooks[p].node) then Visit(s, m) else ShedVisit(Visit(s, m), Zapped(s, p))
  }

  lemma RmhookDone(s: Net, t: Net, p: nat)
    requires Inv(s) && Inv(t) && p in s.hooks && s.hooks[p].node.At?
    requires t.held == s.held && t.pinned == s.pinned
    requires forall k {:trigger Look(t, k)} :: Look(t, k) == SelfLook(s, p, k)
    requires forall m {:trigger Visit(t, m)} :: Visit(t, m) == SelfVisit(s, p, m)
    ensures RemovedSelf(s, t, p)
  {
    hide Inv, Look, Visit, ShedVisit, ShedLook, Zapped;
    if Refuses(s, s.hooks[p].node) {
      SameNet(s, t);
    }
  }

  lemma RmhookHook(s: Net, v: Net, w: Net, p: nat, k: nat, refused: bool)
    requires p in s.hooks && s.hooks[p].node.At? && p in Zapped(s, p)
    requires v.held == s.held + multiset{p}
    requires Look(v, k) == if refused then Look(s, k) else ShedLook(Look(s, k), k, Zapped(s, p), v.held[k])
    requires Look(w, k) ==
      if k == p && v.held[p] == 1 && Look(v, p).Seen? && Look(v, p).peer == Dead && Look(v, p).node == Nowhere then Gone else Look(v, k)
    ensures Look(w, k) == if refused then Look(s, k) else ShedLook(Look(s, k), k, Zapped(s, p), s.held[k])
  {
    hide Zapped;
    assert v.held[k] == s.held[k] + One(k == p);
  }

  lemma ZappedSelf(s: Net, h: nat)
    requires h in s.hooks
    ensures h in Zapped(s, h)
  {
  }

  lemma InvHook(s: Net, h: nat)
    requires Inv(s) && h in s.hooks
    ensures HookOk(s, h)
  {
  }

  lemma InvNode(s: Net, n: nat)
    requires Inv(s) && n in s.nodes
    ensures NodeOk(s, n)
  {
  }

  lemma PartSteps(s: Net, x: Net, h: nat, p: nat)
    requires Inv(s) && h in s.hooks && s.hooks[h].peer == To(p) && !s.hooks[h].valid && p in s.hooks
    requires Inv(x) && RemovedSelf(Cut(s, h, p), x, p)
    ensures p in x.hooks && p in x.held && x.hooks[p].refs > 0
    ensures var y := Drop(x, p);
      && h in y.hooks && h in y.held && y.hooks[h].refs > 0
      && Parted(s, Drop(y, h), h, p)
  {
    hide HookOk, NodeOk, Drop, Inv, Cut, Parted, Shed;
    InvHook(s, h);
    HookOpened(s, h);
    CutSeen(s, h, p);
    PartSeen(s, x, h, p);
    InvHook(s, p);
    HookOpened(s, p);
    assert Look(x, p).Seen? && Look(x, h).Seen?;
    InvHook(x, p);
    DropSeen(x, p);
    DropKeeps(x, p);
    var y := Drop(x, p);
    assert Look(y, h).Seen?;
    InvHook(y, h);
    DropSeen(y, h);
    PartEnds(s, Drop(y, h), h, p);
  }

  /** What one sees once the peer had its message. */
  function Messaged(s: Net, h: nat, p: nat, k: nat): Sight
    requires h in s.hooks && p in s.hooks
  {
    if k == h then WithPeer(Look(s, h), Dead)
    else if k != p then Look(s, k)
    else if p in Zapped(s, h) then Stripped(Look(s, p))
    else WithPeer(Look(s, p), Dead)
  }

  lemma PartSeen(s: Net, x: Net, h: nat, p: nat)
    requires Inv(s) && h in s.hooks && s.hooks[h].peer == To(p) && p in s.hooks && h != p
    requires RemovedSelf(Cut(s, h, p), x, p)
    ensures x.held == s.held + multiset{h, p} && x.pinned == s.pinned
    ensures forall k {:trigger Look(x, k)} :: Look(x, k) == Messaged(s, h, p, k)
    ensures forall n {:trigger Visit(x, n)} :: Visit(x, n) == ShedVisit(Visit(s, n), Zapped(s, h) - {h})
  {
    hide HookOk, NodeOk, Inv, Without;
    var t := Cut(s, h, p);
    CutSeen(s, h, p);
    InvHook(s, h);
    HookOpened(s, h);
    InvHook(s, p);
    HookOpened(s, p);
    assert Zapped(t, p) == {p};
    forall k ensures Look(x, k) == Messaged(s, h, p, k) {
      if k in s.hooks {
        InvHook(s, k);
        HookOpened(s, k);
      }
      assert Look(t, k) == if k == h || k == p then WithPeer(Look(s, k), Dead) else Look(s, k);
    }
    forall n ensures Visit(x, n) == ShedVisit(Visit(s, n), Zapped(s, h) - {h}) {
      assert Visit(t, n) == Visit(s, n);
      PartPlace(s, h, p, n);
    }
  }

  lemma PartPlace(s: Net, h: nat, p: nat, n: nat)
    requires Inv(s) && h in s.hooks && s.hooks[h].peer == To(p) && p in s.hooks && h != p
    ensures Zapped(s, h) - {h} == if Refuses(s, s.hooks[p].node) then {} else {p}
    ensures s.hooks[p].node == Nowhere || Refuses(s, s.hooks[p].node) ==>
        ShedVisit(Visit(s, n), Zapped(s, h) - {h}) == Visit(s, n)
  {
    hide HookOk, NodeOk, Inv, Without;
    if n in s.nodes && (s.hooks[p].node == Nowhere || Refuses(s, s.hooks[p].node)) {
      InvNode(s, n);
      NodeOpened(s, n);
      WithoutNone(s.nodes[n].hooks, Zapped(s, h) - {h});
    }
  }

  lemma PartEnds(s: Net, t: Net, h: nat, p: nat)
    requires Inv(s) && h in s.hooks && s.hooks[h].peer == To(p) && p in s.hooks && h != p && !s.hooks[h].valid
    requires t.held == s.held && t.pinned == s.pinned
    requires
      forall k {:trigger Look(t, k)} :: Look(t, k) ==
        if (k == h || k == p) && s.held[k] == 0 && Messaged(s, h, p, k).peer == Dead && Messaged(s, h, p, k).node == Nowhere then Gone
        else Messaged(s, h, p, k)
    requires forall n {:trigger Visit(t, n)} :: Visit(t, n) == ShedVisit(Visit(s, n), Zapped(s, h) - {h})
    ensures Parted(s, t, h, p)
  {
    hide HookOk, NodeOk, Inv, Without;
    InvHook(s, h);
    HookOpened(s, h);
    InvHook(s, p);
    HookOpened(s, p);
    forall k ensures Look(t, k) == PartedLook(s, h, k) {
      if k in s.hooks {
        InvHook(s, k);
        HookOpened(s, k);
      }
    }
  }

  /** The part before the hook leaves its node. */
  lemma DestroyMiddle(s: Net, t: Net, h: nat)
    requires Inv(s) && h in s.hooks && Inv(t)
    requires if s.hooks[h].peer.To? then Parted(Mark(s, h, false), t, h, s.hooks[h].peer.h) else t == Mark(s, h, false)
    ensures s.hooks[h].node.At? ==> Look(t, h) == WithPeer(WithValid(Look(s, h), false), Dead)
  {
    hide HookOk, NodeOk, Inv, Without;
  }

  lemma DestroyEnds(s: Net, t: Net, u: Net, h: nat)
    requires Inv(s) && h in s.hooks && Inv(t)
    requires if s.hooks[h].peer.To? then Parted(Mark(s, h, false), t, h, s.hooks[h].peer.h) else t == Mark(s, h, false)
    requires if s.hooks[h].node.At? then Shed(t, u, {h}) else u == t
    ensures Shed(s, u, Zapped(s, h))
  {
    hide HookOk, NodeOk, Inv, Without;
    MarkSeen(s, h, false);
    var m := Mark(s, h, false);
    InvHook(s, h);
    HookOpened(s, h);
    var out := Zapped(s, h);
    assert Zapped(m, h) == out;
    forall k ensures Look(u, k) == ShedLook(Look(s, k), k, out, s.held[k]) {
      if k in s.hooks {
        InvHook(s, k);
        HookOpened(s, k);
      }
      assert Look(m, k) == if k == h then WithValid(Look(s, h), false) else Look(s, k);
      assert k in t.hooks || k !in t.hooks;
    }
    forall n ensures Visit(u, n) == ShedVisit(Visit(s, n), out) {
      assert Visit(m, n) == Visit(s, n);
      DestroyPlace(s, h, n);
    }
  }

  lemma DestroyPlace(s: Net, h: nat, n: nat)
    requires Inv(s) && h in s.hooks
    ensures ShedVisit(ShedVisit(Visit(s, n), Zapped(s, h) - {h}), {h}) == ShedVisit(Visit(s, n), Zapped(s, h))
    ensures s.hooks[h].node == Nowhere ==> ShedVisit(Visit(s, n), Zapped(s, h) - {h}) == ShedVisit(Visit(s, n), Zapped(s, h))
    ensures s.hooks[h].node == Nowhere && s.hooks[h].peer == Dead ==> ShedVisit(Visit(s, n), Zapped(s, h)) == Visit(s, n)
  {
    hide HookOk, NodeOk, Inv, Without;
    if n in s.nodes {
      var l, out := s.nodes[n].hooks, Zapped(s, h);
      InvNode(s, n);
      NodeOpened(s, n);
      WithoutBoth(l, out - {h}, {h});
      assert out - {h} + {h} == out;
      if s.hooks[h].node == Nowhere {
        WithoutIn(l, out - {h});
        WithoutNone(Without(l, out - {h}), {h});
        if s.hooks[h].peer == Dead {
          WithoutNone(l, {h});
        }
      }
    }
  }
}
