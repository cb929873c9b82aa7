/** What the operations on hooks and nodes (lib/ff_ng_base.c) come to between two states in which nobody holds a
    reference: which hooks are there afterwards, with which peers, and which nodes. */
module NetgraphMeaning {
  import opened NetgraphNet
  import opened NetgraphView
  import opened NetgraphDestroy
  import opened NetgraphConnect
  import opened NetgraphClose
  import opened NetgraphHooks
  import opened NetgraphRun

  /** A hook of a state at rest is what one sees of it. */
  lemma SeenHook(s: Net, k: nat)
    requires Rest(s)
    ensures Look(s, k) == Gone <==> k !in s.hooks
    ensures k in s.hooks ==>
      && s.hooks[k] == Hook(Look(s, k).name, true, Look(s, k).peer, Look(s, k).node, 2)
      && s.hooks[k].peer.To? && s.hooks[k].peer.h in s.hooks && s.hooks[s.hooks[k].peer.h].peer == To(k)
  {
    hide Inv;
    RestCounts(s);
  }

  lemma NotHeld(s: Net, k: nat)
    requires Rest(s)
    ensures s.held[k] == 0
  {
  }

  /** The lists of the nodes lose the hooks that go, and no node goes. */
  lemma ShedNodes(s: Net, t: Net, out: set<nat>)
    requires forall n {:trigger Visit(t, n)} :: Visit(t, n) == ShedVisit(Visit(s, n), out)
    ensures t.nodes.Keys == s.nodes.Keys
  {
    forall n ensures n in t.nodes <==> n in s.nodes {
      assert Visit(t, n) == ShedVisit(Visit(s, n), out);
    }
  }

  lemma ShedList(s: Net, t: Net, out: set<nat>, n: nat)
    requires n in s.nodes && n in t.nodes && Visit(t, n) == ShedVisit(Visit(s, n), out)
    ensures forall k :: k in t.nodes[n].hooks <==> k in s.nodes[n].hooks && k !in out
  {
    WithoutIn(s.nodes[n].hooks, out);
  }

  // ----- ng_destroy_hook

  lemma BothZapped(s: Net, h: nat)
    requires Rest(s) && h in s.hooks && s.hooks[h].peer.To? && s.hooks[h].peer.h in s.hooks
    ensures Zapped(s, h) == {h, s.hooks[h].peer.h}
  {
    hide Inv;
    RestCounts(s);
  }

  /** Destroying a hook takes it and its peer away, and nothing else changes. */
  lemma HookGone(s: Net, t: Net, h: nat)
    requires Rest(s) && Rest(t) && h in s.hooks && Shed(s, t, Zapped(s, h))
    ensures s.hooks[h].peer.To? && t.hooks == s.hooks - {h, s.hooks[h].peer.h} && t.nodes.Keys == s.nodes.Keys
    ensures forall n | n in s.nodes && n in t.nodes ::
      forall k :: k in t.nodes[n].hooks <==> k in s.nodes[n].hooks && k != h && k != s.hooks[h].peer.h
  {
    hide Inv, Rest, Look;
    SeenHook(s, h);
    var out := {h, s.hooks[h].peer.h};
    assert Zapped(s, h) == out by {
      BothZapped(s, h);
    }
    forall k
      ensures k in t.hooks <==> k in s.hooks && k !in out
      ensures k in t.hooks ==> t.hooks[k] == s.hooks[k]
    {
      SeenHook(s, k);
      SeenHook(t, k);
      assert Look(t, k) == ShedLook(Look(s, k), k, out, s.held[k]);
      NotHeld(s, k);
    }
    assert t.hooks == s.hooks - out;
    ShedNodes(s, t, out);
    forall n | n in s.nodes && n in t.nodes
      ensures forall k :: k in t.nodes[n].hooks <==> k in s.nodes[n].hooks && k != h && k != s.hooks[h].peer.h
    {
      assert Visit(t, n) == ShedVisit(Visit(s, n), out);
      ShedList(s, t, out, n);
    }
  }

  // ----- ng_bypass

  /** A bypass takes the two hooks away and makes their peers each other's peer; two hooks that are each other's
      peer just go. */
  lemma HooksBypassed(s: Net, t: Net, a: nat, b: nat)
    requires Rest(s) && Rest(t) && a in s.hooks && b in s.hooks && a != b
    requires s.hooks[a].peer.To? && s.hooks[b].peer.To? && Bypassed(s, t, a, b)
    ensures t.nodes.Keys == s.nodes.Keys && t.hooks.Keys == s.hooks.Keys - {a, b}
    ensures var p, q := s.hooks[a].peer.h, s.hooks[b].peer.h;
      forall k | k in t.hooks && k in s.hooks ::
        t.hooks[k] == s.hooks[k].(peer := if k == p then To(q) else if k == q then To(p) else s.hooks[k].peer)
    ensures forall n | n in s.nodes && n in t.nodes ::
      forall k :: k in t.nodes[n].hooks <==> k in s.nodes[n].hooks && k != a && k != b
  {
    hide Inv, Rest, Look;
    var p, q := s.hooks[a].peer.h, s.hooks[b].peer.h;
    forall k
      ensures k in t.hooks <==> k in s.hooks && k != a && k != b
      ensures k in t.hooks && k in s.hooks ==>
        t.hooks[k] == s.hooks[k].(peer := if k == p then To(q) else if k == q then To(p) else s.hooks[k].peer)
    {
      SeenHook(s, k);
      SeenHook(t, k);
      assert Look(t, k) == BypassedLook(s, a, b, k);
      NotHeld(s, k);
    }
    assert t.hooks.Keys == s.hooks.Keys - {a, b};
    ShedNodes(s, t, {a, b});
    forall n | n in s.nodes && n in t.nodes
      ensures forall k :: k in t.nodes[n].hooks <==> k in s.nodes[n].hooks && k != a && k != b
    {
      assert Visit(t, n) == ShedVisit(Visit(s, n), {a, b});
      ShedList(s, t, {a, b}, n);
    }
  }

  // ----- ng_rmnode

  /** Shutting a node down takes its hooks and their peers away; all other hooks are untouched. The node is gone, or
      has no hooks if its type keeps it. */
  lemma NodeGone(s: Net, t: Net, n: nat, dies: bool)
    requires Rest(s) && Rest(t) && n in s.nodes && Closed(s, t, n, dies)
    ensures forall k :: k in t.hooks <==>
      && k in s.hooks && s.hooks[k].node != At(n)
      && s.hooks[k].peer.To? && s.hooks[k].peer.h in s.hooks && s.hooks[s.hooks[k].peer.h].node != At(n)
    ensures forall k | k in t.hooks && k in s.hooks :: t.hooks[k] == s.hooks[k]
    ensures t.nodes.Keys == (if dies then s.nodes.Keys - {n} else s.nodes.Keys)
    ensures !dies && n in t.nodes ==> t.nodes[n].hooks == []
  {
    hide Inv, Rest, Look, Zone;
    forall k
      ensures k in t.hooks <==> k in s.hooks && k !in Zone(s, n)
      ensures k in t.hooks && k in s.hooks ==> t.hooks[k] == s.hooks[k]
      ensures k in s.hooks ==> s.hooks[k].peer.To? && s.hooks[k].peer.h in s.hooks
      ensures k in s.hooks ==> (k in Zone(s, n) <==> s.hooks[k].node == At(n) || s.hooks[s.hooks[k].peer.h].node == At(n))
    {
      SeenHook(s, k);
      SeenHook(t, k);
      assert Look(t, k) == ShedLook(Look(s, k), k, Zone(s, n), s.held[k]);
      NotHeld(s, k);
      if k in s.hooks {
        InZone(s, k, n);
        PeersToo(s, k, n);
      }
    }
    forall m ensures m in t.nodes <==> m in s.nodes && (dies ==> m != n) {
      NodeAfter(s, t, n, dies, m);
    }
    NodeAfter(s, t, n, dies, n);
  }

  lemma InZone(s: Net, k: nat, n: nat)
    requires k in s.hooks && s.hooks[k].peer.To? && s.hooks[k].peer.h in s.hooks
    ensures k in Zone(s, n) <==> s.hooks[k].node == At(n) || s.hooks[s.hooks[k].peer.h].node == At(n)
  {
  }

  lemma PeersToo(s: Net, k: nat, n: nat)
    requires k in s.hooks && s.hooks[k].peer.To? && s.hooks[k].peer.h in s.hooks && s.hooks[s.hooks[k].peer.h].peer == To(k)
    ensures k in Zone(s, n) <==> s.hooks[k].peer.h in Zone(s, n)
  {
  }

  lemma NodeAfter(s: Net, t: Net, n: nat, dies: bool, m: nat)
    requires Rest(s) && n in s.nodes && Closed(s, t, n, dies)
    ensures m in t.nodes <==> m in s.nodes && (dies ==> m != n)
    ensures m == n && !dies ==> t.nodes[n].hooks == []
  {
    hide Inv, Look;
    assert Visit(t, m) ==
           if m != n then ShedVisit(Visit(s, m), Zone(s, n))
           else if !dies then Place([], true, false)
           else if s.pinned[n] == 1 then NoPlace
           else Place([], false, true);
  }

  // ----- whole operations

  /** The node has a hook with that name. */
  ghost predicate HasHook(s: Net, n: nat, name: string) {
    n in s.nodes && exists h | h in s.nodes[n].hooks :: h in s.hooks && s.hooks[h].name == name
  }

  lemma TakenIs(s: Net, n: nat, name: string)
    requires Rest(s)
    ensures HasHook(s, n, name) <==> n in s.nodes && Taken(s, n, name)
  {
    hide Inv;
    if HasHook(s, n, name) {
      var h :| h in s.nodes[n].hooks && h in s.hooks && s.hooks[h].name == name;
      assert Named(s, h, name);
    }
  }

  /** The message rmhook: a hook with that name and its peer go, and nothing happens if there is none. */
  lemma RmhookMeans(s: Net, t: Net, n: nat, name: string)
    requires Rest(s) && Rest(t) && Did(s, t, OpRmhook(n, name))
    ensures if HasHook(s, n, name)
      then exists h | h in s.nodes[n].hooks ::
             h in s.hooks && s.hooks[h].name == name && s.hooks[h].peer.To? && t.hooks == s.hooks - {h, s.hooks[h].peer.h}
      else t == s
  {
    hide Inv, Shed, HasHook;
    TakenIs(s, n, name);
    assert n in s.nodes ==> s.nodes[n].valid;
    if HasHook(s, n, name) {
      var h :| h in s.nodes[n].hooks && Named(s, h, name) && Shed(s, t, Zapped(s, h));
      HookGone(s, t, h);
    }
  }

  /** The message shutdown. */
  lemma RmnodeMeans(s: Net, t: Net, n: nat, dies: bool)
    requires Rest(s) && Rest(t) && Did(s, t, OpRmnode(n, dies))
    ensures n !in s.nodes ==> t == s
    ensures n in s.nodes ==>
      && t.nodes.Keys == (if dies then s.nodes.Keys - {n} else s.nodes.Keys) && (!dies ==> t.nodes[n].hooks == [])
      && forall k :: k in t.hooks <==>
           && k in s.hooks && s.hooks[k].node != At(n)
           && s.hooks[k].peer.To? && s.hooks[k].peer.h in s.hooks && s.hooks[s.hooks[k].peer.h].node != At(n)
  {
    hide Inv, Closed, Rest;
    if n in s.nodes {
      NodeGone(s, t, n, dies);
    }
  }
}
