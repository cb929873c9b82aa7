/** Every run of netgraph operations (lib/ff_ng_base.c): between them no references are held, and the
    hooks are exactly the ends of the connections. */
module NetgraphRun {
  import opened NetgraphNet
  import opened NetgraphView
  import opened NetgraphDestroy
  import opened NetgraphConnect
  import opened NetgraphClose
  import opened NetgraphPair
  import opened NetgraphMkpeer
  import opened NetgraphHooks

  /** The operations. The addresses are those the allocator gives; the vetoes are what the types of
      the nodes say. */
  datatype Op =
    | OpMake(n: nat)
    | OpMkpeer(n: nat, name: string, name2: string, kind: Type, n2: nat, h1: nat, h2: nat, veto: Vetoes, dies: bool)
    | OpConnect(n: nat, name: string, n2: nat, name2: string, h1: nat, h2: nat, veto: Vetoes)
    | OpRmhook(n: nat, name: string)
    | OpBypass(n: nat, name1: string, name2: string)
    | OpRmnode(n: nat, dies: bool)

  /** Nobody holds a reference any more, apart from the nodes' own. */
  ghost predicate Rest(s: Net) {
    && Inv(s) && s.held == multiset{}
    && (forall n | n in s.nodes :: s.pinned[n] == 1 && s.nodes[n].valid && !s.nodes[n].closing)
    && (forall h | h in s.hooks :: s.hooks[h].valid && s.hooks[h].peer.To?)
  }

  /** Then the hooks are the ends of connections, with a reference for the list and one for the peer,
      and a node's references are its own and one for each of its hooks. */
  lemma RestCounts(s: Net)
    requires Rest(s)
    ensures forall h | h in s.hooks ::
      && s.hooks[h].refs == 2 && s.hooks[h].node.At? && s.hooks[h].node.n in s.nodes && h in s.nodes[s.hooks[h].node.n].hooks
      && s.hooks[h].peer.To? && s.hooks[h].peer.h in s.hooks && s.hooks[s.hooks[h].peer.h].peer == To(h)
    ensures forall n | n in s.nodes ::
      && s.nodes[n].numhooks == |s.nodes[n].hooks| && s.nodes[n].refs == |s.nodes[n].hooks| + 1
      && forall h | h in s.nodes[n].hooks :: h in s.hooks && s.hooks[h].node == At(n)
  {
    hide HookOk, NodeOk, Inv;
    forall h | h in s.hooks
      ensures s.hooks[h].refs == 2 && s.hooks[h].node.At? && s.hooks[h].node.n in s.nodes && h in s.nodes[s.hooks[h].node.n].hooks
      ensures s.hooks[h].peer.To? && s.hooks[h].peer.h in s.hooks && s.hooks[s.hooks[h].peer.h].peer == To(h)
    {
      InvHook(s, h);
      HookOpened(s, h);
    }
    forall n | n in s.nodes
      ensures s.nodes[n].numhooks == |s.nodes[n].hooks| && s.nodes[n].refs == |s.nodes[n].hooks| + 1
      ensures forall h | h in s.nodes[n].hooks :: h in s.hooks && s.hooks[h].node == At(n)
    {
      InvNode(s, n);
      NodeOpened(s, n);
    }
  }

  lemma RestUsable(s: Net)
    requires Rest(s)
    ensures Usable(s) && Quiet(s)
  {
    hide Inv;
  }

  lemma MakeRests(s: Net, n: nat)
    requires Rest(s) && n !in s.nodes && Inv(FreshNode(s, n))
    ensures Rest(FreshNode(s, n))
  {
    hide Inv;
    NotPinned(s, n);
  }

  lemma LinkRests(s: Net, n: nat, name: string, h1: nat, n2: nat, name2: string, h2: nat)
    requires Rest(s) && n in s.nodes && n2 in s.nodes && Inv(Linked(s, n, name, h1, n2, name2, h2))
    ensures Rest(Linked(s, n, name, h1, n2, name2, h2))
  {
    hide Inv;
  }

  /** Taking hooks away together with their peers leaves only connected ones. */
  lemma ShedRests(s: Net, t: Net, out: set<nat>)
    requires Rest(s) && Inv(t) && t.held == s.held && PeersInside(s, out)
    requires forall k {:trigger Look(t, k)} :: Look(t, k) == ShedLook(Look(s, k), k, out, s.held[k])
    ensures forall h | h in t.hooks :: t.hooks[h].valid && t.hooks[h].peer.To?
  {
    hide HookOk, NodeOk, Inv, Visit;
    forall h | h in t.hooks ensures t.hooks[h].valid && t.hooks[h].peer.To? {
      assert Look(t, h) == ShedLook(Look(s, h), h, out, s.held[h]);
      InvHook(s, h);
      HookOpened(s, h);
      var p := s.hooks[h].peer.h;
      InvHook(s, p);
      HookOpened(s, p);
    }
  }

  lemma RmhookRests(s: Net, t: Net, h: nat)
    requires Rest(s) && Inv(t) && h in s.hooks && Shed(s, t, Zapped(s, h))
    ensures Rest(t)
  {
    hide HookOk, NodeOk, Inv;
    InvHook(s, h);
    HookOpened(s, h);
    var p := s.hooks[h].peer.h;
    InvHook(s, p);
    HookOpened(s, p);
    assert Zapped(s, h) == {h, p};
    ShedRests(s, t, {h, p});
    forall n | n in t.nodes ensures t.pinned[n] == 1 && t.nodes[n].valid && !t.nodes[n].closing {
      assert Visit(t, n) == ShedVisit(Visit(s, n), {h, p});
    }
  }

  lemma BypassRests(s: Net, t: Net, a: nat, b: nat)
    requires Rest(s) && Inv(t) && a in s.hooks && b in s.hooks && a != b && s.hooks[a].peer.To? && s.hooks[b].peer.To? && Bypassed(s, t, a, b)
    ensures Rest(t)
  {
    hide HookOk, NodeOk, Inv;
    forall h | h in t.hooks ensures t.hooks[h].valid && t.hooks[h].peer.To? {
      assert Look(t, h) == BypassedLook(s, a, b, h);
    }
    forall n | n in t.nodes ensures t.pinned[n] == 1 && t.nodes[n].valid && !t.nodes[n].closing {
      assert Visit(t, n) == ShedVisit(Visit(s, n), {a, b});
    }
  }

  lemma RmnodeRests(s: Net, t: Net, n: nat, dies: bool)
    requires Rest(s) && Inv(t) && n in s.nodes && Closed(s, t, n, dies)
    ensures Rest(t)
  {
    hide HookOk, NodeOk, Inv;
    ZonePairs(s, n);
    ShedRests(s, t, Zone(s, n));
    assert Visit(t, n) == if dies then NoPlace else Place([], true, false);
    forall m | m in t.nodes ensures t.pinned[m] == 1 && t.nodes[m].valid && !t.nodes[m].closing {
      assert m != n ==> Visit(t, m) == ShedVisit(Visit(s, m), Zone(s, n));
    }
  }

  lemma ZonePairs(s: Net, n: nat)
    requires Inv(s)
    ensures PeersInside(s, Zone(s, n))
  {
    hide HookOk, NodeOk, Inv;
    forall h | h in Zone(s, n) && h in s.hooks && s.hooks[h].peer.To? ensures s.hooks[h].peer.h in Zone(s, n) {
      InvHook(s, h);
      HookOpened(s, h);
    }
  }

  /** What an operation does. */
  ghost predicate Did(s: Net, t: Net, op: Op) {
    match op
    case OpMake(n) => t == if n in s.nodes then s else FreshNode(s, n)
    case OpMkpeer(n, name, name2, kind, n2, h1, h2, veto, dies) =>
      if !(n in s.nodes && s.nodes[n].valid && n2 !in s.nodes && h1 !in s.hooks && h2 !in s.hooks && h1 != h2) then t == s
      else
        n in FreshNode(s, n2).nodes && n2 in FreshNode(s, n2).nodes &&
        t == if MkpeerError(s, kind, n, name, veto) == Ok then Linked(FreshNode(s, n2), n, name, h1, n2, name2, h2)
             else if kind == Constructs(false) && !dies then FreshNode(s, n2)
             else s
    case OpConnect(n, name, n2, name2, h1, h2, veto) =>
      if !(n in s.nodes && s.nodes[n].valid && n2 in s.nodes && h1 !in s.hooks && h2 !in s.hooks && h1 != h2) then t == s
      else t == if ConnectError(s, n, name, n2, name2, veto) == Ok then Linked(s, n, name, h1, n2, name2, h2) else s
    case OpRmhook(n, name) =>
      if n in s.nodes && s.nodes[n].valid && Taken(s, n, name)
      then exists h :: h in s.nodes[n].hooks && Named(s, h, name) && Shed(s, t, Zapped(s, h))
      else t == s
    case OpBypass(n, name1, name2) =>
      if n in s.nodes && Taken(s, n, name1) && Taken(s, n, name2) && name1 != name2
      then exists a, b :: a in s.nodes[n].hooks && b in s.nodes[n].hooks && a != b && Named(s, a, name1) && Named(s, b, name2) &&
             s.hooks[a].peer.To? && s.hooks[b].peer.To? && Bypassed(s, t, a, b)
      else t == s
    case OpRmnode(n, dies) => if n in s.nodes then Closed(s, t, n, dies) else t == s
  }

  /** One operation. A message to a node that is not there or not valid has no effect, and the
      allocator gives no address that is in use. */
  method Perform(g: Graph, op: Op)
    requires Rest(g.State())
    modifies g
    ensures Rest(g.State()) && Did(old(g.State()), g.State(), op)
  {
    hide Inv, Rest, Usable, Quiet, Shed, Closed, Bypassed, Linked, Zapped, FreshNode, Taken, Named, MkpeerError, ConnectError;
    ghost var s := g.State();
    RestInv(s);
    RestUsable(s);
    match op {
      case OpMake(n) =>
        if n !in g.nodes {
          g.NewNode(n);
          MakeRests(s, n);
        }
      case OpMkpeer(n, name, name2, kind, n2, h1, h2, veto, dies) =>
        if n in g.nodes && g.nodes[n].valid && n2 !in g.nodes && h1 !in g.hooks && h2 !in g.hooks && h1 != h2 {
          NewNodeHas(s, n2);
          var e := g.Mkpeer(n, name, name2, kind, n2, h1, h2, veto, dies);
          MkpeerRests(s, g.State(), n, name, h1, n2, name2, h2);
        }
      case OpConnect(n, name, n2, name2, h1, h2, veto) =>
        if n in g.nodes && g.nodes[n].valid && n2 in g.nodes && h1 !in g.hooks && h2 !in g.hooks && h1 != h2 {
          var e := g.Connect(n, name, n2, name2, h1, h2, veto);
          if e == Ok {
            LinkRests(s, n, name, h1, n2, name2, h2);
          }
        }
      case OpRmhook(n, name) =>
        if n in g.nodes && g.nodes[n].valid {
          var found := g.FindHook(n, name);
          if found.To? {
            InvList(s, n);
            g.DestroyHook(found.h);
            RmhookRests(s, g.State(), found.h);
          }
        }
      case OpBypass(n, name1, name2) =>
        if n in g.nodes && name1 != name2 {
          var a := g.FindHook(n, name1);
          var b := g.FindHook(n, name2);
          if a.To? && b.To? {
            DifferentNames(s, a.h, b.h, name1, name2);
            InvList(s, n);
            NamedValid(s, n, a.h, b.h, name1, name2);
            var e := g.Bypass(a.h, b.h);
            BypassRests(s, g.State(), a.h, b.h);
          }
        }
      case OpRmnode(n, dies) =>
        if n in g.nodes {
          RestNode(s, n);
          g.Rmnode(n, dies);
          RmnodeRests(s, g.State(), n, dies);
        }
    }
  }

  lemma DifferentNames(s: Net, a: nat, b: nat, name1: string, name2: string)
    requires Named(s, a, name1) && Named(s, b, name2) && name1 != name2
    ensures a != b
  {
  }

  lemma NamedValid(s: Net, n: nat, a: nat, b: nat, name1: string, name2: string)
    requires Inv(s) && n in s.nodes && a in s.nodes[n].hooks && b in s.nodes[n].hooks && Named(s, a, name1) && Named(s, b, name2)
    ensures a in s.hooks && b in s.hooks && s.hooks[a].valid && s.hooks[b].valid && s.hooks[a].node == s.hooks[b].node
  {
    hide HookOk;
    InvNode(s, n);
  }

  lemma RestInv(s: Net)
    requires Rest(s)
    ensures Inv(s)
  {
  }

  lemma RestNode(s: Net, n: nat)
    requires Rest(s) && n in s.nodes
    ensures !s.nodes[n].closing
  {
  }

  lemma InvList(s: Net, n: nat)
    requires Inv(s) && n in s.nodes
    ensures forall h | h in s.nodes[n].hooks :: h in s.hooks
  {
    InvNode(s, n);
  }

  lemma MkpeerRests(s: Net, t: Net, n: nat, name: string, h1: nat, n2: nat, name2: string, h2: nat)
    requires Rest(s) && n2 !in s.nodes && n in s.nodes && Inv(t)
    requires n in FreshNode(s, n2).nodes && n2 in FreshNode(s, n2).nodes
    requires t == s || t == FreshNode(s, n2) || t == Linked(FreshNode(s, n2), n, name, h1, n2, name2, h2)
    ensures Rest(t)
  {
    hide Inv, Rest, Linked, FreshNode;
    RestInv(s);
    FreshNodeKeeps(s, n2);
    MakeRests(s, n2);
    if t == Linked(FreshNode(s, n2), n, name, h1, n2, name2, h2) {
      LinkRests(FreshNode(s, n2), n, name, h1, n2, name2, h2);
    }
  }

  /** A node is connected to itself, with one name for both hooks. */
  predicate Twin(op: Op) {
    op.OpConnect? && op.n == op.n2 && op.name == op.name2
  }

  /** The names of a node's hooks stay different, exactly unless a node is connected to itself under one name and
      nothing objects. */
  lemma DidUnique(s: Net, t: Net, op: Op)
    requires Rest(s) && Unique(s) && Did(s, t, op)
    ensures Unique(t) <==> !(Twin(op) && t != s)
  {
    hide Inv, Rest, Shed, Closed, Bypassed, Linked, Zapped, FreshNode, Taken, Named, Unique;
    RestInv(s);
    match op {
      case OpMake(n) =>
        if n !in s.nodes {
          FreshUnique(s, n);
        }
      case OpMkpeer(n, name, name2, kind, n2, h1, h2, veto, dies) =>
        if n in s.nodes && n2 !in s.nodes {
          FreshUnique(s, n2);
          if t != s && t != FreshNode(s, n2) {
            FreshFree(s, n, name, n2, name2);
            LinkedUnique(FreshNode(s, n2), n, name, n2, name2, h1, h2);
          }
        }
      case OpConnect(n, name, n2, name2, h1, h2, veto) =>
        if t != s {
          LinkedUnique(s, n, name, n2, name2, h1, h2);
        }
      case OpRmhook(n, name) =>
        if t != s {
          RmhookUnique(s, t, op);
        }
      case OpBypass(n, name1, name2) =>
        if t != s {
          BypassKeepsUnique(s, t, op);
        }
      case OpRmnode(n, dies) =>
        if n in s.nodes {
          ClosedUnique(s, t, n, dies);
        }
    }
  }

  lemma FreshUnique(s: Net, n: nat)
    requires Inv(s) && Unique(s) && n !in s.nodes
    ensures Inv(FreshNode(s, n)) && Unique(FreshNode(s, n)) && n in FreshNode(s, n).nodes && FreshNode(s, n).hooks == s.hooks
  {
    hide Inv;
    FreshNodeKeeps(s, n);
  }

  lemma FreshFree(s: Net, n: nat, name: string, n2: nat, name2: string)
    requires n in s.nodes && n2 !in s.nodes && !Taken(s, n, name)
    ensures var f := FreshNode(s, n2); n in f.nodes && n2 in f.nodes && !Taken(f, n, name) && !Taken(f, n2, name2)
  {
  }

  lemma RmhookUnique(s: Net, t: Net, op: Op)
    requires Unique(s) && op.OpRmhook? && Did(s, t, op)
    ensures Unique(t)
  {
    hide Unique, Shed, Zapped, Taken;
    if t != s {
      var h :| h in s.nodes[op.n].hooks && Named(s, h, op.name) && Shed(s, t, Zapped(s, h));
      ShedKeepsUnique(s, t, Zapped(s, h));
    }
  }

  lemma BypassKeepsUnique(s: Net, t: Net, op: Op)
    requires Unique(s) && op.OpBypass? && Did(s, t, op)
    ensures Unique(t)
  {
    hide Unique, Bypassed, Taken;
    if t != s {
      var a, b :| a in s.nodes[op.n].hooks && b in s.nodes[op.n].hooks && a != b && Named(s, a, op.name1) && Named(s, b, op.name2) &&
        s.hooks[a].peer.To? && s.hooks[b].peer.To? && Bypassed(s, t, a, b);
      BypassUnique(s, t, a, b);
    }
  }

  lemma ShedKeepsUnique(s: Net, t: Net, out: set<nat>)
    requires Unique(s) && Shed(s, t, out)
    ensures Unique(t)
  {
    hide Unique, Visit, Look;
    ShedUnique(s, t, out);
  }

  lemma ClosedUnique(s: Net, t: Net, n: nat, dies: bool)
    requires Unique(s) && Closed(s, t, n, dies)
    ensures Unique(t)
  {
    hide Unique, Visit, Look;
    ShedUnique(s, t, Zone(s, n));
  }

  /** Whatever is done, in whatever order: every state of the run is at rest, and follows from the one
      before by its operation; the hooks of a node have different names as long as no node is connected to itself
      under one name. */
  method AnyRun(ops: seq<Op>) returns (g: Graph, ghost states: seq<Net>)
    ensures |states| == |ops| + 1 && states[0] == Net(map[], map[], multiset{}, multiset{}) && states[|ops|] == g.State()
    ensures forall i | 0 <= i <= |ops| :: Rest(states[i])
    ensures forall i | 0 <= i < |ops| :: Did(states[i], states[i+1], ops[i])
    ensures (forall op | op in ops :: !Twin(op)) ==> forall i | 0 <= i <= |ops| :: Unique(states[i])
  {
    hide Rest, Did, Unique, Twin;
    g := new Graph();
    EmptyRests();
    EmptyUnique();
    states := [g.State()];
    for i := 0 to |ops|
      invariant fresh(g) && |states| == i + 1 && states[0] == Net(map[], map[], multiset{}, multiset{}) && states[i] == g.State()
      invariant forall j | 0 <= j <= i :: Rest(states[j])
      invariant forall j | 0 <= j < i :: Did(states[j], states[j+1], ops[j])
      invariant (forall op | op in ops :: !Twin(op)) ==> forall j | 0 <= j <= i :: Unique(states[j])
    {
      Perform(g, ops[i]);
      assert ops[i] in ops;
      if Unique(states[i]) {
        DidUnique(states[i], g.State(), ops[i]);
      }
      states := states + [g.State()];
    }
  }

  lemma EmptyRests()
    ensures Rest(Net(map[], map[], multiset{}, multiset{}))
  {
  }

  lemma EmptyUnique()
    ensures Unique(Net(map[], map[], multiset{}, multiset{}))
  {
  }
}
