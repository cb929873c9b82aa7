/** ng_add_hook, ng_destroy_hook, ng_bypass, ng_mkpeer, ng_con_nodes and ng_rmnode on the synchronous
    path (lib/ff_ng_base.c), where an item sent to a node is applied at once. The methods of a node's
    type are vetoes; allocation succeeds. */
module NetgraphHooks {
  import opened NetgraphNet
  import opened NetgraphView
  import opened NetgraphDestroy
  import opened NetgraphConnect
  import opened NetgraphClose
  import opened NetgraphPair
  import opened NetgraphMkpeer

  class Graph {
    var hooks: map<nat, Hook>
    var nodes: map<nat, Node>
    ghost var held: multiset<nat>
    ghost var pinned: multiset<nat>

    ghost function State(): Net
      reads this
    {
      Net(hooks, nodes, held, pinned)
    }

    constructor ()
      ensures State() == Net(map[], map[], multiset{}, multiset{})
    {
      hooks, nodes, held, pinned := map[], map[], multiset{}, multiset{};
    }

    /** NG_HOOK_REF. */
    method RefHook(h: nat)
      requires Inv(State()) && h in hooks
      modifies this
      ensures Inv(State()) && State() == Take(old(State()), h)
    {
      hide Inv;
      TakeKeeps(State(), h);
      hooks := hooks[h := hooks[h].(refs := hooks[h].refs + 1)];
      held := held + multiset{h};
    }

    /** ng_unref_hook. */
    method UnrefHook(h: nat)
      requires Inv(State()) && h in hooks && h in held
      modifies this
      ensures old(hooks)[h].refs > 0 && Inv(State()) && State() == Drop(old(State()), h)
    {
      hide Inv;
      DropKeeps(State(), h);
      if hooks[h].refs == 1 {
        hooks := hooks - {h};
      } else {
        hooks := hooks[h := hooks[h].(refs := hooks[h].refs - 1)];
      }
      held := held - multiset{h};
    }

    /** NG_NODE_REF. */
    method RefNode(n: nat)
      requires Inv(State()) && n in nodes
      modifies this
      ensures Inv(State()) && State() == Pin(old(State()), n)
    {
      hide Inv;
      PinKeeps(State(), n);
      nodes := nodes[n := nodes[n].(refs := nodes[n].refs + 1)];
      pinned := pinned + multiset{n};
    }

    /** ng_unref_node. */
    method UnrefNode(n: nat)
      requires Inv(State()) && n in nodes && n in pinned && (pinned[n] > 1 || nodes[n].hooks == [])
      modifies this
      ensures old(nodes)[n].refs > 0 && Inv(State()) && State() == Unpin(old(State()), n)
    {
      hide Inv;
      UnpinKeeps(State(), n);
      if nodes[n].refs == 1 {
        nodes := nodes - {n};
      } else {
        nodes := nodes[n := nodes[n].(refs := nodes[n].refs - 1)];
      }
      pinned := pinned - multiset{n};
    }

    // ----- ng_destroy_hook

    /** Its end: the hook, which has no peer any more, leaves its node. */
    method Leave(h: nat, n: nat)
      requires Inv(State()) && h in hooks && hooks[h].node == At(n) && hooks[h].peer == Dead && !hooks[h].valid
      modifies this
      ensures Inv(State()) && Shed(old(State()), State(), {h})
    {
      hide Inv, Shed, Drop, Unpin, Without;
      LeaveSteps(State(), h);
      nodes := nodes[n := nodes[n].(hooks := Without(nodes[n].hooks, {h}), numhooks := nodes[n].numhooks - 1)];
      hooks := hooks[h := hooks[h].(node := Nowhere)];
      held, pinned := held + multiset{h}, pinned + multiset{n};
      UnrefNode(n);
      UnrefHook(h);
    }

    /** Its middle: h and its peer part; the peer is sent a message to destroy itself. */
    method Part(h: nat, p: nat)
      requires Inv(State()) && h in hooks && hooks[h].peer == To(p) && !hooks[h].valid
      modifies this
      ensures Inv(State()) && Parted(old(State()), State(), h, p)
      decreases 0, 2
    {
      hide Inv, Shed, Drop, HookOk, NodeOk, Parted, Zapped, Look, Visit;
      ghost var s0 := State();
      CutKeeps(s0, h, p);
      hooks := hooks[p := hooks[p].(peer := Dead)][h := hooks[h].(peer := Dead)];
      held := held + multiset{h, p};
      assert hooks[p].peer == Dead;
      RmhookSelf(p);
      PartSteps(s0, State(), h, p);
      UnrefHook(p);
      UnrefHook(h);
    }

    /** ng_rmhook_self: an item that carries the hook to its node, where ng_rmhook_part2 destroys it. */
    method RmhookSelf(p: nat)
      requires Inv(State()) && p in hooks
      modifies this
      ensures Inv(State()) && RemovedSelf(old(State()), State(), p)
      decreases One(hooks[p].peer.To?), 1
    {
      hide Inv, Shed, Drop, Unpin, Take, Pin, HookOk, NodeOk, Zapped;
      if hooks[p].node == Nowhere {
        return;
      }
      ghost var s0 := State();
      var n := hooks[p].node.n;
      RmhookStarts(s0, p);
      RefNode(n);
      RefHook(p);
      ghost var s1 := State();
      if nodes[n].valid {
        DestroyHook(p);
      }
      RmhookEnds(s0, s1, State(), p);
      UnrefHook(p);
      UnrefNode(n);
    }

    /** ng_destroy_hook. */
    method DestroyHook(h: nat)
      requires Inv(State()) && h in hooks
      modifies this
      ensures Inv(State()) && Shed(old(State()), State(), Zapped(old(State()), h))
      decreases One(hooks[h].peer.To?), 0
    {
      hide Inv, Shed, HookOk, NodeOk, Zapped, Parted;
      ghost var s0 := State();
      MarkKeeps(s0, h, false);
      hooks := hooks[h := hooks[h].(valid := false)];
      ghost var s1 := State();
      var peer, node := hooks[h].peer, hooks[h].node;
      if peer.To? {
        Part(h, peer.h);
      }
      ghost var s2 := State();
      DestroyMiddle(s0, s2, h);
      if node.At? {
        Leave(h, node.n);
      }
      DestroyEnds(s0, s2, State(), h);
    }

    // ----- ng_findhook, ng_add_hook

    /** ng_findhook: the first valid hook of that name. */
    method FindHook(n: nat, name: string) returns (r: Link)
      requires Inv(State()) && n in nodes
      ensures r.Dead? <==> !Taken(State(), n, name)
      ensures r.To? ==> r.h in nodes[n].hooks && Named(State(), r.h, name)
    {
      var l := nodes[n].hooks;
      InvNode(State(), n);
      for i := 0 to |l|
        invariant forall h | h in l[..i] :: !Named(State(), h, name)
      {
        if hooks[l[i]].valid && hooks[l[i]].name == name {
          return To(l[i]);
        }
        assert l[..i+1] == l[..i] + [l[i]];
      }
      assert l[..|l|] == l;
      return Dead;
    }

    /** ng_add_hook, with the reference it returns. */
    method AddHook(n: nat, name: string, h: nat, veto: bool) returns (e: Error)
      requires Inv(State()) && n in nodes && h !in hooks
      modifies this
      ensures e == if Taken(old(State()), n, name) then Eexist else if veto then Vetoed else Ok
      ensures Inv(State()) && State() == if e == Ok then Added(old(State()), n, name, h) else old(State())
    {
      hide Inv, Taken, Named, HookOk, NodeOk;
      var found := FindHook(n, name);
      if found.To? {
        return Eexist;
      }
      ghost var s0 := State();
      FreshKeeps(s0, h, name);
      hooks := hooks[h := Hook(name, false, Dead, Nowhere, 1)];
      held := held + multiset{h};
      if veto {
        UnrefHook(h);
        assert hooks == s0.hooks && held == s0.held;
        return Vetoed;
      }
      EnlistKeeps(State(), h, n);
      nodes := nodes[n := nodes[n].(hooks := [h] + nodes[n].hooks, numhooks := nodes[n].numhooks + 1, refs := nodes[n].refs + 1)];
      hooks := hooks[h := hooks[h].(node := At(n), refs := hooks[h].refs + 1)];
      return Ok;
    }

    // ----- ng_bypass

    method Bypass(a: nat, b: nat) returns (e: Error)
      requires Inv(State()) && Usable(State()) && a in hooks && b in hooks && (a == b ==> !hooks[a].valid)
      modifies this
      ensures e == if old(hooks)[a].node == old(hooks)[b].node && old(hooks)[a].valid && old(hooks)[b].valid then Ok else Einval
      ensures Inv(State()) && Usable(State()) && (old(Quiet(State())) ==> Quiet(State()))
      ensures if e == Ok then old(hooks)[a].peer.To? && old(hooks)[b].peer.To? && Bypassed(old(State()), State(), a, b)
              else State() == old(State())
    {
      hide Inv, Shed, HookOk, NodeOk, Drop, Zapped, Bypassed, Quiet, Look, Visit;
      if hooks[a].node != hooks[b].node {
        return Einval;
      }
      if !hooks[a].valid || !hooks[b].valid {
        return Einval;
      }
      ghost var s0 := State();
      InvHook(s0, a);
      InvHook(s0, b);
      HookOpened(s0, a);
      HookOpened(s0, b);
      BypassDrops(s0, a, b);
      hooks := hooks[hooks[a].peer.h := hooks[hooks[a].peer.h].(peer := hooks[b].peer)];
      hooks := hooks[hooks[b].peer.h := hooks[hooks[b].peer.h].(peer := hooks[a].peer)];
      hooks := hooks[a := hooks[a].(peer := Dead)];
      hooks := hooks[b := hooks[b].(peer := Dead)];
      held := held + multiset{a, b};
      UnrefHook(a);
      UnrefHook(b);
      ghost var s1 := State();
      DestroyHook(a);
      ghost var s2 := State();
      BypassBetween(s1, s2, a, b);
      DestroyHook(b);
      BypassEnds(s0, s1, s2, State(), a, b);
      return Ok;
    }

    // ----- ng_rmnode

    /** The type's shutdown method, or the default action, drops the node's own reference; or the type
        declares the node valid again. */
    method Rmnode(n: nat, dies: bool)
      requires Inv(State()) && Usable(State()) && Quiet(State()) && n in nodes
      modifies this
      ensures Inv(State()) && Usable(State()) && Quiet(State())
      ensures if old(nodes)[n].closing then State() == old(State()) else Closed(old(State()), State(), n, dies)
    {
      hide Inv, Shed, HookOk, NodeOk, Zapped, Closing, Closed, Zone, Quiet, Usable, Look, Visit, QuietBut;
      if nodes[n].closing {
        return;
      }
      ghost var s0 := State();
      InvNode(s0, n);
      NodeOpened(s0, n);
      CloseStarts(s0, n);
      RefNode(n);
      nodes := nodes[n := nodes[n].(valid := false, closing := true)];
      ghost var s1, out := State(), {};
      ClosingStarts(s1, n);
      while nodes[n].hooks != []
        invariant Inv(State()) && Closing(s1, State(), n, out) && n in nodes
        decreases |nodes[n].hooks|
      {
        ghost var s2 := State();
        var h := nodes[n].hooks[0];
        InvNode(s2, n);
        NodeOpened(s2, n);
        DestroyHook(h);
        ClosingStep(s1, s2, State(), n, out, h);
        out := out + Zapped(s2, h);
      }
      ClosingEnds(s1, State(), n, out);
      ClosingShed(s1, State(), n, out);
      if dies {
        CloseDies(s0, s1, State(), n);
        UnrefNode(n);
        UnrefNode(n);
      } else {
        CloseSurvives(s0, s1, State(), n);
        nodes := nodes[n := nodes[n].(valid := true, closing := false)];
        UnrefNode(n);
      }
      ClosedKeeps(s0, State(), n, dies);
    }

    // ----- ng_con_nodes

    /** An item carries the first hook back to its node, where ng_con_part3 asks the type and makes the
        hook valid. */
    method SendPart3(h: nat, n: nat, veto: bool) returns (e: Error)
      requires Inv(State()) && h in hooks && hooks[h].node == At(n) && n in nodes
      modifies this
      ensures e == if !old(nodes)[n].valid then Einval else if veto then Vetoed else Ok
      ensures Inv(State())
      ensures e == Ok ==> State() == Mark(old(State()), h, true)
      ensures e == Vetoed ==> Shed(old(State()), State(), Zapped(old(State()), h))
      ensures e == Einval ==> State() == old(State())
    {
      hide Inv, Shed, HookOk, NodeOk, Zapped, Drop, Unpin, SeenWith, Take, Pin;
      ghost var s0 := State();
      RmhookStarts(s0, h);
      ItemStarts(s0, n, h);
      RefNode(n);
      RefHook(h);
      ghost var s1 := State();
      if !nodes[n].valid {
        e := Einval;
        ItemBack(s0, s1, n, h);
      } else if veto {
        e := Vetoed;
        DestroyHook(h);
        RmhookEnds(s0, s1, State(), h);
      } else {
        e := Ok;
        MarkBack(s0, s1, n, h);
        hooks := hooks[h := hooks[h].(valid := true)];
        ItemBack(Mark(s0, h, true), State(), n, h);
      }
      UnrefHook(h);
      UnrefNode(n);
    }

    /** ng_con_part2: the second hook enters its node, whose type is asked twice. */
    method Part2(h1: nat, h2: nat, n2: nat, vetoNew: bool, vetoHere: bool, vetoThere: bool) returns (e: Error)
      requires Inv(State()) && Making(State(), h1, h2) && hooks[h2].node == Nowhere && n2 in nodes && nodes[n2].valid
      modifies this
      ensures Inv(State())
      ensures e == if Taken(old(State()), n2, old(hooks)[h2].name) then Eexist else if vetoNew || vetoHere || vetoThere then Vetoed else Ok
      ensures if e == Ok then State() == Finished(old(State()), h1, h2, n2) else Unmade(old(State()), State(), h1, h2)
    {
      hide Inv, Shed, HookOk, NodeOk, Zapped, Unmade, Taken, Named, Touch;
      ghost var s0 := State();
      var found := FindHook(n2, hooks[h2].name);
      if found.To? {
        DestroyHook(h2);
        Unmakes(s0, State(), h1, h2, h2);
        return Eexist;
      }
      if vetoNew {
        DestroyHook(h2);
        Unmakes(s0, State(), h1, h2, h2);
        return Vetoed;
      }
      EnlistKeeps(s0, h2, n2);
      MakingEnlisted(s0, h1, h2, n2);
      nodes := nodes[n2 := nodes[n2].(hooks := [h2] + nodes[n2].hooks, numhooks := nodes[n2].numhooks + 1, refs := nodes[n2].refs + 1)];
      hooks := hooks[h2 := hooks[h2].(node := At(n2), refs := hooks[h2].refs + 1)];
      ghost var s1 := State();
      if vetoHere {
        DestroyHook(h2);
        Unmakes(s1, State(), h1, h2, h2);
        UnmadeTouch(s0, s1, State(), h1, h2);
        return Vetoed;
      }
      var peer := hooks[h2].peer.h;
      e := SendPart3(peer, hooks[peer].node.n, vetoThere);
      if e != Ok {
        ghost var s2 := State();
        Unmakes(s1, s2, h1, h2, h1);
        UnmadeTouch(s0, s1, s2, h1, h2);
        UnmadeThere(s0, s2, h1, h2);
        DestroyHook(h2);
        UnmadeAgain(s0, s2, State(), h1, h2, h2);
        return;
      }
      MarkKeeps(State(), h2, true);
      hooks := hooks[h2 := hooks[h2].(valid := true)];
    }

    /** An item carries the second hook to the other node. */
    method SendPart2(h1: nat, h2: nat, n2: nat, vetoNew: bool, vetoHere: bool, vetoThere: bool) returns (e: Error)
      requires Inv(State()) && Making(State(), h1, h2) && hooks[h2].node == Nowhere && n2 in nodes
      modifies this
      ensures Inv(State())
      ensures e == if !old(nodes)[n2].valid then Einval
                   else if Taken(old(State()), n2, old(hooks)[h2].name) then Eexist
                   else if vetoNew || vetoHere || vetoThere then Vetoed
                   else Ok
      ensures if e == Ok then State() == Finished(old(State()), h1, h2, n2)
              else if e == Einval then State() == old(State())
              else Unmade(old(State()), State(), h1, h2)
    {
      hide Inv, HookOk, NodeOk, Unmade, Taken, Touch, Drop, Unpin, SeenWith, Take, Pin, Finished, Making;
      ghost var s0 := State();
      MakingHas(s0, h1, h2);
      ItemStarts(s0, n2, h2);
      RefNode(n2);
      RefHook(h2);
      ghost var s1 := State();
      MakingSeen(s0, s1, h1, h2, n2);
      TakenSame(s0, s1, n2, hooks[h2].name, h2);
      if !nodes[n2].valid {
        e := Einval;
        ItemBack(s0, s1, n2, h2);
      } else {
        e := Part2(h1, h2, n2, vetoNew, vetoHere, vetoThere);
        ghost var s2 := State();
        if e == Ok {
          FinishedBack(s0, s1, h1, h2, n2);
          FinishedHas(s0, h1, h2, n2);
          ItemBack(Finished(s0, h1, h2, n2), s2, n2, h2);
        } else {
          UnmadeItem(s0, s1, s2, h1, h2, n2);
          ItemEnds(s2, n2, h2);
          UnmadeBack(s0, s1, s2, Unpin(Drop(s2, h2), n2), h1, h2, n2);
        }
      }
      UnrefHook(h2);
      UnrefNode(n2);
    }

    /** The body of ng_con_nodes. Either the two hooks are there, mutual peers, valid and with two references each,
        or nothing has changed. */
    method ConNodes(n: nat, name: string, n2: nat, name2: string, h1: nat, h2: nat, veto: Vetoes) returns (e: Error)
      requires Inv(State()) && Usable(State()) && Quiet(State())
      requires n in nodes && nodes[n].valid && n2 in nodes && h1 !in hooks && h2 !in hooks && h1 != h2
      modifies this
      ensures Inv(State()) && Usable(State()) && Quiet(State())
      ensures e == ConnectError(old(State()), n, name, n2, name2, veto)
      ensures State() == if e == Ok then Linked(old(State()), n, name, h1, n2, name2, h2) else old(State())
    {
      hide Inv, HookOk, NodeOk, Unmade, Taken, Touch, Drop, Finished, Usable, Quiet, Shed, Zapped, Linked, Making, Added;
      ghost var s0 := State();
      var found := FindHook(n2, name2);
      if found.To? {
        return Eexist;
      }
      e := AddHook(n, name, h1, veto.new1);
      if e != Ok {
        return;
      }
      ConnectStarts(s0, n, name, n2, name2, h1, h2);
      hooks := hooks[h2 := Hook(name2, false, Dead, Nowhere, 1)];
      hooks := hooks[h1 := hooks[h1].(peer := To(h2), refs := hooks[h1].refs + 1)][h2 := hooks[h2].(peer := To(h1), refs := hooks[h2].refs + 1)];
      held := held + multiset{h2};
      ghost var s2 := State();
      e := SendPart2(h1, h2, n2, veto.new2, veto.connect2, veto.connect1);
      if e != Ok {
        ghost var s3 := State();
        MakingHas(s2, h1, h2);
        if e == Einval {
        } else {
          UnmadeThere(s2, s3, h1, h2);
        }
        DestroyHook(h1);
        if e == Einval {
          Unmakes(s2, State(), h1, h2, h1);
        } else {
          UnmadeAgain(s2, s3, State(), h1, h2, h1);
        }
        Undone(s0, s2, State(), h1, h2);
      } else {
        LinkedEnds(s0, n, name, n2, name2, h1, h2);
      }
      UnrefHook(h1);
      UnrefHook(h2);
    }

    /** ng_con_nodes: when it succeeds, which error it gives otherwise, and what is then there. */
    method Connect(n: nat, name: string, n2: nat, name2: string, h1: nat, h2: nat, veto: Vetoes) returns (e: Error)
      requires Inv(State()) && Usable(State()) && Quiet(State())
      requires n in nodes && nodes[n].valid && n2 in nodes && h1 !in hooks && h2 !in hooks && h1 != h2
      modifies this
      ensures Inv(State()) && Usable(State()) && Quiet(State())
      ensures e == ConnectError(old(State()), n, name, n2, name2, veto)
      ensures State() == if e == Ok then Linked(old(State()), n, name, h1, n2, name2, h2) else old(State())
      ensures var free :=
          && (forall h | h in old(nodes)[n].hooks && h in old(hooks) && old(hooks)[h].valid :: old(hooks)[h].name != name)
          && (forall h | h in old(nodes)[n2].hooks && h in old(hooks) && old(hooks)[h].valid :: old(hooks)[h].name != name2);
        && (e == Ok <==> free && old(nodes)[n2].valid && !veto.new1 && !veto.new2 && !veto.connect1 && !veto.connect2)
        && (e == Eexist <==> !free)
        && (e == Einval <==> free && !veto.new1 && !old(nodes)[n2].valid)
      ensures e == Ok ==>
        && hooks == old(hooks)[h1 := Hook(name, true, To(h2), At(n), 2)][h2 := Hook(name2, true, To(h1), At(n2), 2)]
        && n in nodes && n2 in nodes && h1 in nodes[n].hooks && h2 in nodes[n2].hooks
    {
      hide Inv, HookOk, NodeOk, Usable, Quiet, Taken, Named, Linked, ConnectError;
      ConnectMeans(State(), n, name, n2, name2, veto);
      LinkedMeans(State(), n, name, h1, n2, name2, h2);
      e := ConNodes(n, name, n2, name2, h1, h2, veto);
    }

    // ----- ng_mkpeer

    /** ng_make_node_common, without the ID. */
    method NewNode(n: nat)
      requires Inv(State()) && n !in nodes
      modifies this
      ensures Inv(State()) && State() == FreshNode(old(State()), n)
    {
      hide Inv;
      FreshNodeKeeps(State(), n);
      nodes := nodes[n := Node([], 0, 1, true, false)];
      pinned := pinned + multiset{n};
    }

    /** The second part of ng_mkpeer: the hooks, once the new node n2 is there. */
    method Couple(n: nat, name: string, n2: nat, name2: string, h1: nat, h2: nat, veto: Vetoes, dies: bool, ghost s0: Net) returns (e: Error)
      requires Inv(s0) && Usable(s0) && Quiet(s0) && n in s0.nodes && s0.nodes[n].valid
      requires n2 !in s0.nodes && h1 !in s0.hooks && h2 !in s0.hooks && h1 != h2
      requires State() == FreshNode(s0, n2) && Inv(State()) && Usable(State()) && Quiet(State())
      modifies this
      ensures Inv(State()) && Usable(State()) && Quiet(State())
      ensures e == MkpeerError(s0, Constructs(false), n, name, veto)
      ensures n in FreshNode(s0, n2).nodes && n2 in FreshNode(s0, n2).nodes
      ensures State() == if e == Ok then Linked(FreshNode(s0, n2), n, name, h1, n2, name2, h2)
                         else if dies then s0
                         else FreshNode(s0, n2)
    {
      hide Inv, Usable, Quiet, Taken, Closed, Added, Linked, FreshNode, Shed, Zapped, Drop, Coupled, Unmade, HookOk, NodeOk, Finished, Begun;
      ghost var s1 := State();
      NewNodeHas(s0, n2);
      NewNodeUntaken(s0, n, name, n2, name2, h1);
      e := AddHook(n, name, h1, veto.new1);
      if e != Ok {
        Rmnode(n2, dies);
        NewNodeCloses(s0, s1, State(), n2, dies);
        return;
      }
      ghost var s2 := State();
      AddedKeys(s1, n, name, h1);
      e := AddHook(n2, name2, h2, veto.new2);
      if e != Ok {
        TakeBack(n, name, n2, h1, dies, s0);
        return;
      }
      CoupledInv(s1, n, name, n2, name2, h1, h2);
      AddedKeys(s2, n2, name2, h2);
      e := Settle(n, name, n2, name2, h1, h2, veto, dies, s0);
    }

    /** The second hook was refused: the new node goes, and then the first hook. */
    method TakeBack(n: nat, name: string, n2: nat, h1: nat, dies: bool, ghost s0: Net)
      requires Inv(s0) && Usable(s0) && Quiet(s0) && n in s0.nodes && s0.nodes[n].valid && n2 !in s0.nodes && h1 !in s0.hooks
      requires n in FreshNode(s0, n2).nodes && State() == Added(FreshNode(s0, n2), n, name, h1) && Inv(State())
      requires Inv(FreshNode(s0, n2)) && Usable(FreshNode(s0, n2)) && Quiet(FreshNode(s0, n2))
      modifies this
      ensures Inv(State()) && Usable(State()) && Quiet(State())
      ensures State() == if dies then s0 else FreshNode(s0, n2)
    {
      hide Inv, Usable, Quiet, Closed, Added, FreshNode, Shed, Zapped, Drop, HookOk, NodeOk;
      ghost var s1, s2 := FreshNode(s0, n2), State();
      NewNodeHas(s0, n2);
      AddedKeys(s1, n, name, h1);
      AddedUsable(s1, n, name, h1);
      Rmnode(n2, dies);
      NewNodeClosesAdded(s0, s2, State(), n, name, h1, n2, dies);
      ghost var base := if dies then s0 else s1;
      AddedHas(base, n, name, h1);
      DestroyHook(h1);
      AddUndone(base, n, name, h1, State());
      UnrefHook(h1);
    }

    /** The hooks are linked, and each type may object. */
    method Settle(n: nat, name: string, n2: nat, name2: string, h1: nat, h2: nat, veto: Vetoes, dies: bool, ghost s0: Net) returns (e: Error)
      requires Inv(s0) && Usable(s0) && Quiet(s0) && n in s0.nodes && s0.nodes[n].valid
      requires n2 !in s0.nodes && h1 !in s0.hooks && h2 !in s0.hooks && h1 != h2
      requires n in FreshNode(s0, n2).nodes && n2 in FreshNode(s0, n2).nodes
      requires h1 in hooks && h2 in hooks && Join(State(), h1, h2) == Coupled(FreshNode(s0, n2), n, name, n2, name2, h1, h2)
      requires Inv(FreshNode(s0, n2)) && Usable(FreshNode(s0, n2)) && Quiet(FreshNode(s0, n2))
      requires Inv(Coupled(FreshNode(s0, n2), n, name, n2, name2, h1, h2))
      modifies this
      ensures Inv(State()) && Usable(State()) && Quiet(State())
      ensures e == if veto.connect1 || veto.connect2 then Vetoed else Ok
      ensures State() == if e == Ok then Linked(FreshNode(s0, n2), n, name, h1, n2, name2, h2)
                         else if dies then s0
                         else FreshNode(s0, n2)
    {
      hide Inv, Usable, Quiet, Closed, Linked, FreshNode, Shed, Zapped, Drop, Coupled, Unmade, HookOk, NodeOk, Finished, Begun, Making, Refuses;
      ghost var s1, c := FreshNode(s0, n2), Coupled(FreshNode(s0, n2), n, name, n2, name2, h1, h2);
      NewNodeHas(s0, n2);
      CoupledMakes(s1, n, name, n2, name2, h1, h2);
      CoupledMarked(s1, n, name, n2, name2, h1, h2);
      hooks := hooks[h1 := hooks[h1].(peer := To(h2), refs := hooks[h1].refs + 1)][h2 := hooks[h2].(peer := To(h1), refs := hooks[h2].refs + 1)];
      if veto.connect1 || veto.connect2 {
        e := Vetoed;
        CoupledUsable(s1, n, name, n2, name2, h1, h2);
        DestroyHook(h2);
        ghost var t := State();
        Unmakes(c, t, h1, h2, h2);
        UnmadeKeeps(c, t, h1, h2);
        UnmadeNewNode(s0, t, n, name, n2, name2, h1, h2);
        Rmnode(n2, dies);
        VetoEnds(s0, t, State(), n, name, n2, name2, h1, h2, dies);
      } else {
        e := Ok;
        CoupledHomes(s1, n, name, n2, name2, h1, h2);
        MarkKeeps(State(), h1, true);
        hooks := hooks[h1 := hooks[h1].(valid := true)];
        MarkKeeps(State(), h2, true);
        hooks := hooks[h2 := hooks[h2].(valid := true)];
        LinkedEnds(s1, n, name, n2, name2, h1, h2);
      }
      UnrefHook(h1);
      UnrefHook(h2);
    }

    /** ng_mkpeer, with the new node n2. When it fails nothing has changed, except that the new node
        stays if its type wants to keep it. */
    method Mkpeer(n: nat, name: string, name2: string, kind: Type, n2: nat, h1: nat, h2: nat, veto: Vetoes, dies: bool) returns (e: Error)
      requires Inv(State()) && Usable(State()) && Quiet(State())
      requires n in nodes && nodes[n].valid && n2 !in nodes && h1 !in hooks && h2 !in hooks && h1 != h2
      modifies this
      ensures Inv(State()) && Usable(State()) && Quiet(State())
      ensures e == MkpeerError(old(State()), kind, n, name, veto)
      ensures State() == if e == Ok then Linked(FreshNode(old(State()), n2), n, name, h1, n2, name2, h2)
                         else if kind == Constructs(false) && !dies then FreshNode(old(State()), n2)
                         else old(State())
      ensures var free := (forall h | h in old(nodes)[n].hooks && h in old(hooks) && old(hooks)[h].valid :: old(hooks)[h].name != name);
        && (e == Ok <==> kind == Constructs(false) && free && !veto.new1 && !veto.new2 && !veto.connect1 && !veto.connect2)
        && (e == Enxio <==> kind == Unknown)
        && (e == Einval <==> kind == NoConstructor)
        && (e == Eexist <==> kind == Constructs(false) && !free)
      ensures e == Ok ==>
        && hooks == old(hooks)[h1 := Hook(name, true, To(h2), At(n), 2)][h2 := Hook(name2, true, To(h1), At(n2), 2)]
        && n in nodes && n2 in nodes && h1 in nodes[n].hooks && h2 in nodes[n2].hooks
    {
      hide Inv, Usable, Quiet, Taken, Closed, Added, Linked, FreshNode;
      MkpeerMeans(State(), kind, n, name, veto);
      MadeMeans(State(), n, name, h1, n2, name2, h2);
      if kind.Unknown? {
        return Enxio;
      }
      if kind.NoConstructor? {
        return Einval;
      }
      ghost var s0 := State();
      MkpeerStarts(s0, n2);
      NewNode(n2);
      if kind.veto {
        FreshNodeBack(s0, n2);
        NewNodeHas(s0, n2);
        UnrefNode(n2);
        return Vetoed;
      }
      e := Couple(n, name, n2, name2, h1, h2, veto, dies, s0);
    }
  }
}
