/** The state of the netgraph hook graph: hooks, nodes and their reference counts, and the small
    steps every operation is made of (lib/ff_ng_base.c). A hook or node is a number, its address;
    freed ones leave their map, so that every access shows the object to be alive. Beside the
    program's own state the multisets held and pinned record who else owns a reference: a local
    variable, an item on its way, or a link that was just taken apart. */
module NetgraphNet {
  import opened Lists

  datatype Link = Dead | To(h: nat)       // hk_peer, Dead is ng_deadhook
  datatype Home = Nowhere | At(n: nat)    // hk_node, Nowhere is ng_deadnode

  datatype Hook = Hook(name: string, valid: bool, peer: Link, node: Home, refs: nat)
  datatype Node = Node(hooks: seq<nat>, numhooks: nat, refs: nat, valid: bool, closing: bool)
  datatype Net = Net(hooks: map<nat, Hook>, nodes: map<nat, Node>, held: multiset<nat>, pinned: multiset<nat>)

  function One(b: bool): nat {
    if b then 1 else 0
  }

  /** Peers are mutual, a hook's node lists it, and its count is list membership plus peer link plus
      held references. */
  ghost predicate HookOk(s: Net, h: nat)
    requires h in s.hooks
  {
    var k := s.hooks[h];
    && (k.peer.To? ==> k.peer.h != h && k.peer.h in s.hooks && s.hooks[k.peer.h].peer == To(h))
    && (k.node.At? ==> k.node.n in s.nodes && h in s.nodes[k.node.n].hooks)
    && (k.valid ==> k.node.At?)
    && k.refs == One(k.node.At?) + One(k.peer.To?) + s.held[h]
    && k.refs > 0
  }

  ghost predicate NodeOk(s: Net, n: nat)
    requires n in s.nodes
  {
    var d := s.nodes[n];
    && Distinct(d.hooks)
    && (forall h | h in d.hooks :: h in s.hooks && s.hooks[h].node == At(n))
    && d.numhooks == |d.hooks|
    && d.refs == |d.hooks| + s.pinned[n]
    && n in s.pinned
  }

  ghost predicate Inv(s: Net) {
    && (forall h | h in s.hooks :: HookOk(s, h))
    && (forall n | n in s.nodes :: NodeOk(s, n))
    && (forall h | h in s.held :: h in s.hooks)
    && (forall n | n in s.pinned :: n in s.nodes)
  }

  lemma HookOpened(s: Net, h: nat)
    requires h in s.hooks && HookOk(s, h)
    ensures s.hooks[h].refs > 0 && (s.hooks[h].valid ==> s.hooks[h].node.At?)
    ensures s.hooks[h].node.At? ==> s.hooks[h].node.n in s.nodes && h in s.nodes[s.hooks[h].node.n].hooks
    ensures s.hooks[h].peer.To? ==>
      s.hooks[h].peer.h != h && s.hooks[h].peer.h in s.hooks && s.hooks[s.hooks[h].peer.h].peer == To(h)
    ensures s.hooks[h].refs == One(s.hooks[h].node.At?) + One(s.hooks[h].peer.To?) + s.held[h]
  {
  }

  lemma NodeOpened(s: Net, n: nat)
    requires n in s.nodes && NodeOk(s, n)
    ensures Distinct(s.nodes[n].hooks) && s.nodes[n].numhooks == |s.nodes[n].hooks| && n in s.pinned
    ensures forall h | h in s.nodes[n].hooks :: h in s.hooks && s.hooks[h].node == At(n)
    ensures s.nodes[n].refs == |s.nodes[n].hooks| + s.pinned[n]
  {
  }

  /** A hook is freed exactly when it is neither listed, nor linked, nor held. */
  lemma FreedWhenUnlinked(s: Net, h: nat)
    requires Inv(s) && h in s.hooks
    ensures s.hooks[h].node.At? || s.hooks[h].peer.To? || h in s.held
  {
    assert HookOk(s, h);
  }

  // ----- lists

  /** LIST_REMOVE of every element of out. */
  function Without(l: seq<nat>, out: set<nat>): seq<nat> {
    if l == [] then [] else (if l[0] in out then [] else [l[0]]) + Without(l[1..], out)
  }

  lemma {:induction false} WithoutIn(l: seq<nat>, out: set<nat>)
    ensures forall x :: x in Without(l, out) <==> x in l && x !in out
  {
    if l != [] {
      WithoutIn(l[1..], out);
    }
  }

  lemma {:induction false} WithoutDistinct(l: seq<nat>, out: set<nat>)
    requires Distinct(l)
    ensures Distinct(Without(l, out))
  {
    if l != [] {
      WithoutIn(l[1..], out);
      WithoutDistinct(l[1..], out);
    }
  }

  lemma {:induction false} WithoutOne(l: seq<nat>, x: nat)
    requires Distinct(l) && x in l
    ensures |Without(l, {x})| == |l| - 1
  {
    if l[0] == x {
      WithoutNone(l[1..], {x});
    } else {
      WithoutOne(l[1..], x);
    }
  }

  lemma {:induction false} WithoutNone(l: seq<nat>, out: set<nat>)
    requires forall x | x in l :: x !in out
    ensures Without(l, out) == l
  {
    if l != [] {
      WithoutNone(l[1..], out);
    }
  }

  lemma {:induction false} WithoutBoth(l: seq<nat>, a: set<nat>, b: set<nat>)
    ensures Without(Without(l, a), b) == Without(l, a + b)
  {
    if l != [] {
      WithoutBoth(l[1..], a, b);
      var head := if l[0] in a then [] else [l[0]];
      assert (head + Without(l[1..], a))[|head|..] == Without(l[1..], a);
    }
  }

  /** The nodes stay as they should be when they are not touched and no hook moves. */
  lemma NodesStay(s: Net, t: Net)
    requires Inv(s) && t.nodes == s.nodes && t.pinned == s.pinned
    requires forall h | h in s.hooks && s.hooks[h].node.At? :: h in t.hooks && t.hooks[h].node == s.hooks[h].node
    ensures forall n | n in t.nodes :: NodeOk(t, n)
  {
    hide Distinct, HookOk;
    forall n | n in t.nodes ensures NodeOk(t, n) {
      assert NodeOk(s, n);
    }
  }

  // ----- steps

  /** NG_HOOK_REF. */
  function Take(s: Net, h: nat): Net
    requires h in s.hooks
  {
    s.(hooks := s.hooks[h := s.hooks[h].(refs := s.hooks[h].refs + 1)], held := s.held + multiset{h})
  }

  lemma TakeHook(s: Net, h: nat, k: nat)
    requires h in s.hooks
    requires k in s.hooks && HookOk(s, k)
    ensures HookOk(Take(s, h), k)
  {
  }

  lemma TakeKeeps(s: Net, h: nat)
    requires Inv(s) && h in s.hooks
    ensures Inv(Take(s, h))
  {
    hide HookOk, NodeOk;
    var t := Take(s, h);
    forall k | k in t.hooks ensures HookOk(t, k) {
      TakeHook(s, h, k);
    }
    NodesStay(s, t);
  }

  /** NG_HOOK_UNREF: the last reference frees the hook. */
  function Drop(s: Net, h: nat): Net
    requires h in s.hooks && h in s.held && s.hooks[h].refs > 0
  {
    var k := s.hooks[h];
    s.(hooks := if k.refs == 1 then s.hooks - {h} else s.hooks[h := k.(refs := k.refs - 1)], held := s.held - multiset{h})
  }

  lemma DropHook(s: Net, h: nat, k: nat)
    requires h in s.hooks && h in s.held && HookOk(s, h)
    requires k in Drop(s, h).hooks && HookOk(s, k)
    ensures HookOk(Drop(s, h), k)
  {
  }

  lemma DropKeeps(s: Net, h: nat)
    requires Inv(s) && h in s.hooks && h in s.held
    ensures s.hooks[h].refs > 0 && Inv(Drop(s, h))
  {
    hide HookOk, NodeOk;
    HookOpened(s, h);
    var t := Drop(s, h);
    forall k | k in t.hooks ensures HookOk(t, k) {
      DropHook(s, h, k);
    }
    NodesStay(s, t);
  }

  /** Two hooks stop being peers; the counts of the two links now stand for held references. */
  function Cut(s: Net, h: nat, p: nat): Net
    requires h in s.hooks && p in s.hooks
  {
    s.(hooks := s.hooks[p := s.hooks[p].(peer := Dead)][h := s.hooks[h].(peer := Dead)], held := s.held + multiset{h, p})
  }

  lemma CutHook(s: Net, h: nat, p: nat, k: nat)
    requires h in s.hooks && s.hooks[h].peer == To(p) && p in s.hooks && HookOk(s, h) && HookOk(s, p)
    requires k in s.hooks && HookOk(s, k)
    ensures HookOk(Cut(s, h, p), k)
  {
  }

  lemma CutKeeps(s: Net, h: nat, p: nat)
    requires Inv(s) && h in s.hooks && s.hooks[h].peer == To(p)
    ensures p in s.hooks && Inv(Cut(s, h, p))
  {
    hide HookOk, NodeOk;
    HookOpened(s, h);
    var t := Cut(s, h, p);
    forall k | k in t.hooks ensures HookOk(t, k) {
      CutHook(s, h, p, k);
    }
    NodesStay(s, t);
  }

  /** Two unconnected hooks become peers. */
  function Join(s: Net, a: nat, b: nat): Net
    requires a in s.hooks && b in s.hooks && a != b
  {
    var x, y := s.hooks[a], s.hooks[b];
    s.(hooks := s.hooks[a := x.(peer := To(b), refs := x.refs + 1)][b := y.(peer := To(a), refs := y.refs + 1)])
  }

  lemma JoinHook(s: Net, a: nat, b: nat, k: nat)
    requires a in s.hooks && b in s.hooks && a != b && s.hooks[a].peer == Dead && s.hooks[b].peer == Dead
    requires k in s.hooks && HookOk(s, k)
    ensures HookOk(Join(s, a, b), k)
  {
  }

  lemma JoinKeeps(s: Net, a: nat, b: nat)
    requires Inv(s) && a in s.hooks && b in s.hooks && a != b && s.hooks[a].peer == Dead && s.hooks[b].peer == Dead
    ensures Inv(Join(s, a, b))
  {
    hide HookOk, NodeOk;
    var t := Join(s, a, b);
    forall k | k in t.hooks ensures HookOk(t, k) {
      JoinHook(s, a, b, k);
    }
    NodesStay(s, t);
  }

  /** The link updates of ng_bypass, in their order; the hooks' own links become held references. */
  function Bridge(s: Net, a: nat, b: nat): Net
    requires a in s.hooks && b in s.hooks
    requires s.hooks[a].peer.To? && s.hooks[b].peer.To? && s.hooks[a].peer.h in s.hooks && s.hooks[b].peer.h in s.hooks
  {
    var p := s.hooks[a].peer.h;
    var hooks1 := s.hooks[p := s.hooks[p].(peer := s.hooks[b].peer)];
    var q := hooks1[b].peer.h;
    var hooks2 := hooks1[q := hooks1[q].(peer := hooks1[a].peer)];
    var hooks3 := hooks2[a := hooks2[a].(peer := Dead)];
    s.(hooks := hooks3[b := hooks3[b].(peer := Dead)], held := s.held + multiset{a, b})
  }

  lemma BridgeKeeps(s: Net, a: nat, b: nat)
    requires Inv(s) && a in s.hooks && b in s.hooks && s.hooks[a].peer.To? && s.hooks[b].peer.To?
    ensures s.hooks[a].peer.h in s.hooks && s.hooks[b].peer.h in s.hooks
    ensures Inv(Bridge(s, a, b)) <==> a != b
  {
    hide HookOk, NodeOk;
    HookOpened(s, a);
    HookOpened(s, b);
    var t := Bridge(s, a, b);
    if a == b {
      var p := s.hooks[a].peer.h;
      assert t.hooks[p].peer == To(p);
      if HookOk(t, p) {
        HookOpened(t, p);
        assert false;
      }
    } else {
      forall k | k in t.hooks ensures HookOk(t, k) {
        BridgeHook(s, a, b, k);
      }
      NodesStay(s, t);
    }
  }

  lemma BridgeHook(s: Net, a: nat, b: nat, k: nat)
    requires a in s.hooks && b in s.hooks && s.hooks[a].peer.To? && s.hooks[b].peer.To? && a != b
    requires HookOk(s, a) && HookOk(s, b) && HookOk(s, s.hooks[a].peer.h) && HookOk(s, s.hooks[b].peer.h)
    requires k in s.hooks && HookOk(s, k)
    ensures HookOk(Bridge(s, a, b), k)
  {
  }

  /** A new hook, with the creator's reference. */
  function Fresh(s: Net, h: nat, name: string): Net {
    s.(hooks := s.hooks[h := Hook(name, false, Dead, Nowhere, 1)], held := s.held + multiset{h})
  }

  lemma FreshHook(s: Net, h: nat, name: string, k: nat)
    requires h !in s.hooks && h !in s.held
    requires (k == h || k in s.hooks) && (k in s.hooks ==> HookOk(s, k))
    ensures HookOk(Fresh(s, h, name), k)
  {
  }

  lemma FreshKeeps(s: Net, h: nat, name: string)
    requires Inv(s) && h !in s.hooks
    ensures Inv(Fresh(s, h, name))
  {
    hide HookOk, NodeOk;
    var t := Fresh(s, h, name);
    forall k | k in t.hooks ensures HookOk(t, k) {
      FreshHook(s, h, name, k);
    }
    NodesStay(s, t);
  }

  /** The hook enters its node's list; both get a reference for that. */
  function Enlist(s: Net, h: nat, n: nat): Net
    requires h in s.hooks && n in s.nodes
  {
    var k, d := s.hooks[h], s.nodes[n];
    s.(hooks := s.hooks[h := k.(node := At(n), refs := k.refs + 1)],
       nodes := s.nodes[n := d.(hooks := [h] + d.hooks, numhooks := d.numhooks + 1, refs := d.refs + 1)])
  }

  lemma EnlistHook(s: Net, h: nat, n: nat, k: nat)
    requires h in s.hooks && n in s.nodes && s.hooks[h].node == Nowhere
    requires k in s.hooks && HookOk(s, k)
    ensures HookOk(Enlist(s, h, n), k)
  {
  }

  lemma EnlistNode(s: Net, h: nat, n: nat, m: nat)
    requires h in s.hooks && n in s.nodes && s.hooks[h].node == Nowhere
    requires m in s.nodes && NodeOk(s, m)
    ensures NodeOk(Enlist(s, h, n), m)
  {
  }

  lemma EnlistKeeps(s: Net, h: nat, n: nat)
    requires Inv(s) && h in s.hooks && n in s.nodes && s.hooks[h].node == Nowhere
    ensures Inv(Enlist(s, h, n))
  {
    hide HookOk, NodeOk, Distinct;
    var t := Enlist(s, h, n);
    forall k | k in t.hooks ensures HookOk(t, k) {
      EnlistHook(s, h, n, k);
    }
    forall m | m in t.nodes ensures NodeOk(t, m) {
      EnlistNode(s, h, n, m);
    }
  }

  /** The hook leaves its node's list; the two references for that are held now. */
  function Unlist(s: Net, h: nat): Net
    requires h in s.hooks && s.hooks[h].node.At? && s.hooks[h].node.n in s.nodes && s.nodes[s.hooks[h].node.n].numhooks > 0
  {
    var n := s.hooks[h].node.n;
    var d := s.nodes[n];
    s.(hooks := s.hooks[h := s.hooks[h].(node := Nowhere)],
       nodes := s.nodes[n := d.(hooks := Without(d.hooks, {h}), numhooks := d.numhooks - 1)],
       held := s.held + multiset{h}, pinned := s.pinned + multiset{n})
  }

  lemma UnlistHook(s: Net, h: nat, k: nat)
    requires h in s.hooks && s.hooks[h].node.At? && !s.hooks[h].valid && s.hooks[h].node.n in s.nodes && s.nodes[s.hooks[h].node.n].numhooks > 0
    requires k in s.hooks && HookOk(s, k)
    ensures HookOk(Unlist(s, h), k)
  {
    WithoutIn(s.nodes[s.hooks[h].node.n].hooks, {h});
  }

  lemma UnlistNode(s: Net, h: nat, m: nat)
    requires h in s.hooks && s.hooks[h].node.At? && s.hooks[h].node.n in s.nodes && NodeOk(s, s.hooks[h].node.n) && h in s.nodes[s.hooks[h].node.n].hooks
    requires m in s.nodes && NodeOk(s, m)
    ensures NodeOk(Unlist(s, h), m)
  {
    var n := s.hooks[h].node.n;
    WithoutIn(s.nodes[n].hooks, {h});
    WithoutOne(s.nodes[n].hooks, h);
    WithoutDistinct(s.nodes[n].hooks, {h});
  }

  lemma UnlistKeeps(s: Net, h: nat)
    requires Inv(s) && h in s.hooks && s.hooks[h].node.At? && !s.hooks[h].valid
    ensures s.hooks[h].node.n in s.nodes && s.nodes[s.hooks[h].node.n].numhooks > 0
    ensures Inv(Unlist(s, h))
  {
    hide HookOk, NodeOk, Distinct;
    HookOpened(s, h);
    var n := s.hooks[h].node.n;
    NodeOpened(s, n);
    var t := Unlist(s, h);
    WithoutIn(s.nodes[n].hooks, {h});
    forall k | k in t.hooks ensures HookOk(t, k) {
      UnlistHook(s, h, k);
    }
    forall m | m in t.nodes ensures NodeOk(t, m) {
      UnlistNode(s, h, m);
    }
  }

  /** Setting or clearing HK_INVALID. */
  function Mark(s: Net, h: nat, valid: bool): Net
    requires h in s.hooks
  {
    s.(hooks := s.hooks[h := s.hooks[h].(valid := valid)])
  }

  lemma MarkHook(s: Net, h: nat, valid: bool, k: nat)
    requires h in s.hooks && (valid ==> s.hooks[h].node.At?)
    requires k in s.hooks && HookOk(s, k)
    ensures HookOk(Mark(s, h, valid), k)
  {
  }

  lemma MarkKeeps(s: Net, h: nat, valid: bool)
    requires Inv(s) && h in s.hooks && (valid ==> s.hooks[h].node.At?)
    ensures Inv(Mark(s, h, valid))
  {
    hide HookOk, NodeOk;
    var t := Mark(s, h, valid);
    forall k | k in t.hooks ensures HookOk(t, k) {
      MarkHook(s, h, valid, k);
    }
    NodesStay(s, t);
  }

  /** NG_NODE_REF. */
  function Pin(s: Net, n: nat): Net
    requires n in s.nodes
  {
    s.(nodes := s.nodes[n := s.nodes[n].(refs := s.nodes[n].refs + 1)], pinned := s.pinned + multiset{n})
  }

  lemma PinHook(s: Net, n: nat, k: nat)
    requires n in s.nodes
    requires k in s.hooks && HookOk(s, k)
    ensures HookOk(Pin(s, n), k)
  {
  }

  lemma PinNode(s: Net, n: nat, m: nat)
    requires n in s.nodes
    requires m in s.nodes && NodeOk(s, m)
    ensures NodeOk(Pin(s, n), m)
  {
  }

  lemma PinKeeps(s: Net, n: nat)
    requires Inv(s) && n in s.nodes
    ensures Inv(Pin(s, n))
  {
    hide HookOk, NodeOk, Distinct;
    var t := Pin(s, n);
    forall k | k in t.hooks ensures HookOk(t, k) {
      PinHook(s, n, k);
    }
    forall m | m in t.nodes ensures NodeOk(t, m) {
      PinNode(s, n, m);
    }
  }

  /** NG_NODE_UNREF: the last reference frees the node. */
  function Unpin(s: Net, n: nat): Net
    requires n in s.nodes && n in s.pinned && s.nodes[n].refs > 0
  {
    var d := s.nodes[n];
    s.(nodes := if d.refs == 1 then s.nodes - {n} else s.nodes[n := d.(refs := d.refs - 1)], pinned := s.pinned - multiset{n})
  }

  lemma UnpinHook(s: Net, n: nat, k: nat)
    requires n in s.nodes && n in s.pinned && s.nodes[n].refs > 0 && (s.nodes[n].refs == 1 ==> s.nodes[n].hooks == [])
    requires k in s.hooks && HookOk(s, k)
    ensures HookOk(Unpin(s, n), k)
  {
  }

  lemma UnpinNode(s: Net, n: nat, m: nat)
    requires n in s.nodes && n in s.pinned && s.nodes[n].refs > 0 && (s.pinned[n] > 1 || s.nodes[n].hooks == [])
    requires m in Unpin(s, n).nodes && NodeOk(s, m)
    ensures NodeOk(Unpin(s, n), m)
  {
  }

  lemma UnpinKeeps(s: Net, n: nat)
    requires Inv(s) && n in s.nodes && n in s.pinned && (s.pinned[n] > 1 || s.nodes[n].hooks == [])
    ensures s.nodes[n].refs > 0 && Inv(Unpin(s, n))
    ensures n in Unpin(s, n).nodes <==> s.pinned[n] > 1
  {
    hide HookOk, NodeOk, Distinct;
    NodeOpened(s, n);
    var t := Unpin(s, n);
    forall k | k in t.hooks ensures HookOk(t, k) {
      UnpinHook(s, n, k);
    }
    forall m | m in t.nodes ensures NodeOk(t, m) {
      UnpinNode(s, n, m);
    }
  }

  /** The node's NGF_INVALID and NGF_CLOSING flags. */
  function Flag(s: Net, n: nat, valid: bool, closing: bool): Net
    requires n in s.nodes
  {
    s.(nodes := s.nodes[n := s.nodes[n].(valid := valid, closing := closing)])
  }

  lemma FlagHook(s: Net, n: nat, valid: bool, closing: bool, k: nat)
    requires n in s.nodes
    requires k in s.hooks && HookOk(s, k)
    ensures HookOk(Flag(s, n, valid, closing), k)
  {
  }

  lemma FlagNode(s: Net, n: nat, valid: bool, closing: bool, m: nat)
    requires n in s.nodes
    requires m in s.nodes && NodeOk(s, m)
    ensures NodeOk(Flag(s, n, valid, closing), m)
  {
  }

  lemma FlagKeeps(s: Net, n: nat, valid: bool, closing: bool)
    requires Inv(s) && n in s.nodes
    ensures Inv(Flag(s, n, valid, closing))
  {
    hide HookOk, NodeOk, Distinct;
    var t := Flag(s, n, valid, closing);
    forall k | k in t.hooks ensures HookOk(t, k) {
      FlagHook(s, n, valid, closing, k);
    }
    forall m | m in t.nodes ensures NodeOk(t, m) {
      FlagNode(s, n, valid, closing, m);
    }
  }

  /** A new node, with the creator's reference. */
  function FreshNode(s: Net, n: nat): Net {
    s.(nodes := s.nodes[n := Node([], 0, 1, true, false)], pinned := s.pinned + multiset{n})
  }

  lemma FreshNodeHook(s: Net, n: nat, k: nat)
    requires n !in s.nodes
    requires k in s.hooks && HookOk(s, k)
    ensures HookOk(FreshNode(s, n), k)
  {
  }

  lemma FreshNodeNode(s: Net, n: nat, m: nat)
    requires n !in s.nodes && n !in s.pinned
    requires (m == n || m in s.nodes) && (m in s.nodes ==> NodeOk(s, m))
    ensures NodeOk(FreshNode(s, n), m)
  {
  }

  lemma FreshNodeKeeps(s: Net, n: nat)
    requires Inv(s) && n !in s.nodes
    ensures Inv(FreshNode(s, n))
  {
    hide HookOk, NodeOk, Distinct;
    var t := FreshNode(s, n);
    forall k | k in t.hooks ensures HookOk(t, k) {
      FreshNodeHook(s, n, k);
    }
    forall m | m in t.nodes ensures NodeOk(t, m) {
      FreshNodeNode(s, n, m);
    }
  }
}
