/** The hook graph without its counts. In a state that satisfies the invariant the counts follow from
    the rest, so the effect of an operation can be described by what one sees of each hook and node. */
module NetgraphView {
  import opened NetgraphNet

  datatype Sight = Gone | Seen(name: string, valid: bool, peer: Link, node: Home)
  datatype Place = NoPlace | Place(hooks: seq<nat>, valid: bool, closing: bool)

  function Look(s: Net, k: nat): Sight {
    if k in s.hooks then Seen(s.hooks[k].name, s.hooks[k].valid, s.hooks[k].peer, s.hooks[k].node) else Gone
  }

  function WithPeer(v: Sight, peer: Link): Sight {
    if v.Gone? then Gone else v.(peer := peer)
  }

  function WithNode(v: Sight, node: Home): Sight {
    if v.Gone? then Gone else v.(node := node)
  }

  function WithValid(v: Sight, valid: bool): Sight {
    if v.Gone? then Gone else v.(valid := valid)
  }

  function Stripped(v: Sight): Sight {
    if v.Gone? then Gone else Seen(v.name, false, Dead, Nowhere)
  }

  function Visit(s: Net, n: nat): Place {
    if n in s.nodes then Place(s.nodes[n].hooks, s.nodes[n].valid, s.nodes[n].closing) else NoPlace
  }

  ghost predicate SameHooks(s: Net, t: Net) {
    t.held == s.held && forall k {:trigger Look(t, k)} {:trigger Look(s, k)} :: Look(t, k) == Look(s, k)
  }

  ghost predicate SameNodes(s: Net, t: Net) {
    t.pinned == s.pinned && forall n {:trigger Visit(t, n)} {:trigger Visit(s, n)} :: Visit(t, n) == Visit(s, n)
  }

  /** What one sees determines the counts. */
  lemma SameNet(s: Net, t: Net)
    requires Inv(s) && Inv(t) && SameHooks(s, t) && SameNodes(s, t)
    ensures s == t
  {
    hide HookOk, NodeOk;
    forall k
      ensures k in s.hooks <==> k in t.hooks
      ensures k in s.hooks ==> s.hooks[k] == t.hooks[k]
    {
      assert Look(s, k) == Look(t, k);
      if k in s.hooks {
        HookOpened(s, k);
        HookOpened(t, k);
      }
    }
    forall n
      ensures n in s.nodes <==> n in t.nodes
      ensures n in s.nodes ==> s.nodes[n] == t.nodes[n]
    {
      assert Visit(s, n) == Visit(t, n);
      if n in s.nodes {
        NodeOpened(s, n);
        NodeOpened(t, n);
      }
    }
    assert s.hooks == t.hooks && s.nodes == t.nodes;
  }

  // ----- what the steps do to it

  lemma TakeSeen(s: Net, h: nat)
    requires h in s.hooks
    ensures var t := Take(s, h);
      && t.held == s.held + multiset{h} && SameNodes(s, t)
      && forall k {:trigger Look(t, k)} :: Look(t, k) == Look(s, k)
  {
  }

  lemma DropSeen(s: Net, h: nat)
    requires h in s.hooks && HookOk(s, h) && h in s.held
    ensures s.hooks[h].refs > 0
    ensures var t := Drop(s, h);
      && t.held == s.held - multiset{h} && SameNodes(s, t)
      && forall k {:trigger Look(t, k)} :: Look(t, k) ==
           if k == h && s.held[h] == 1 && s.hooks[h].peer == Dead && s.hooks[h].node == Nowhere then Gone else Look(s, k)
  {
  }

  lemma CutSeen(s: Net, h: nat, p: nat)
    requires h in s.hooks && p in s.hooks
    ensures var t := Cut(s, h, p);
      && t.held == s.held + multiset{h, p} && SameNodes(s, t)
      && forall k {:trigger Look(t, k)} :: Look(t, k) == if k == h || k == p then WithPeer(Look(s, k), Dead) else Look(s, k)
  {
  }

  lemma JoinSeen(s: Net, a: nat, b: nat)
    requires a in s.hooks && b in s.hooks && a != b
    ensures var t := Join(s, a, b);
      && t.held == s.held && SameNodes(s, t)
      && forall k {:trigger Look(t, k)} :: Look(t, k) ==
           if k == a then WithPeer(Look(s, a), To(b)) else if k == b then WithPeer(Look(s, b), To(a)) else Look(s, k)
  {
  }

  lemma FreshSeen(s: Net, h: nat, name: string)
    ensures var t := Fresh(s, h, name);
      && t.held == s.held + multiset{h} && SameNodes(s, t)
      && forall k {:trigger Look(t, k)} :: Look(t, k) == if k == h then Seen(name, false, Dead, Nowhere) else Look(s, k)
  {
  }

  lemma MarkSeen(s: Net, h: nat, valid: bool)
    requires h in s.hooks
    ensures var t := Mark(s, h, valid);
      && t.held == s.held && SameNodes(s, t)
      && forall k {:trigger Look(t, k)} :: Look(t, k) == if k == h then WithValid(Look(s, h), valid) else Look(s, k)
  {
  }

  lemma EnlistSeen(s: Net, h: nat, n: nat)
    requires h in s.hooks && n in s.nodes
    ensures var t := Enlist(s, h, n);
      && t.held == s.held && t.pinned == s.pinned
      && (forall k {:trigger Look(t, k)} :: Look(t, k) == if k == h then WithNode(Look(s, h), At(n)) else Look(s, k))
      && (forall m {:trigger Visit(t, m)} :: Visit(t, m) ==
            if m == n then Visit(s, n).(hooks := [h] + s.nodes[n].hooks) else Visit(s, m))
  {
  }

  lemma UnlistSeen(s: Net, h: nat)
    requires h in s.hooks && s.hooks[h].node.At? && s.hooks[h].node.n in s.nodes && s.nodes[s.hooks[h].node.n].numhooks > 0
    ensures var t, n := Unlist(s, h), s.hooks[h].node.n;
      && t.held == s.held + multiset{h} && t.pinned == s.pinned + multiset{n}
      && (forall k {:trigger Look(t, k)} :: Look(t, k) == if k == h then WithNode(Look(s, h), Nowhere) else Look(s, k))
      && (forall m {:trigger Visit(t, m)} :: Visit(t, m) ==
            if m == n then Visit(s, n).(hooks := Without(s.nodes[n].hooks, {h})) else Visit(s, m))
  {
  }

  lemma PinSeen(s: Net, n: nat)
    requires n in s.nodes
    ensures var t := Pin(s, n);
      && t.pinned == s.pinned + multiset{n} && SameHooks(s, t)
      && forall m {:trigger Visit(t, m)} :: Visit(t, m) == Visit(s, m)
  {
  }

  lemma UnpinSeen(s: Net, n: nat)
    requires n in s.nodes && NodeOk(s, n)
    ensures s.nodes[n].refs > 0
    ensures var t := Unpin(s, n);
      && t.pinned == s.pinned - multiset{n} && SameHooks(s, t)
      && forall m {:trigger Visit(t, m)} :: Visit(t, m) ==
           if m == n && s.pinned[n] == 1 && s.nodes[n].hooks == [] then NoPlace else Visit(s, m)
  {
  }

  lemma FlagSeen(s: Net, n: nat, valid: bool, closing: bool)
    requires n in s.nodes
    ensures var t := Flag(s, n, valid, closing);
      && t.pinned == s.pinned && SameHooks(s, t)
      && forall m {:trigger Visit(t, m)} :: Visit(t, m) ==
           if m == n then Visit(s, n).(valid := valid, closing := closing) else Visit(s, m)
  {
  }

  lemma FreshNodeSeen(s: Net, n: nat)
    ensures var t := FreshNode(s, n);
      && t.pinned == s.pinned + multiset{n} && SameHooks(s, t)
      && forall m {:trigger Visit(t, m)} :: Visit(t, m) == if m == n then Place([], true, false) else Visit(s, m)
  {
  }

  // ----- what taking hooks away means

  /** The hooks in out are taken from their nodes and peers; those that nobody holds are freed. */
  ghost predicate Shed(s: Net, t: Net, out: set<nat>) {
    && t.held == s.held && t.pinned == s.pinned
    && (forall k {:trigger Look(t, k)} :: Look(t, k) == ShedLook(Look(s, k), k, out, s.held[k]))
    && (forall n {:trigger Visit(t, n)} :: Visit(t, n) == ShedVisit(Visit(s, n), out))
  }

  function ShedLook(v: Sight, k: nat, out: set<nat>, holds: nat): Sight {
    if v.Gone? then Gone
    else if k in out then (if holds > 0 then Seen(v.name, false, Dead, Nowhere) else Gone)
    else if v.peer.To? && v.peer.h in out then v.(peer := Dead)
    else v
  }

  function ShedVisit(p: Place, out: set<nat>): Place {
    if p.NoPlace? then NoPlace else p.(hooks := Without(p.hooks, out))
  }

  /** What destroying h takes away: h and its peer, unless the peer's node is invalid and refuses. */
  function Zapped(s: Net, h: nat): set<nat>
    requires h in s.hooks
  {
    match s.hooks[h].peer
    case Dead => {h}
    case To(p) => if p in s.hooks && Refuses(s, s.hooks[p].node) then {h} else {h, p}
  }

  predicate Refuses(s: Net, home: Home) {
    home.At? && home.n in s.nodes && !s.nodes[home.n].valid
  }
}
