/** Netgraph nodes by ID and by name (lib/ff_ng_base.c). The hash of a name is an arbitrary function;
    that the program masks its value where the model takes a remainder makes no difference, because
    the tables' sizes are powers of two (Rss.MaskIsRemainder). */
module NodeRegistry {
  import opened Lists
  import opened Options
  import opened Arith
  import opened NodeHash

  const NG_NODESIZ := 32

  /** What the tables know of a node; a node without a name has the empty one. */
  datatype Node = Node(id: nat, name: string, valid: bool)

  datatype Error = Ok | Einval | Eaddrinuse

  function Ids(nodes: map<nat, Node>): map<nat, nat> {
    map n | n in nodes :: nodes[n].id
  }

  predicate HasId(nodes: map<nat, Node>, n: nat, id: nat) {
    n in nodes && nodes[n].valid && nodes[n].id == id
  }

  predicate HasName(nodes: map<nat, Node>, n: nat, name: string) {
    n in nodes && nodes[n].valid && nodes[n].name == name
  }

  function Size<V>(m: map<nat, V>): nat {
    |m|
  }

  function Hashes(filed: map<nat, string>, hash: string -> nat): map<nat, nat> {
    map n | n in filed :: hash(filed[n])
  }

  // ----- the check of a name

  predicate Stops(c: char) {
    c == '.' || c == ':'
  }

  /** The name is neither empty nor too long and has no dots and colons. A name of NG_NODESIZ characters
      passes, although only NG_NODESIZ - 1 of them are kept. */
  predicate Proper(name: string) {
    0 < |name| <= NG_NODESIZ && forall i | 0 <= i < |name| :: !Stops(name[i])
  }

  /** The loop over the name, which ends with a zero character. */
  method CheckName(name: string) returns (ok: bool)
    ensures (ok <==> Proper(name)) && (ok ==> name != [])
    ensures ok <==> 1 <= |name| <= 32 && '.' !in name && ':' !in name
  {
    var i := 0;
    while i < NG_NODESIZ && i < |name| && !Stops(name[i])
      invariant 0 <= i <= |name| && i <= NG_NODESIZ && forall j | 0 <= j < i :: !Stops(name[j])
    {
      i := i + 1;
    }
    return i != 0 && i == |name|;
  }

  /** strlcpy into the node. */
  function Kept(name: string): string {
    if |name| < NG_NODESIZ then name else name[..NG_NODESIZ - 1]
  }

  // ----- the names

  /** The nodes, the name by which each was put into its list, and the number of lists. That name is the one
      given, which may be longer than the one kept. */
  datatype Directory = Directory(nodes: map<nat, Node>, filed: map<nat, string>, size: nat)

  ghost predicate DirOk(d: Directory) {
    && d.size > 0
    && (forall n :: n in d.filed <==> n in d.nodes && d.nodes[n].name != [])
    && (forall n | n in d.filed :: Kept(d.filed[n]) == d.nodes[n].name)
  }

  /** What the search by name sees: a valid node with that name in the list of that name. */
  ghost predicate Findable(d: Directory, hash: string -> nat, n: nat, name: string) {
    && HasName(d.nodes, n, name) && n in d.filed
    && d.size > 0 && Slot(hash(d.filed[n]), d.size) == Slot(hash(name), d.size)
  }

  /** No name was cut short. */
  ghost predicate Plain(d: Directory) {
    forall n | n in d.filed && n in d.nodes :: d.filed[n] == d.nodes[n].name
  }

  /** ng_name_rehash puts each node into the list of the name it has kept. */
  function Refiled(d: Directory): Directory {
    d.(filed := map n | n in d.filed && n in d.nodes :: d.nodes[n].name, size := 2 * d.size)
  }

  /** A crowded table is doubled if there is memory. */
  function Grown(d: Directory, room: bool): Directory {
    if room && 2 * |d.filed| > d.size - 1 then Refiled(d) else d
  }

  /** ng_name_node. */
  ghost function Named(d: Directory, hash: string -> nat, n: nat, name: string, isId: bool, room: bool): (Directory, Error)
    requires n in d.nodes
  {
    if !Proper(name) || isId then (d, Einval)
    else
      var g := Grown(d, room);
      if exists m :: Findable(g, hash, m, name) then (g, Eaddrinuse)
      else (Renamed(g, n, name), Ok)
  }

  function Renamed(d: Directory, n: nat, name: string): Directory
    requires n in d.nodes
  {
    d.(nodes := d.nodes[n := d.nodes[n].(name := Kept(name))], filed := d.filed[n := name])
  }

  lemma RefiledOk(d: Directory)
    requires DirOk(d)
    ensures DirOk(Refiled(d)) && Plain(Refiled(d)) && Refiled(d).filed.Keys == d.filed.Keys
  {
  }

  lemma GrownOk(d: Directory, room: bool)
    requires DirOk(d)
    ensures DirOk(Grown(d, room)) && Grown(d, room).nodes == d.nodes && (Plain(d) ==> Plain(Grown(d, room)))
  {
    hide DirOk, Plain;
    RefiledOk(d);
  }

  lemma RenamedOk(d: Directory, n: nat, name: string)
    requires DirOk(d) && n in d.nodes && name != []
    ensures DirOk(Renamed(d, n, name))
  {
  }

  lemma NamedOk(d: Directory, hash: string -> nat, n: nat, name: string, isId: bool, room: bool)
    requires DirOk(d) && n in d.nodes
    ensures DirOk(Named(d, hash, n, name, isId, room).0)
  {
    hide DirOk, Findable;
    GrownOk(d, room);
    if Proper(name) {
      RenamedOk(Grown(d, room), n, name);
    }
  }

  /** The outcome of naming a node, spelled out. */
  lemma NamedMeans(d: Directory, hash: string -> nat, n: nat, name: string, isId: bool, room: bool)
    requires DirOk(d) && n in d.nodes
    ensures var (t, e) := Named(d, hash, n, name, isId, room);
      var proper := 1 <= |name| <= 32 && '.' !in name && ':' !in name;
      && (e == Einval <==> isId || !proper)
      && (Plain(d) ==> (e == Ok <==> !isId && proper && forall m | m in d.nodes && d.nodes[m].valid :: d.nodes[m].name != name))
      && t.nodes == if e == Ok then d.nodes[n := d.nodes[n].(name := if |name| < 32 then name else name[..31])] else d.nodes
  {
    hide DirOk, Plain, Findable, Grown;
    GrownOk(d, room);
    var g := Grown(d, room);
    assert Proper(name) <==> 1 <= |name| <= 32 && '.' !in name && ':' !in name;
    if Plain(d) && name != [] {
      forall m ensures Findable(g, hash, m, name) <==> HasName(d.nodes, m, name) {
        PlainFinds(g, hash, m, name);
      }
      if exists m | m in d.nodes && d.nodes[m].valid :: d.nodes[m].name == name {
        var m :| m in d.nodes && d.nodes[m].valid && d.nodes[m].name == name;
        assert HasName(d.nodes, m, name);
      }
    }
  }

  /** A name of NG_NODESIZ characters or more is never found. */
  lemma TooLong(d: Directory, hash: string -> nat, n: nat, name: string)
    requires DirOk(d) && |name| >= NG_NODESIZ
    ensures !Findable(d, hash, n, name)
  {
  }

  /** The name that a node was just given finds that node and no other, if the node is valid and the name has
      fewer than NG_NODESIZ characters; otherwise it finds nothing. It does not matter whether the node had a
      name before, nor what the hash function is. */
  lemma FoundByName(d: Directory, hash: string -> nat, n: nat, name: string, isId: bool, room: bool, m: nat)
    requires DirOk(d) && n in d.nodes && Named(d, hash, n, name, isId, room).1 == Ok
    ensures Findable(Named(d, hash, n, name, isId, room).0, hash, m, name) <==>
            m == n && d.nodes[n].valid && |name| < NG_NODESIZ
  {
    GrownOk(d, room);
    var g, t := Grown(d, room), Named(d, hash, n, name, isId, room).0;
    hide DirOk, Grown, Plain, Slot, Proper;
    assert t == Renamed(g, n, name);
    assert !Findable(g, hash, m, name);
    if |name| >= NG_NODESIZ {
      NamedOk(d, hash, n, name, isId, room);
      TooLong(t, hash, m, name);
    }
  }

  /** Such a name is never in use: any number of nodes can be given it, and all keep the same shorter name. */
  lemma LongNameTaken(d: Directory, hash: string -> nat, n: nat, name: string, room: bool)
    requires DirOk(d) && n in d.nodes && Proper(name) && |name| == NG_NODESIZ
    ensures var (t, e) := Named(d, hash, n, name, false, room);
      e == Ok && t.nodes == d.nodes[n := d.nodes[n].(name := name[..NG_NODESIZ - 1])]
  {
    hide DirOk, Grown, Findable, Plain;
    GrownOk(d, room);
    var g := Grown(d, room);
    forall m ensures !Findable(g, hash, m, name) {
      TooLong(g, hash, m, name);
    }
  }

  /** As long as no name was cut short, the search finds exactly the valid nodes that have the name. */
  lemma PlainFinds(d: Directory, hash: string -> nat, n: nat, name: string)
    requires DirOk(d) && Plain(d) && name != []
    ensures Findable(d, hash, n, name) <==> HasName(d.nodes, n, name)
  {
    hide Slot;
  }

  /** That ends with the first name of NG_NODESIZ characters that a node is given. */
  lemma NamedPlain(d: Directory, hash: string -> nat, n: nat, name: string, isId: bool, room: bool)
    requires DirOk(d) && Plain(d) && n in d.nodes
    ensures var (t, e) := Named(d, hash, n, name, isId, room);
      Plain(t) <==> (e == Ok ==> |name| < NG_NODESIZ)
  {
    hide DirOk, Grown, Findable, Proper;
    GrownOk(d, room);
    var (t, e) := Named(d, hash, n, name, isId, room);
    if e == Ok {
      assert t.filed[n] == name && t.nodes[n].name == Kept(name);
    }
  }

  // ----- looking up

  /** The first valid node of a list that has the ID. */
  method FindInIds(l: seq<nat>, nodes: map<nat, Node>, id: nat) returns (r: Option<nat>)
    requires forall n | n in l :: n in nodes
    ensures r.None? <==> forall n | n in l :: !HasId(nodes, n, id)
    ensures r.Some? ==> r.value in l && HasId(nodes, r.value, id)
  {
    for i := 0 to |l|
      invariant forall n | n in l[..i] :: !HasId(nodes, n, id)
    {
      if nodes[l[i]].valid && nodes[l[i]].id == id {
        assert HasId(nodes, l[i], id);
        return Some(l[i]);
      }
      assert l[..i+1] == l[..i] + [l[i]];
    }
    assert l[..|l|] == l;
    return None;
  }

  method FindInNames(l: seq<nat>, nodes: map<nat, Node>, name: string) returns (r: Option<nat>)
    requires forall n | n in l :: n in nodes
    ensures r.None? <==> forall n | n in l :: !HasName(nodes, n, name)
    ensures r.Some? ==> r.value in l && HasName(nodes, r.value, name)
  {
    for i := 0 to |l|
      invariant forall n | n in l[..i] :: !HasName(nodes, n, name)
    {
      if nodes[l[i]].valid && nodes[l[i]].name == name {
        assert HasName(nodes, l[i], name);
        return Some(l[i]);
      }
      assert l[..i+1] == l[..i] + [l[i]];
    }
    assert l[..|l|] == l;
    return None;
  }

  lemma IdBucket(t: Table, nodes: map<nat, Node>, id: nat)
    requires Holds(t, Ids(nodes))
    ensures forall n | n in t[Slot(id, |t|)] :: n in nodes
    ensures forall n | HasId(nodes, n, id) :: n in t[Slot(id, |t|)]
  {
    assert ListOk(t, Ids(nodes), Slot(id, |t|));
    forall n | HasId(nodes, n, id) ensures n in t[Slot(id, |t|)] {
      assert n in Ids(nodes) && Ids(nodes)[n] == id;
    }
  }

  lemma NameBucket(t: Table, d: Directory, hash: string -> nat, name: string)
    requires DirOk(d) && Holds(t, Hashes(d.filed, hash)) && |t| == d.size
    ensures forall n | n in t[Slot(hash(name), |t|)] :: n in d.nodes
    ensures forall n | n in t[Slot(hash(name), |t|)] && HasName(d.nodes, n, name) :: Findable(d, hash, n, name)
    ensures forall n | Findable(d, hash, n, name) :: n in t[Slot(hash(name), |t|)]
  {
    hide Slot;
    assert ListOk(t, Hashes(d.filed, hash), Slot(hash(name), |t|));
    forall n | Findable(d, hash, n, name) ensures n in t[Slot(hash(name), |t|)] {
      assert n in Hashes(d.filed, hash);
    }
  }

  // ----- the tables

  class Registry {
    const hash: string -> nat        // hash32_str
    var nodes: map<nat, Node>
    var filed: map<nat, string>      // the name whose list a node is linked into
    var idTable: Table               // V_ng_ID_hash
    var nameTable: Table             // V_ng_name_hash
    var count: nat                   // V_ng_nodes
    var named: nat                   // V_ng_named_nodes
    var nextId: nat                  // V_nextID

    function View(): Directory
      reads this
    {
      Directory(nodes, filed, |nameTable|)
    }

    /** Both tables hold the nodes they should. */
    ghost predicate Tables()
      reads this
    {
      && Holds(idTable, Ids(nodes)) && Holds(nameTable, Hashes(filed, hash)) && DirOk(View())
      && PowerOfTwo(|idTable|) && PowerOfTwo(|nameTable|)
    }

    ghost predicate Valid()
      reads this
    {
      Tables() && count == Size(nodes) && named == Size(filed) && nextId < TWO32
    }

    constructor (hash: string -> nat, first: nat)
      requires first < TWO32
      ensures Valid() && View() == Directory(map[], map[], 16) && this.hash == hash
    {
      this.hash := hash;
      nodes, filed, count, named, nextId := map[], map[], 0, 0, first;
      idTable, nameTable := seq(16, _ => []), seq(16, _ => []);
      new;
      Sixteen();
      EmptyHolds(16);
      assert Ids(map[]) == map[] && Hashes(map[], hash) == map[];
    }

    /** NG_IDHASH_FIND: a valid node with the ID is found exactly when there is one. */
    method FindId(id: nat) returns (r: Option<nat>)
      requires Tables()
      ensures r.Some? <==> exists n :: HasId(nodes, n, id)
      ensures r.Some? ==> HasId(nodes, r.value, id)
    {
      hide Ids, Hashes, Slot, DirOk;
      IdBucket(idTable, nodes, id);
      r := FindInIds(idTable[Slot(id, |idTable|)], nodes, id);
    }

    /** The search of ng_name2noderef. */
    method FindName(name: string) returns (r: Option<nat>)
      requires Tables()
      ensures r.Some? <==> exists n :: Findable(View(), hash, n, name)
      ensures r.Some? ==> Findable(View(), hash, r.value, name)
      ensures Plain(View()) && name != [] ==> (r.Some? <==> exists n :: HasName(nodes, n, name))
    {
      hide Ids, Hashes, Slot, DirOk, Findable, HasName, Plain;
      HoldsSome(nameTable, Hashes(filed, hash));
      NameBucket(nameTable, View(), hash, name);
      r := FindInNames(nameTable[Slot(hash(name), |nameTable|)], nodes, name);
      FindableNamed(View(), hash, name);
      if Plain(View()) && name != [] {
        forall n ensures Findable(View(), hash, n, name) <==> HasName(nodes, n, name) {
          PlainFinds(View(), hash, n, name);
        }
      }
    }

    /** The rehashing steps: without memory the table stays as it is. */
    method GrowIds(room: bool)
      requires Tables()
      modifies this`idTable
      ensures Tables() && |idTable| == if room then 2 * old(|idTable|) else old(|idTable|)
    {
      hide Holds, Ids, Hashes, DirOk, PowerOfTwo, Inserted, Size;
      if !room {
        return;
      }
      HoldsSome(idTable, Ids(nodes));
      var size := HashSize(2 * |idTable|);
      PowerDoubled(|idTable|);
      PowersApart(size, 2 * |idTable|);
      idTable := Rehash(idTable, size, Ids(nodes), Ids(nodes));
    }

    method GrowNames(room: bool)
      requires Tables()
      modifies this`nameTable, this`filed
      ensures Tables() && View() == if room then Refiled(old(View())) else old(View())
      ensures Size(filed) == old(Size(filed))
    {
      hide Holds, Ids, DirOk, Plain, PowerOfTwo;
      if !room {
        return;
      }
      HoldsSome(nameTable, Hashes(filed, hash));
      RefiledOk(View());
      var size := HashSize(2 * |nameTable|);
      PowerDoubled(|nameTable|);
      PowersApart(size, 2 * |nameTable|);
      var kept := Refiled(View()).filed;
      SameSize(kept, filed);
      nameTable := Rehash(nameTable, size, Hashes(filed, hash), Hashes(kept, hash));
      filed := kept;
    }

    /** The loop that chooses an ID: the first one after the last that is neither 0 nor in use. IDs are 32
        bits wide; as long as they are not all in use, it ends. */
    method ChooseId() returns (id: nat, ghost k: nat)
      requires Valid() && Size(nodes) < TWO32 - 1
      modifies this`nextId
      ensures Valid() && 0 < id < TWO32 && forall n :: !HasId(nodes, n, id)
      ensures id == Nth(old(nextId), k) && nextId == Nth(old(nextId), k + 1) && Tried(old(nextId), k) <= UsedIds(nodes) + {0}
    {
      hide Holds, Ids, Hashes, Slot, Nth, Tried, UsedIds, PowerOfTwo, DirOk, Size;
      ghost var start := nextId;
      k := 0;
      ghost var used := UsedIds(nodes) + {0};
      UsedFew(nodes);
      TriedNone(start);
      while true
        invariant Valid() && k <= |used| && nextId == Nth(start, k) && Tried(start, k) <= used && |Tried(start, k)| == k
        decreases |used| - k
      {
        id := nextId;
        nextId := if nextId + 1 == TWO32 then 0 else nextId + 1;
        var other := FindId(id);
        TriedMore(start, k);
        if id != 0 && other.None? {
          return;
        }
        if id != 0 {
          IsUsed(nodes, other.value, id);
        }
        SubsetSize(Tried(start, k + 1), used);
        k := k + 1;
      }
    }

    /** ng_make_node_common, as far as the tables are concerned. */
    method MakeNode(n: nat, room: bool) returns (id: nat)
      requires Valid() && n !in nodes && Size(nodes) < TWO32 - 1
      modifies this
      ensures Valid() && 0 < id < TWO32 && View() == old(View()).(nodes := old(nodes)[n := Node(id, [], true)])
      ensures forall m :: !HasId(old(nodes), m, id)
    {
      hide Holds, Ids, Hashes, DirOk, PowerOfTwo, Inserted, Size;
      ghost var k;
      id, k := ChooseId();
      count := count + 1;
      if count * 2 > |idTable| - 1 {
        GrowIds(room);
      }
      Joins(View(), n, id);
      HoldsSome(idTable, Ids(nodes));
      InsertedHolds(idTable, Ids(nodes), n, id);
      idTable := Inserted(idTable, n, id);
      nodes := nodes[n := Node(id, [], true)];
    }

    /** ng_name_node. A name of the form of an ID is refused; whether it is one is given. */
    method NameNode(n: nat, name: string, isId: bool, room: bool) returns (e: Error)
      requires Valid() && n in nodes
      modifies this
      ensures Valid() && (View(), e) == Named(old(View()), hash, n, name, isId, room)
      ensures e == Einval <==> isId || !(1 <= |name| <= 32 && '.' !in name && ':' !in name)
      ensures Plain(old(View())) ==>
        (e == Ok <==> !isId && 1 <= |name| <= 32 && '.' !in name && ':' !in name &&
                      forall m | m in old(nodes) && old(nodes)[m].valid :: old(nodes)[m].name != name)
      ensures nodes == if e == Ok then old(nodes)[n := old(nodes)[n].(name := if |name| < 32 then name else name[..31])] else old(nodes)
      ensures e == Ok ==> forall m :: Findable(View(), hash, m, name) <==> m == n && nodes[n].valid && |name| < NG_NODESIZ
    {
      hide Holds, Ids, Hashes, Slot, Inserted, Removed, Proper, DirOk, Findable, Refiled, Renamed, PowerOfTwo;
      ghost var d := View();
      NamedMeans(d, hash, n, name, isId, room);
      var ok := CheckName(name);
      if !ok || isId {
        return Einval;
      }
      if named * 2 > |nameTable| - 1 {
        GrowNames(room);
      }
      var other := FindName(name);
      if other.Some? {
        return Eaddrinuse;
      }
      Rename(n, name);
      RenamedValid(Grown(d, room), n, name);
      forall m ensures Findable(View(), hash, m, name) <==> m == n && nodes[n].valid && |name| < NG_NODESIZ {
        FoundByName(d, hash, n, name, isId, room, m);
      }
      return Ok;
    }

    /** Its end: the node moves to the list of its new name, which is copied as far as it fits. */
    method Rename(n: nat, name: string)
      requires Valid() && n in nodes && name != []
      modifies this
      ensures Valid() && View() == Renamed(old(View()), n, name)
    {
      hide Holds, Ids, Hashes, Slot, Inserted, Removed, DirOk, PowerOfTwo, Size;
      RenamedOk(View(), n, name);
      IsFiled(View(), n);
      Renames(View(), n, name, hash);
      if nodes[n].name != [] {
        RemovedHolds(nameTable, Hashes(filed, hash), n);
        HoldsSome(nameTable, Hashes(filed, hash));
        nameTable := Removed(nameTable, n, hash(filed[n]));
      } else {
        named := named + 1;
      }
      HoldsSome(nameTable, Hashes(filed, hash) - {n});
      InsertedHolds(nameTable, Hashes(filed, hash) - {n}, n, hash(name));
      nodes := nodes[n := nodes[n].(name := Kept(name))];
      filed := filed[n := name];
      nameTable := Inserted(nameTable, n, hash(name));
    }

    /** ng_unref_node, when the last reference goes. */
    method FreeNode(n: nat)
      requires Valid() && n in nodes
      modifies this
      ensures Valid() && View() == old(View()).(nodes := old(nodes) - {n}, filed := old(filed) - {n})
    {
      hide Holds, Ids, Hashes, Slot, Removed, DirOk, PowerOfTwo, Size;
      IsFiled(View(), n);
      Leaves(View(), n, hash);
      if nodes[n].name != [] {
        named := named - 1;
        RemovedHolds(nameTable, Hashes(filed, hash), n);
        HoldsSome(nameTable, Hashes(filed, hash));
        nameTable := Removed(nameTable, n, hash(filed[n]));
      }
      count := count - 1;
      RemovedHolds(idTable, Ids(nodes), n);
      HoldsSome(idTable, Ids(nodes));
      idTable := Removed(idTable, n, nodes[n].id);
      nodes := nodes - {n};
      filed := filed - {n};
    }

    /** Setting or clearing NGF_INVALID, wherever that is done. */
    method SetValid(n: nat, valid: bool)
      requires Valid() && n in nodes
      modifies this`nodes
      ensures Valid() && View() == old(View()).(nodes := old(nodes)[n := old(nodes)[n].(valid := valid)])
    {
      hide Holds, Ids, Hashes, DirOk, PowerOfTwo, Inserted, Size;
      Flips(View(), n, valid);
      nodes := nodes[n := nodes[n].(valid := valid)];
    }
  }

  lemma FindableNamed(d: Directory, hash: string -> nat, name: string)
    ensures forall n | Findable(d, hash, n, name) :: HasName(d.nodes, n, name)
  {
  }

  lemma SameSize<V, W>(a: map<nat, V>, b: map<nat, W>)
    requires a.Keys == b.Keys
    ensures Size(a) == Size(b)
  {
    assert |a| == |a.Keys| && |b| == |b.Keys|;
  }

  lemma RenamedValid(d: Directory, n: nat, name: string)
    requires n in d.nodes
    ensures n in Renamed(d, n, name).nodes && Renamed(d, n, name).nodes[n].valid == d.nodes[n].valid
  {
  }

  lemma IsFiled(d: Directory, n: nat)
    requires DirOk(d) && n in d.nodes
    ensures n in d.filed <==> d.nodes[n].name != []
  {
  }

  lemma Joins(d: Directory, n: nat, id: nat)
    requires DirOk(d) && n !in d.nodes
    ensures n !in Ids(d.nodes)
    ensures var nodes' := d.nodes[n := Node(id, [], true)];
      Ids(nodes') == Ids(d.nodes)[n := id] && Size(nodes') == Size(d.nodes) + 1 && DirOk(d.(nodes := nodes'))
  {
  }

  lemma Renames(d: Directory, n: nat, name: string, hash: string -> nat)
    requires n in d.nodes
    ensures n in Hashes(d.filed, hash) <==> n in d.filed
    ensures n in d.filed ==> Hashes(d.filed, hash)[n] == hash(d.filed[n])
    ensures n !in d.filed ==> Hashes(d.filed, hash) - {n} == Hashes(d.filed, hash)
    ensures var t := Renamed(d, n, name);
      && Ids(t.nodes) == Ids(d.nodes) && Size(t.nodes) == Size(d.nodes)
      && Hashes(t.filed, hash) == (Hashes(d.filed, hash) - {n})[n := hash(name)]
      && Size(t.filed) == Size(d.filed) + (if n in d.filed then 0 else 1)
  {
    hide Size;
    var t := Renamed(d, n, name);
    RenamesHashes(d.filed, n, name, hash);
    assert t.nodes.Keys == d.nodes.Keys;
    SameSize(t.nodes, d.nodes);
    OneMore(d.filed, n, name);
  }

  lemma RenamesHashes(filed: map<nat, string>, n: nat, name: string, hash: string -> nat)
    ensures Hashes(filed[n := name], hash) == (Hashes(filed, hash) - {n})[n := hash(name)]
    ensures n !in filed ==> Hashes(filed, hash) - {n} == Hashes(filed, hash)
  {
  }

  lemma OneMore<V>(m: map<nat, V>, n: nat, v: V)
    ensures Size(m[n := v]) == Size(m) + (if n in m then 0 else 1)
  {
    if n in m {
      assert m[n := v].Keys == m.Keys;
      SameSize(m[n := v], m);
    }
  }

  lemma Leaves(d: Directory, n: nat, hash: string -> nat)
    requires DirOk(d) && n in d.nodes
    ensures n in Ids(d.nodes) && Ids(d.nodes)[n] == d.nodes[n].id
    ensures Ids(d.nodes - {n}) == Ids(d.nodes) - {n} && Size(d.nodes - {n}) == Size(d.nodes) - 1
    ensures n in d.filed ==> n in Hashes(d.filed, hash) && Hashes(d.filed, hash)[n] == hash(d.filed[n])
    ensures Hashes(d.filed - {n}, hash) == Hashes(d.filed, hash) - {n}
    ensures n in d.filed ==> Size(d.filed) > 0 && Size(d.filed - {n}) == Size(d.filed) - 1
    ensures n !in d.filed ==> d.filed - {n} == d.filed
    ensures DirOk(d.(nodes := d.nodes - {n}, filed := d.filed - {n}))
  {
    hide Size;
    Fewer(d.nodes, n);
    if n in d.filed {
      Fewer(d.filed, n);
    }
    assert Hashes(d.filed - {n}, hash) == Hashes(d.filed, hash) - {n};
  }

  lemma Fewer<V>(m: map<nat, V>, n: nat)
    requires n in m
    ensures Size(m) > 0 && Size(m - {n}) == Size(m) - 1
  {
    assert (m - {n}).Keys == m.Keys - {n};
  }

  lemma Flips(d: Directory, n: nat, valid: bool)
    requires DirOk(d) && n in d.nodes
    ensures var nodes' := d.nodes[n := d.nodes[n].(valid := valid)];
      Ids(nodes') == Ids(d.nodes) && Size(nodes') == Size(d.nodes) && DirOk(d.(nodes := nodes'))
  {
    hide Size;
    SameSize(d.nodes[n := d.nodes[n].(valid := valid)], d.nodes);
  }

  // ----- the search for an ID ends

  ghost function UsedIds(nodes: map<nat, Node>): set<nat> {
    set n | n in nodes && nodes[n].valid :: nodes[n].id
  }

  lemma IsUsed(nodes: map<nat, Node>, n: nat, id: nat)
    requires HasId(nodes, n, id)
    ensures id in UsedIds(nodes)
  {
  }

  lemma {:induction false} UsedFew(nodes: map<nat, Node>)
    ensures |UsedIds(nodes)| <= Size(nodes)
    decreases Size(nodes)
  {
    if nodes == map[] {
      assert UsedIds(nodes) == {};
    } else {
      var n :| n in nodes;
      var rest := nodes - {n};
      assert rest.Keys == nodes.Keys - {n};
      UsedFew(rest);
      forall x | x in UsedIds(nodes) ensures x in UsedIds(rest) + {nodes[n].id} {
        var m :| m in nodes && nodes[m].valid && nodes[m].id == x;
        assert m == n || (m in rest && rest[m] == nodes[m]);
      }
      SubsetSize(UsedIds(nodes), UsedIds(rest) + {nodes[n].id});
    }
  }

  /** The k-th ID after start, which comes round to 0. */
  ghost function Nth(start: nat, k: nat): nat {
    if start + k < TWO32 then start + k else start + k - TWO32
  }

  ghost function Tried(start: nat, k: nat): set<nat> {
    if k == 0 then {} else Tried(start, k - 1) + {Nth(start, k - 1)}
  }

  lemma {:induction false} NotTried(start: nat, k: nat, j: nat)
    requires start < TWO32 && j <= k < TWO32
    ensures Nth(start, k) !in Tried(start, j)
  {
    if j > 0 {
      NotTried(start, k, j - 1);
    }
  }

  lemma TriedMore(start: nat, k: nat)
    requires start < TWO32 && k < TWO32
    ensures Tried(start, k + 1) == Tried(start, k) + {Nth(start, k)} && |Tried(start, k + 1)| == |Tried(start, k)| + 1
    ensures Nth(start, k + 1) == if Nth(start, k) + 1 == TWO32 then 0 else Nth(start, k) + 1
  {
    NotTried(start, k, k);
  }

  lemma TriedNone(start: nat)
    ensures Tried(start, 0) == {} && (start < TWO32 ==> Nth(start, 0) == start)
  {
  }

  lemma Sixteen()
    ensures PowerOfTwo(16)
  {
    assert PowerOfTwo(1) && PowerOfTwo(2) && PowerOfTwo(4) && PowerOfTwo(8);
  }

  // ----- runs

  datatype Step =
    | DoMake(n: nat, room: bool)
    | DoName(n: nat, name: string, isId: bool, room: bool)
    | DoFree(n: nat)
    | DoFlag(n: nat, valid: bool)

  /** What a step does to the directory; a step on a node that is not there, or a new node where one is, does
      nothing. */
  ghost predicate Did(hash: string -> nat, d: Directory, t: Directory, step: Step) {
    match step
    case DoMake(n, room) =>
      if n in d.nodes || Size(d.nodes) >= TWO32 - 1 then t == d
      else exists id :: Made(d, t, n, id)
    case DoName(n, name, isId, room) =>
      t == if n in d.nodes then Named(d, hash, n, name, isId, room).0 else d
    case DoFree(n) => t == d.(nodes := d.nodes - {n}, filed := d.filed - {n})
    case DoFlag(n, valid) => t == if n in d.nodes then d.(nodes := d.nodes[n := d.nodes[n].(valid := valid)]) else d
  }

  /** The new node has an ID of its own. */
  ghost predicate Made(d: Directory, t: Directory, n: nat, id: nat) {
    && 0 < id < TWO32 && (forall m :: !HasId(d.nodes, m, id))
    && t == d.(nodes := d.nodes[n := Node(id, [], true)])
  }

  predicate GivesLongName(step: Step) {
    step.DoName? && |step.name| >= NG_NODESIZ
  }

  lemma DidPlain(hash: string -> nat, d: Directory, t: Directory, step: Step)
    requires DirOk(d) && Plain(d) && Did(hash, d, t, step) && !GivesLongName(step)
    ensures Plain(t)
  {
    hide DirOk, Named;
    if step.DoName? && step.n in d.nodes {
      NamedPlain(d, hash, step.n, step.name, step.isId, step.room);
    } else if step.DoMake? && t != d {
      NotFiled(d, step.n);
    }
  }

  lemma NotFiled(d: Directory, n: nat)
    requires DirOk(d) && n !in d.nodes
    ensures n !in d.filed
  {
  }

  /** One step. */
  method Perform(r: Registry, step: Step)
    requires r.Valid()
    modifies r
    ensures r.Valid() && Did(r.hash, old(r.View()), r.View(), step)
  {
    hide Holds, Ids, Hashes, DirOk, Named, PowerOfTwo, Size, Findable, HasId;
    match step {
      case DoMake(n, room) =>
        if n !in r.nodes && Size(r.nodes) < TWO32 - 1 {
          var id := r.MakeNode(n, room);
          assert Made(old(r.View()), r.View(), n, id);
        }
      case DoName(n, name, isId, room) =>
        if n in r.nodes {
          var e := r.NameNode(n, name, isId, room);
        }
      case DoFree(n) =>
        if n in r.nodes {
          r.FreeNode(n);
        } else {
          Absent(r.View(), n);
        }
      case DoFlag(n, valid) =>
        if n in r.nodes {
          r.SetValid(n, valid);
        }
    }
  }

  lemma Absent(d: Directory, n: nat)
    requires DirOk(d) && n !in d.nodes
    ensures d.nodes - {n} == d.nodes && d.filed - {n} == d.filed
  {
  }

  /** Whatever is made, named, freed and flagged: every step does what Did says, and in the state it leads to the
      two searches find what is there: a valid node with the ID exactly when there is one, and a valid node with
      the name exactly when there is one, unless a name of NG_NODESIZ characters was ever given. */
  method AnyRun(hash: string -> nat, first: nat, steps: seq<Step>, id: nat, name: string)
    returns (r: Registry, ghost states: seq<Directory>, byId: Option<nat>, byName: Option<nat>)
    requires first < TWO32
    ensures r.Valid() && |states| == |steps| + 1 && states[0] == Directory(map[], map[], 16) && r.View() == states[|steps|]
    ensures forall i | 0 <= i < |steps| :: Did(hash, states[i], states[i + 1], steps[i])
    ensures byId.Some? <==> exists n :: HasId(states[|steps|].nodes, n, id)
    ensures byId.Some? ==> HasId(states[|steps|].nodes, byId.value, id)
    ensures byName.Some? <==> exists n :: Findable(states[|steps|], hash, n, name)
    ensures byName.Some? ==> Findable(states[|steps|], hash, byName.value, name)
    ensures name != [] && (forall s | s in steps :: !GivesLongName(s)) ==>
            (byName.Some? <==> exists n :: HasName(states[|steps|].nodes, n, name))
  {
    hide Holds, Ids, Hashes, DirOk, Named, PowerOfTwo, Size, Findable, HasId, HasName, Plain, Did, GivesLongName;
    r := new Registry(hash, first);
    states := [r.View()];
    PlainAtFirst();
    for i := 0 to |steps|
      invariant fresh(r) && r.Valid() && r.hash == hash && |states| == i + 1 && states[0] == Directory(map[], map[], 16)
      invariant r.View() == states[i]
      invariant forall j | 0 <= j < i :: Did(hash, states[j], states[j + 1], steps[j])
      invariant (forall s | s in steps :: !GivesLongName(s)) ==> Plain(r.View())
    {
      assert steps[i] in steps;
      ghost var d := r.View();
      Perform(r, steps[i]);
      if forall s | s in steps :: !GivesLongName(s) {
        DidPlain(hash, d, r.View(), steps[i]);
      }
      states := states + [r.View()];
    }
    byId := r.FindId(id);
    byName := r.FindName(name);
  }

  lemma PlainAtFirst()
    ensures Plain(Directory(map[], map[], 16))
  {
  }

  lemma HoldsSome(t: Table, hashes: map<nat, nat>)
    requires Holds(t, hashes)
    ensures |t| > 0
  {
  }
}
