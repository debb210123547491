/** Nodes that share tunnel objects (node/node.go, booster/network.go): a connection that is
    replaced hands its tunnels to the new one, which may be replaced in turn, and updates can
    still arrive for every one of the nodes. */
module Sharing {
  import opened Nodes
  import opened Updates

  // ----- One update -----

  ghost function Objects(nodes: seq<Node>): set<object>
    reads nodes
  {
    (set n | n in nodes :: n) + (set n, t | n in nodes && t in n.tunnels.Values :: t)
  }

  /** Different nodes, each of them valid. */
  ghost predicate Team(nodes: seq<Node>)
    reads nodes, Objects(nodes)
  {
    && (forall i, j :: 0 <= i < j < |nodes| ==> nodes[i] != nodes[j])
    && (forall i :: 0 <= i < |nodes| ==> nodes[i].Valid())
  }

  /** Nodes `i` and `j` have the same tunnel object for the target. */
  datatype Shared = Shared(i: nat, j: nat, target: Target)

  ghost function SharedIn(maps: seq<map<Target, Tunnel>>): set<Shared> {
    set i, j, t | 0 <= i < |maps| && 0 <= j < |maps| && i != j && t in maps[i] && t in maps[j]
                  && maps[i][t] == maps[j][t] :: Shared(i, j, t)
  }

  /** The multisets of the nodes, and what they share. */
  datatype Group = Group(bags: seq<multiset<Target>>, shared: set<Shared>)

  ghost function Maps(nodes: seq<Node>): (maps: seq<map<Target, Tunnel>>)
    reads nodes
    ensures |maps| == |nodes| && forall i :: 0 <= i < |nodes| ==> maps[i] == nodes[i].tunnels
  {
    seq(|nodes|, i requires 0 <= i < |nodes| reads nodes => nodes[i].tunnels)
  }

  ghost function Bags(nodes: seq<Node>): (bags: seq<multiset<Target>>)
    reads nodes, Objects(nodes)
    ensures |bags| == |nodes| && forall i :: 0 <= i < |nodes| ==> bags[i] == nodes[i].Bag()
  {
    seq(|nodes|, i requires 0 <= i < |nodes| reads nodes, Objects(nodes) => nodes[i].Bag())
  }

  ghost function GroupOf(nodes: seq<Node>): Group
    reads nodes, Objects(nodes)
  {
    Group(Bags(nodes), SharedIn(Maps(nodes)))
  }

  /** What an update of node `i` does to the multiset of node `j`: it shows there where the two
      share the tunnel, except that the last copy of it stays. */
  function Seen(g: Group, i: nat, u: Update, j: nat): multiset<Target>
    requires i < |g.bags| && j < |g.bags|
  {
    var t, bag := u.target, g.bags[j];
    if j == i then Apply(bag, u).0
    else if Shared(i, j, t) !in g.shared then bag
    else bag[t := if u.operation == Added then bag[t] + 1 else LessOne(bag[t])]
  }

  /** The node whose last copy is removed drops the tunnel, which it shares with no one then. */
  function Updated(g: Group, i: nat, u: Update): Group
    requires i < |g.bags|
  {
    Group(seq(|g.bags|, j requires 0 <= j < |g.bags| => Seen(g, i, u, j)),
          if u.operation == Removed && g.bags[i][u.target] == 1 then Without(g.shared, i, u.target) else g.shared)
  }

  function Without(shared: set<Shared>, i: nat, t: Target): set<Shared> {
    set p | p in shared && !(p.target == t && (p.i == i || p.j == i))
  }

  /** Only the copies of one tunnel differ from the table. */
  lemma OneCount(n: Node, table: map<Target, nat>, t: Target)
    requires n.tunnels.Keys == table.Keys && forall k :: k in table && k != t ==> n.tunnels[k].copies == table[k]
    ensures n.Bag() == BagOf(table)[t := if t in n.tunnels then n.tunnels[t].copies else 0]
  {
    hide BagOf;
    if t in n.tunnels {
      assert n.Table() == table[t := n.tunnels[t].copies];
      BagSet(table, t, n.tunnels[t].copies);
    } else {
      assert n.Table() == table;
      BagAt(table, t);
    }
  }

  /** An update adds a tunnel that is nobody else's, or drops one, or does neither. */
  lemma SharedAfter(maps: seq<map<Target, Tunnel>>, i: nat, m: map<Target, Tunnel>, t: Target)
    requires i < |maps| && maps[i].Keys - {t} == m.Keys - {t}
    requires forall k :: k in maps[i] && k in m ==> maps[i][k] == m[k]
    requires t in m && t !in maps[i] ==> forall j :: 0 <= j < |maps| ==> m[t] !in maps[j].Values
    ensures SharedIn(maps[i := m]) == if t in maps[i] && t !in m then Without(SharedIn(maps), i, t) else SharedIn(maps)
  {
    var after := maps[i := m];
    forall k | k != t
      ensures k in maps[i] <==> k in m
    {
      assert k in maps[i].Keys - {t} <==> k in m.Keys - {t};
    }
    forall p: Shared
      ensures p in SharedIn(after) <==> p in SharedIn(maps) && !(p.target == t && (p.i == i || p.j == i) && t !in m)
    {
    }
  }

  ghost function Tables(nodes: seq<Node>): (tables: seq<map<Target, nat>>)
    reads nodes, Objects(nodes)
    ensures |tables| == |nodes| && forall i :: 0 <= i < |nodes| ==> tables[i] == nodes[i].Table()
  {
    seq(|nodes|, i requires 0 <= i < |nodes| reads nodes, Objects(nodes) => nodes[i].Table())
  }

  /** What the copies of a tunnel become. */
  function Counted(u: Update, n: nat): nat {
    if u.operation == Added then n + 1 else LessOne(n)
  }

  /** The table of node `j` after an update of node `i`. */
  ghost predicate OtherTable(maps: seq<map<Target, Tunnel>>, tables: seq<map<Target, nat>>, i: nat, u: Update, j: nat,
    table: map<Target, nat>)
    requires i < |maps| == |tables| && j < |maps|
  {
    && table.Keys == tables[j].Keys
    && forall k :: k in table ==>
      table[k] == if k == u.target && Shared(i, j, k) in SharedIn(maps) then Counted(u, tables[j][k]) else tables[j][k]
  }

  /** The update itself, and that the other nodes keep their tunnels; `maps` and `tables` are
      what there was before. */
  method UpdateOne(nodes: seq<Node>, i: nat, u: Update, ghost maps: seq<map<Target, Tunnel>>,
    ghost tables: seq<map<Target, nat>>) returns (ok: bool)
    requires Team(nodes) && i < |nodes| && maps == Maps(nodes) && tables == Tables(nodes)
    modifies nodes[i]
    modifies if u.target in nodes[i].tunnels then {nodes[i].tunnels[u.target]} else {}
    ensures nodes[i].Valid() && (nodes[i].Bag(), ok) == Apply(old(nodes[i].Bag()), u)
    ensures nodes[i].tunnels.Keys - {u.target} == maps[i].Keys - {u.target}
    ensures forall t :: t in nodes[i].tunnels && t in maps[i] ==> nodes[i].tunnels[t] == maps[i][t]
    ensures u.target !in maps[i] && u.target in nodes[i].tunnels ==> fresh(nodes[i].tunnels[u.target])
    ensures u.target in maps[i] ==>
      (u.target !in nodes[i].tunnels <==> u.operation == Removed && tables[i][u.target] == 1)
    ensures forall t :: t in nodes[i].tunnels.Values ==> t in old(nodes[i].tunnels.Values) || fresh(t)
    ensures forall j :: 0 <= j < |nodes| && j != i ==> nodes[j].tunnels == maps[j] && nodes[j].Valid()
    ensures forall j, k :: 0 <= j < |nodes| && j != i && k in maps[j] ==>
      var n := tables[j][k];
      maps[j][k].copies == if k == u.target && k in maps[i] && maps[i][k] == maps[j][k] then Counted(u, n) else n
  {
    hide BagOf, Apply;
    ok := nodes[i].UpdateNode(u);
  }

  /** And what it does to the group. */
  method UpdateTeam(nodes: seq<Node>, i: nat, u: Update) returns (ok: bool)
    requires Team(nodes) && i < |nodes|
    modifies nodes[i]
    modifies if u.target in nodes[i].tunnels then {nodes[i].tunnels[u.target]} else {}
    ensures Team(nodes)
    ensures GroupOf(nodes) == Updated(old(GroupOf(nodes)), i, u)
    ensures forall j :: 0 <= j < |nodes| && j != i ==> nodes[j].tunnels == old(nodes[j].tunnels)
    ensures forall t :: t in nodes[i].tunnels.Values ==> t in old(nodes[i].tunnels.Values) || fresh(t)
  {
    hide BagOf, Apply, SharedIn, Updated;
    ghost var maps, tables := Maps(nodes), Tables(nodes);
    assert GroupOf(nodes) == Group(BagsOf(tables), SharedIn(maps));
    ok := UpdateOne(nodes, i, u, maps, tables);
    GroupIs(maps, tables, i, u, nodes);
  }

  /** The group after the update, from what there was and the nodes as they are now. */
  lemma GroupIs(maps: seq<map<Target, Tunnel>>, tables: seq<map<Target, nat>>, i: nat, u: Update, nodes: seq<Node>)
    requires i < |maps| == |tables| == |nodes| && forall j :: 0 <= j < |maps| ==> maps[j].Keys == tables[j].Keys
    requires nodes[i].Bag() == Apply(BagOf(tables[i]), u).0
    requires nodes[i].tunnels.Keys - {u.target} == maps[i].Keys - {u.target}
    requires forall t :: t in nodes[i].tunnels && t in maps[i] ==> nodes[i].tunnels[t] == maps[i][t]
    requires u.target !in maps[i] && u.target in nodes[i].tunnels ==>
      forall j :: 0 <= j < |maps| ==> nodes[i].tunnels[u.target] !in maps[j].Values
    requires u.target in maps[i] ==>
      (u.target !in nodes[i].tunnels <==> u.operation == Removed && tables[i][u.target] == 1)
    requires forall j :: 0 <= j < |nodes| && j != i ==> nodes[j].tunnels == maps[j]
    requires forall j, k :: 0 <= j < |nodes| && j != i && k in maps[j] ==>
      var n := tables[j][k];
      maps[j][k].copies == if k == u.target && k in maps[i] && maps[i][k] == maps[j][k] then Counted(u, n) else n
    ensures GroupOf(nodes) == Updated(Group(BagsOf(tables), SharedIn(maps)), i, u)
  {
    hide BagOf, Apply, SharedIn, OtherTable;
    BagAt(tables[i], u.target);
    SharedAfter(maps, i, nodes[i].tunnels, u.target);
    assert Maps(nodes) == maps[i := nodes[i].tunnels];
    forall j | 0 <= j < |nodes| && j != i
      ensures OtherTable(maps, tables, i, u, j, nodes[j].Table())
    {
      OtherTableFrom(nodes[j], maps, tables, i, u, j);
    }
    GroupAfter(maps, tables, i, u, nodes);
  }

  /** An update of one node of the team. */
  method UpdateIn(nodes: seq<Node>, i: nat, u: Update) returns (ok: bool)
    requires Team(nodes) && i < |nodes|
    modifies Objects(nodes)
    ensures Team(nodes)
    ensures GroupOf(nodes) == Updated(old(GroupOf(nodes)), i, u)
    ensures forall o :: o in Objects(nodes) ==> o in old(Objects(nodes)) || fresh(o)
  {
    hide Updated, GroupOf, Team;
    TunnelsIn(nodes, i);
    ok := UpdateTeam(nodes, i, u);
  }

  lemma TunnelsIn(nodes: seq<Node>, i: nat)
    requires i < |nodes|
    ensures nodes[i] in Objects(nodes)
    ensures forall t :: t in nodes[i].tunnels ==> nodes[i].tunnels[t] in Objects(nodes)
  {
    assert nodes[i] in nodes;
    forall t | t in nodes[i].tunnels
      ensures nodes[i].tunnels[t] in Objects(nodes)
    {
      assert nodes[i].tunnels[t] in nodes[i].tunnels.Values;
    }
  }

  lemma OtherTableFrom(n: Node, maps: seq<map<Target, Tunnel>>, tables: seq<map<Target, nat>>, i: nat, u: Update,
    j: nat)
    requires i < |maps| == |tables| && j < |maps| && i != j && maps[j].Keys == tables[j].Keys && n.tunnels == maps[j]
    requires forall k :: k in maps[j] ==>
      var n := tables[j][k];
      maps[j][k].copies == if k == u.target && k in maps[i] && maps[i][k] == maps[j][k] then Counted(u, n) else n
    ensures OtherTable(maps, tables, i, u, j, n.Table())
  {
    hide SharedIn;
    SharedAt(maps, i, j, u.target);
  }

  ghost function BagsOf(tables: seq<map<Target, nat>>): (bags: seq<multiset<Target>>)
    ensures |bags| == |tables| && forall i :: 0 <= i < |tables| ==> bags[i] == BagOf(tables[i])
  {
    seq(|tables|, i requires 0 <= i < |tables| => BagOf(tables[i]))
  }

  lemma GroupAfter(maps: seq<map<Target, Tunnel>>, tables: seq<map<Target, nat>>, i: nat, u: Update, nodes: seq<Node>)
    requires i < |maps| == |tables| == |nodes| && forall j :: 0 <= j < |maps| ==> maps[j].Keys == tables[j].Keys
    requires nodes[i].Bag() == Apply(BagOf(tables[i]), u).0
    requires forall j :: 0 <= j < |nodes| && j != i ==> OtherTable(maps, tables, i, u, j, nodes[j].Table())
    ensures Bags(nodes) == Updated(Group(BagsOf(tables), SharedIn(maps)), i, u).bags
  {
    hide BagOf, Apply, SharedIn, OtherTable;
    var g := Group(BagsOf(tables), SharedIn(maps));
    forall j | 0 <= j < |nodes| && j != i
      ensures nodes[j].Bag() == Seen(g, i, u, j)
    {
      OtherBag(nodes[j], maps, tables, i, u, j);
    }
  }

  lemma OtherBag(n: Node, maps: seq<map<Target, Tunnel>>, tables: seq<map<Target, nat>>, i: nat, u: Update, j: nat)
    requires i < |maps| == |tables| && j < |maps| && i != j && maps[j].Keys == tables[j].Keys
    requires OtherTable(maps, tables, i, u, j, n.Table())
    ensures n.Bag() == if Shared(i, j, u.target) in SharedIn(maps)
                       then BagOf(tables[j])[u.target := Counted(u, BagOf(tables[j])[u.target])]
                       else BagOf(tables[j])
  {
    hide BagOf, SharedIn;
    SharedAt(maps, i, j, u.target);
    BagAt(tables[j], u.target);
    OneCount(n, tables[j], u.target);
  }

  lemma SharedAt(maps: seq<map<Target, Tunnel>>, i: nat, j: nat, t: Target)
    requires i < |maps| && j < |maps| && i != j
    ensures Shared(i, j, t) in SharedIn(maps) <==> t in maps[i] && t in maps[j] && maps[i][t] == maps[j][t]
  {
  }

  // ----- Any interleaving of updates of all nodes -----

  datatype Delivery = Delivery(node: nat, update: Update)

  predicate Addressed(us: seq<Delivery>, nodes: nat) {
    forall k :: 0 <= k < |us| ==> us[k].node < nodes
  }

  function UpdatedAll(g: Group, us: seq<Delivery>): (r: Group)
    requires Addressed(us, |g.bags|)
    ensures |r.bags| == |g.bags|
  {
    if us == [] then g
    else
      var u := us[|us| - 1];
      Updated(UpdatedAll(g, us[..|us| - 1]), u.node, u.update)
  }

  /** Whatever updates the nodes get, in any interleaving: all stay valid, and all multisets, and
      what is shared, are those of the specification. */
  method DeliverAll(nodes: seq<Node>, us: seq<Delivery>)
    requires Team(nodes) && Addressed(us, |nodes|)
    modifies Objects(nodes)
    ensures Team(nodes)
    ensures GroupOf(nodes) == UpdatedAll(old(GroupOf(nodes)), us)
  {
    hide Updated, SharedIn, GroupOf, Team, Objects;
    ghost var g := GroupOf(nodes);
    BagsMatch(nodes);
    assert us[..|us|] == us;
    for k := 0 to |us|
      invariant Team(nodes)
      invariant GroupOf(nodes) == UpdatedAll(g, us[..k])
      invariant forall o :: o in Objects(nodes) ==> o in old(Objects(nodes)) || fresh(o)
    {
      assert us[..k + 1][..k] == us[..k];
      var _ := UpdateIn(nodes, us[k].node, us[k].update);
    }
  }

  lemma BagsMatch(nodes: seq<Node>)
    ensures |GroupOf(nodes).bags| == |nodes|
  {
  }

  // ----- How long a tunnel is shared -----

  /** All members of `team` share the tunnel of `t`, nobody else has it, and it counts `n`. */
  ghost predicate Together(g: Group, team: set<nat>, t: Target, n: nat) {
    && (forall i :: i in team ==> i < |g.bags| && g.bags[i][t] == n)
    && (forall i, j :: i in team && j in team && i != j ==> Shared(i, j, t) in g.shared)
    && (forall i, j :: i in team && j !in team ==> Shared(i, j, t) !in g.shared && Shared(j, i, t) !in g.shared)
  }

  /** The updates of the members. */
  function Of(us: seq<Delivery>, team: set<nat>): seq<Update> {
    if us == [] then []
    else
      var u := us[|us| - 1];
      Of(us[..|us| - 1], team) + if u.node in team then [u.update] else []
  }

  ghost predicate AllShare(g: Group, team: set<nat>, t: Target) {
    forall i, j :: i in team && j in team && i != j ==> Shared(i, j, t) in g.shared
  }

  lemma TogetherStep(g: Group, team: set<nat>, t: Target, n: nat, i: nat, u: Update)
    requires Together(g, team, t, n) && i < |g.bags| && n > 0
    ensures var n' := if i !in team || u.target != t then n as int else if u.operation == Added then n + 1 else n - 1;
            n' > 0 ==> Together(Updated(g, i, u), team, t, n')
  {
  }

  /** The removal of the last copy takes its node out; the others keep the tunnel. */
  lemma LastCopyLeaves(g: Group, team: set<nat>, t: Target, i: nat)
    requires Together(g, team, t, 1) && i in team
    ensures var g' := Updated(g, i, Update(t, Removed));
            Together(g', team - {i}, t, 1) && Together(g', {i}, t, 0)
            && forall j :: j in team && j != i ==> !AllShare(g', team, t)
  {
    var g' := Updated(g, i, Update(t, Removed));
    forall j | j in team && j != i
      ensures !AllShare(g', team, t)
    {
      assert Shared(i, j, t) !in g'.shared;
    }
  }

  lemma SharedShrinks(g: Group, i: nat, u: Update)
    requires i < |g.bags|
    ensures Updated(g, i, u).shared <= g.shared
  {
  }

  /** The copies that the first `k` updates leave, of the team's together. */
  function Left(n: nat, us: seq<Delivery>, team: set<nat>, t: Target): int {
    if us == [] then n
    else
      var u := us[|us| - 1];
      Left(n, us[..|us| - 1], team, t)
      + if u.node !in team || u.update.target != t then 0 else if u.update.operation == Added then 1 else -1
  }

  lemma {:induction false} LeftIsNet(bag: multiset<Target>, us: seq<Delivery>, team: set<nat>, t: Target)
    ensures Left(bag[t], us, team, t) == Net(bag, Of(us, team), t)
  {
    if us != [] {
      LeftIsNet(bag, us[..|us| - 1], team, t);
    }
  }

  ghost predicate AlwaysLeft(n: nat, us: seq<Delivery>, team: set<nat>, t: Target) {
    forall k :: 0 <= k <= |us| ==> Left(n, us[..k], team, t) > 0
  }

  lemma AlwaysLeftStep(n: nat, us: seq<Delivery>, team: set<nat>, t: Target)
    requires us != []
    ensures AlwaysLeft(n, us, team, t) <==>
      AlwaysLeft(n, us[..|us| - 1], team, t) && Left(n, us, team, t) > 0
  {
    hide Left;
    var init := us[..|us| - 1];
    assert us[..|us|] == us && forall k :: 0 <= k <= |init| ==> init[..k] == us[..k];
  }

  /** Two or more nodes go on sharing a tunnel, all of them, exactly as long as the updates of
      all of them together leave a copy of it; and as long as they do, all of them count what
      these leave. */
  lemma {:induction false} SharedExactly(g: Group, us: seq<Delivery>, team: set<nat>, t: Target, n: nat,
    a: nat, b: nat)
    requires Addressed(us, |g.bags|) && Together(g, team, t, n) && n > 0
    requires a in team && b in team && a != b
    ensures var q := UpdatedAll(g, us);
            && (AllShare(q, team, t) <==> AlwaysLeft(n, us, team, t))
            && (AlwaysLeft(n, us, team, t) ==> Together(q, team, t, Left(n, us, team, t)))
  {
    hide Updated, Together, AllShare, AlwaysLeft;
    if us == [] {
      SharedAtFirst(g, team, t, n);
    } else {
      var init, d := us[..|us| - 1], us[|us| - 1];
      SharedExactly(g, init, team, t, n, a, b);
      AlwaysLeftStep(n, us, team, t);
      var p := UpdatedAll(g, init);
      if AlwaysLeft(n, init, team, t) {
        LeftPositive(n, init, team, t);
        SharedStep(p, team, t, Left(n, init, team, t), d.node, d.update, a, b);
      } else {
        NotAllShareStays(p, team, t, d.node, d.update);
      }
    }
  }

  lemma SharedAtFirst(g: Group, team: set<nat>, t: Target, n: nat)
    requires Together(g, team, t, n) && n > 0
    ensures AllShare(g, team, t) && AlwaysLeft(n, [], team, t)
  {
  }

  lemma LeftPositive(n: nat, us: seq<Delivery>, team: set<nat>, t: Target)
    requires AlwaysLeft(n, us, team, t)
    ensures Left(n, us, team, t) > 0
  {
    assert us[..|us|] == us;
  }

  lemma SharedStep(p: Group, team: set<nat>, t: Target, n: nat, i: nat, u: Update, a: nat, b: nat)
    requires Together(p, team, t, n) && n > 0 && i < |p.bags| && a in team && b in team && a != b
    ensures var n' := n as int + if i !in team || u.target != t then 0 else if u.operation == Added then 1 else -1;
            var q := Updated(p, i, u);
            && (AllShare(q, team, t) <==> n' > 0)
            && (n' > 0 ==> Together(q, team, t, n'))
  {
    hide Updated;
    TogetherStep(p, team, t, n, i, u);
    if i in team && u == Update(t, Removed) && n == 1 {
      LastCopyLeaves(p, team, t, i);
      var j := if i == a then b else a;
      assert j in team && j != i;
    }
  }

  lemma NotAllShareStays(p: Group, team: set<nat>, t: Target, i: nat, u: Update)
    requires !AllShare(p, team, t) && i < |p.bags|
    ensures !AllShare(Updated(p, i, u), team, t)
  {
    hide Updated;
    SharedShrinks(p, i, u);
  }
}
