/** Nodes and the tunnels they account for (node/node.go, node/tunnel.go). */
module Nodes {

  /** The address that a tunnel leads to. */
  datatype Target = Target(address: string)

  /** The identifier of a node. How it is derived is not modelled; different nodes are
      taken to have different identifiers. */
  datatype NodeId = NodeId(digest: string)

  // ----- The tunnel table as a multiset of targets -----

  datatype Operation = Added | Removed

  datatype Update = Update(target: Target, operation: Operation)

  /** What an update does to the multiset of the targets that a node tunnels to: the
      removal of a target that is not there fails and changes nothing. */
  function Apply(bag: multiset<Target>, u: Update): (multiset<Target>, bool) {
    if u.operation == Added then (bag + multiset{u.target}, true)
    else (bag - multiset{u.target}, u.target in bag)
  }

  ghost predicate Counts(table: map<Target, nat>, bag: multiset<Target>) {
    forall t :: bag[t] == if t in table then table[t] else 0
  }

  /** The multiset that a table of copies stands for. */
  ghost function BagOf(table: map<Target, nat>): (bag: multiset<Target>)
    ensures Counts(table, bag)
    decreases |table|
  {
    if |table| == 0 then multiset{}
    else
      var t :| t in table;
      BagOf(table - {t})[t := table[t]]
  }

  lemma BagUnique(table: map<Target, nat>, bag: multiset<Target>)
    requires Counts(table, bag)
    ensures bag == BagOf(table)
  {
    assert forall t :: bag[t] == BagOf(table)[t];
  }

  lemma BagAt(table: map<Target, nat>, t: Target)
    ensures BagOf(table)[t] == if t in table then table[t] else 0
  {
  }

  lemma BagSet(table: map<Target, nat>, t: Target, n: nat)
    ensures BagOf(table[t := n]) == BagOf(table)[t := n]
  {
    BagUnique(table[t := n], BagOf(table)[t := n]);
  }

  lemma BagDrop(table: map<Target, nat>, t: Target)
    ensures BagOf(table - {t}) == BagOf(table)[t := 0]
  {
    BagUnique(table - {t}, BagOf(table)[t := 0]);
  }

  lemma OneMore(bag: multiset<Target>, t: Target)
    ensures bag[t := bag[t] + 1] == Apply(bag, Update(t, Added)).0
  {
  }

  lemma OneLess(bag: multiset<Target>, t: Target)
    ensures (if bag[t] == 0 then bag else bag[t := bag[t] - 1]) == Apply(bag, Update(t, Removed)).0
  {
  }

  lemma RemovalSucceeds(bag: multiset<Target>, t: Target)
    ensures Apply(bag, Update(t, Removed)).1 <==> bag[t] != 0
  {
  }

  lemma OneMoreCopied<V>(a: map<Target, V>, m: map<Target, V>, left: set<Target>, t: Target)
    requires t in left && t in m
    ensures (a + (m - left))[t := m[t]] == a + (m - (left - {t}))
  {
  }

  /** The tunnel object that loses its last copy is dropped as it is. */
  function LessOne(copies: nat): nat {
    if copies <= 1 then copies else copies - 1
  }

  class Tunnel {
    const target: Target
    var copies: nat

    constructor (target: Target)
      ensures this.target == target && copies == 1
    {
      this.target, copies := target, 1;
    }
  }

  class Node {
    const id: NodeId
    const isLocal: bool
    var toBeTraced: bool
    var active: bool
    var tunnels: map<Target, Tunnel>

    /** Every tunnel is filed under its own target and counts at least one copy. */
    ghost predicate Valid()
      reads this, tunnels.Values
    {
      forall t :: t in tunnels ==> tunnels[t].target == t && tunnels[t].copies >= 1
    }

    ghost function Table(): map<Target, nat>
      reads this, tunnels.Values
    {
      map t | t in tunnels :: tunnels[t].copies
    }

    /** The targets that the node tunnels to, each as often as there are copies. */
    ghost function Bag(): multiset<Target>
      reads this, tunnels.Values
    {
      BagOf(Table())
    }

    constructor (id: NodeId, isLocal: bool)
      ensures this.id == id && this.isLocal == isLocal
      ensures !toBeTraced && !active && tunnels == map[]
      ensures Valid() && Bag() == multiset{}
    {
      this.id, this.isLocal := id, isLocal;
      toBeTraced, active, tunnels := false, false, map[];
      new;
      BagUnique(Table(), multiset{});
    }

    /** The workload is the number of copies of all tunnels. */
    method Workload() returns (wl: nat)
      ensures wl == |Bag()|
    {
      wl := 0;
      var left := tunnels.Keys;
      ghost var seen: multiset<Target> := multiset{};
      while left != {}
        invariant left <= tunnels.Keys
        invariant forall t :: seen[t] == if t in tunnels && t !in left then tunnels[t].copies else 0
        invariant wl == |seen|
      {
        var t :| t in left;
        wl := wl + tunnels[t].copies;
        seen := seen[t := tunnels[t].copies];
        left := left - {t};
      }
      BagUnique(Table(), seen);
    }

    method SetIsActive(active: bool)
      modifies this`active
      ensures this.active == active
    {
      this.active := active;
    }

    /** An active node counts as connected and is not dialled; `reachable` tells whether the
        dial succeeds. */
    method Ping(reachable: bool) returns (ok: bool)
      ensures ok <==> !active && reachable
    {
      if active {
        return false;
      }
      ok := reachable;
    }

    /** A target that is already there gets one more copy; otherwise the tunnel itself is
        filed. Only the table of this node and the one tunnel object involved can change. */
    method AddTunnel(tunnel: Tunnel)
      requires Valid() && tunnel.copies >= 1
      modifies this`active, this`tunnels
      modifies if tunnel.target in tunnels then {tunnels[tunnel.target]} else {}
      ensures Valid() && active
      ensures tunnels == if tunnel.target in old(tunnels) then old(tunnels)
                         else old(tunnels)[tunnel.target := tunnel]
      ensures var more := if tunnel.target in old(tunnels) then 1 else tunnel.copies;
        Bag() == old(Bag())[tunnel.target := old(Bag())[tunnel.target] + more]
      ensures tunnel.target in old(tunnels) ==>
        tunnels[tunnel.target].copies == old(tunnels[tunnel.target].copies) + 1
    {
      hide BagOf, Counts;
      ghost var was := Table();
      BagAt(was, tunnel.target);
      SetIsActive(true);
      if tunnel.target in tunnels {
        var t := tunnels[tunnel.target];
        t.copies := t.copies + 1;
      } else {
        tunnels := tunnels[tunnel.target := tunnel];
      }
      ghost var n := tunnels[tunnel.target].copies;
      assert Table() == was[tunnel.target := n];
      BagSet(was, tunnel.target, n);
    }

    /** Fails exactly on a target that the node does not tunnel to. */
    method RemoveTunnel(target: Target) returns (ok: bool)
      requires Valid()
      modifies this`tunnels
      modifies if target in tunnels then {tunnels[target]} else {}
      ensures Valid()
      ensures (Bag(), ok) == Apply(old(Bag()), Update(target, Removed))
      ensures tunnels == if target in old(tunnels) && old(tunnels[target].copies) == 1
                         then old(tunnels) - {target} else old(tunnels)
      ensures target in old(tunnels) ==> old(tunnels)[target].copies == LessOne(old(tunnels[target].copies))
    {
      hide BagOf, Apply, Counts;
      ghost var was := Table();
      BagAt(was, target);
      OneLess(BagOf(was), target);
      RemovalSucceeds(BagOf(was), target);
      if target !in tunnels {
        return false;
      }
      var t := tunnels[target];
      if t.copies == 1 {
        tunnels := tunnels - {target};
        assert Table() == was - {target};
        BagDrop(was, target);
      } else {
        t.copies := t.copies - 1;
        assert Table() == was[target := t.copies];
        BagSet(was, target, t.copies);
      }
      ok := true;
    }

    /** Hands the tunnels to `into`. The two nodes share the tunnel objects afterwards. */
    method CopyTunnels(into: Node)
      requires into != this && Valid() && into.Valid()
      modifies into`tunnels
      ensures into.Valid()
      ensures into.tunnels == old(into.tunnels) + tunnels
      ensures old(into.tunnels) == map[] ==> into.tunnels == tunnels && into.Bag() == Bag()
    {
      CopyAll(into);
      if old(into.tunnels) == map[] {
        hide BagOf;
        assert into.Table() == Table();
      }
    }

    /** The loop over the tunnels. */
    method CopyAll(into: Node)
      requires into != this
      modifies into`tunnels
      ensures into.tunnels == old(into.tunnels) + tunnels
    {
      var left := tunnels.Keys;
      ghost var was := into.tunnels;
      assert was + (tunnels - left) == was;
      while left != {}
        invariant left <= tunnels.Keys
        invariant into.tunnels == was + (tunnels - left)
      {
        var t :| t in left;
        OneMoreCopied(was, tunnels, left, t);
        into.tunnels := into.tunnels[t := tunnels[t]];
        left := left - {t};
      }
      assert tunnels - {} == tunnels;
    }

    /** `Booster.UpdateNode`, without the publication. */
    method UpdateNode(u: Update) returns (ok: bool)
      requires Valid()
      modifies this`active, this`tunnels
      modifies if u.target in tunnels then {tunnels[u.target]} else {}
      ensures Valid()
      ensures (Bag(), ok) == Apply(old(Bag()), u)
      ensures active == (u.operation == Added || old(active))
      ensures forall t :: t in tunnels.Values ==> t in old(tunnels.Values) || fresh(t)
      ensures u.target !in old(tunnels) && u.target in tunnels ==> fresh(tunnels[u.target])
      ensures tunnels.Keys - {u.target} == old(tunnels).Keys - {u.target}
      ensures forall t :: t in tunnels && t in old(tunnels) ==> tunnels[t] == old(tunnels)[t]
      ensures u.target in old(tunnels) ==>
        (u.target !in tunnels <==> u.operation == Removed && old(tunnels[u.target].copies) == 1)
      ensures u.target in old(tunnels) ==>
        var n := old(tunnels[u.target].copies);
        old(tunnels)[u.target].copies == if u.operation == Added then n + 1 else LessOne(n)
    {
      hide Bag;
      match u.operation
      case Removed =>
        ok := RemoveTunnel(u.target);
      case Added =>
        var t := new Tunnel(u.target);
        OneMore(Bag(), u.target);
        AddTunnel(t);
        ok := true;
    }
  }
}
