/** What the dispatcher sees of a network (node/dispatcher.go, booster/network.go): this is
    where the objects of `Networks` meet the views of `Dispatch`. */
module Snapshots {
  import opened Nodes
  import opened Dispatch
  import opened Networks
  import RetryOrder

  ghost predicate ViewOf(v: View, n: Node)
    reads n, n.tunnels.Values
  {
    v == View(n.id, n.active, |n.Bag()|)
  }

  lemma DistinctViews(s: Snapshot, ids: seq<NodeId>)
    requires |ids| == |s.remotes| && forall i :: 0 <= i < |ids| ==> s.remotes[i].id == ids[i] != s.root.id
    requires forall i, j :: 0 <= i < j < |ids| ==> ids[i] != ids[j]
    ensures RetryOrder.Distinct(s)
  {
  }

  method ViewAll(nodes: seq<Node>) returns (views: seq<View>)
    ensures |views| == |nodes| && forall i :: 0 <= i < |nodes| ==> ViewOf(views[i], nodes[i])
  {
    hide ViewOf;
    views := [];
    for i := 0 to |nodes|
      invariant |views| == i && forall j :: 0 <= j < i ==> ViewOf(views[j], nodes[j])
    {
      var v := See(nodes[i]);
      views := views + [v];
    }
  }

  method See(n: Node) returns (v: View)
    ensures ViewOf(v, n)
  {
    var wl := n.Workload();
    v := View(n.id, n.active, wl);
  }

  /** Asks for the nodes and for the workload of each. Without an entry for the local node's
      own identifier no two nodes of the snapshot share one. */
  method Observe(net: Network) returns (s: Snapshot, ghost nodes: seq<Node>)
    requires net.Valid()
    ensures ViewOf(s.root, net.local)
    ensures |nodes| == |s.remotes| && forall i :: 0 <= i < |nodes| ==> ViewOf(s.remotes[i], nodes[i])
    ensures forall n :: n in nodes <==> net.Usable(n)
    ensures net.local.id !in net.outgoing ==> RetryOrder.Distinct(s)
  {
    hide ViewOf, RetryOrder.Distinct;
    var root, ns := net.Nodes();
    var view := See(root);
    var views := ViewAll(ns);
    s, nodes := Snapshot(view, views), ns;
    if net.local.id !in net.outgoing {
      forall i | 0 <= i < |ns|
        ensures ns[i].id in net.outgoing && views[i].id == ns[i].id
      {
        UsableFiled(net, ns[i]);
        ViewIds(views[i], ns[i]);
      }
      ViewIds(view, root);
      DistinctViews(s, seq(|ns|, i requires 0 <= i < |ns| => ns[i].id));
    }
  }

  lemma UsableFiled(net: Network, n: Node)
    requires net.Valid() && net.Usable(n)
    ensures n.id in net.outgoing
  {
  }

  lemma ViewIds(v: View, n: Node)
    requires ViewOf(v, n)
    ensures v.id == n.id
  {
  }
}
