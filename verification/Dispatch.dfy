/** The load balancer (node/dispatcher.go). A snapshot is what one call of `Nodes()` and of
    the nodes' `Workload()` shows; the network may change from one call to the next. */
module Dispatch {
  import opened Nodes

  datatype View = View(id: NodeId, active: bool, load: nat)

  datatype Snapshot = Snapshot(root: View, remotes: seq<View>)

  datatype Pick = Root | Remote(index: nat)

  /** The workload of the active nodes of the list. */
  function TotalLoad(vs: seq<View>): nat {
    if vs == [] then 0
    else
      var v := vs[|vs| - 1];
      TotalLoad(vs[..|vs| - 1]) + if v.active then v.load else 0
  }

  /** The effective load of a pick: the root's own share is what its workload has over that
      of the active remotes. */
  function Load(s: Snapshot, p: Pick): int {
    if p.Remote? && p.index < |s.remotes| then s.remotes[p.index].load
    else s.root.load - TotalLoad(s.remotes)
  }

  function IdOf(s: Snapshot, p: Pick): NodeId {
    if p.Remote? && p.index < |s.remotes| then s.remotes[p.index].id else s.root.id
  }

  /** The picks a snapshot offers: the root and the active remotes. */
  predicate Offered(s: Snapshot, p: Pick) {
    p == Root || (p.index < |s.remotes| && s.remotes[p.index].active)
  }

  predicate Eligible(s: Snapshot, exp: seq<NodeId>, p: Pick) {
    Offered(s, p) && IdOf(s, p) !in exp
  }

  /** `p` goes before `q`: by load, on equal load a remote before the root, and among
      remotes the one listed first. */
  predicate Before(s: Snapshot, p: Pick, q: Pick) {
    || Load(s, p) < Load(s, q)
    || (Load(s, p) == Load(s, q) && (q == Root || (p.Remote? && p.index <= q.index)))
  }

  ghost predicate Balanced(s: Snapshot, exp: seq<NodeId>, p: Pick) {
    Eligible(s, exp, p) && forall q :: Eligible(s, exp, q) ==> Before(s, p, q)
  }

  ghost predicate Exhausted(s: Snapshot, exp: seq<NodeId>) {
    forall p :: !Eligible(s, exp, p)
  }

  /** At most one pick is balanced. */
  lemma BalancedUnique(s: Snapshot, exp: seq<NodeId>, p: Pick, q: Pick)
    requires Balanced(s, exp, p) && Balanced(s, exp, q)
    ensures p == q
  {
    assert Before(s, p, q) && Before(s, q, p);
  }

  function SumOfActive(vs: seq<View>): nat {
    if vs == [] then 0 else (if vs[0].active then vs[0].load else 0) + SumOfActive(vs[1..])
  }

  lemma {:induction false} SumIsTotal(vs: seq<View>)
    ensures SumOfActive(vs) == TotalLoad(vs)
    decreases |vs|
  {
    if |vs| == 1 {
      assert vs[..0] == [] && vs[1..] == [];
    } else if vs != [] {
      var init, last := vs[..|vs| - 1], vs[|vs| - 1];
      SumIsTotal(vs[1..]);
      SumIsTotal(init);
      SumIsTotal(init[1..]);
      assert vs[1..][..|vs| - 2] == init[1..];
    }
  }

  /** What it means that a pick is balanced, on the loads themselves: a remote has less load than
      every earlier one that is left and no more than any later one, and no more than the root's
      own share; the root's own share is less than the load of every remote that is left. */
  lemma BalancedIs(s: Snapshot, exp: seq<NodeId>, c: nat)
    requires c < |s.remotes|
    ensures var own := s.root.load - SumOfActive(s.remotes);
            && (Balanced(s, exp, Remote(c)) <==>
                  && s.remotes[c].active && s.remotes[c].id !in exp
                  && (s.root.id !in exp ==> s.remotes[c].load <= own)
                  && (forall j :: 0 <= j < |s.remotes| && s.remotes[j].active && s.remotes[j].id !in exp ==>
                        if j < c then s.remotes[c].load < s.remotes[j].load
                        else s.remotes[c].load <= s.remotes[j].load))
            && (Balanced(s, exp, Root) <==>
                  && s.root.id !in exp
                  && (forall j :: 0 <= j < |s.remotes| && s.remotes[j].active && s.remotes[j].id !in exp ==>
                        own < s.remotes[j].load))
  {
    SumIsTotal(s.remotes);
    BalancedRemoteIs(s, exp, c);
    BalancedRootIs(s, exp);
  }

  lemma BalancedRemoteIs(s: Snapshot, exp: seq<NodeId>, c: nat)
    requires c < |s.remotes|
    ensures Balanced(s, exp, Remote(c)) <==>
      && s.remotes[c].active && s.remotes[c].id !in exp
      && (s.root.id !in exp ==> s.remotes[c].load <= s.root.load - TotalLoad(s.remotes))
      && (forall j :: 0 <= j < |s.remotes| && s.remotes[j].active && s.remotes[j].id !in exp ==>
            if j < c then s.remotes[c].load < s.remotes[j].load else s.remotes[c].load <= s.remotes[j].load)
  {
    hide TotalLoad;
    var p := Remote(c);
    if Balanced(s, exp, p) {
      assert Eligible(s, exp, Root) ==> Before(s, p, Root);
      forall j | 0 <= j < |s.remotes| && s.remotes[j].active && s.remotes[j].id !in exp
        ensures if j < c then s.remotes[c].load < s.remotes[j].load else s.remotes[c].load <= s.remotes[j].load
      {
        assert Eligible(s, exp, Remote(j)) && Before(s, p, Remote(j));
      }
    }
  }

  lemma BalancedRootIs(s: Snapshot, exp: seq<NodeId>)
    ensures Balanced(s, exp, Root) <==>
      && s.root.id !in exp
      && (forall j :: 0 <= j < |s.remotes| && s.remotes[j].active && s.remotes[j].id !in exp ==>
            s.root.load - TotalLoad(s.remotes) < s.remotes[j].load)
  {
    hide TotalLoad;
    if Balanced(s, exp, Root) {
      forall j | 0 <= j < |s.remotes| && s.remotes[j].active && s.remotes[j].id !in exp
        ensures s.root.load - TotalLoad(s.remotes) < s.remotes[j].load
      {
        assert Eligible(s, exp, Remote(j)) && Before(s, Root, Remote(j));
      }
    }
  }

  /** Picks the least loaded node that is not in `exp`, and fails only if there is none. */
  method GetNodeBalanced(s: Snapshot, exp: seq<NodeId>) returns (p: Pick, ok: bool)
    ensures ok ==> Balanced(s, exp, p)
    ensures !ok ==> p == Root && Exhausted(s, exp)
  {
    var tr: int := s.root.load;
    var found, c := false, 0;
    var twl: int := 0;
    for i := 0 to |s.remotes|
      invariant twl == TotalLoad(s.remotes[..i])
      invariant found ==> c < i && Eligible(s, exp, Remote(c))
      invariant forall j :: 0 <= j < i && Eligible(s, exp, Remote(j)) ==>
        found && Before(s, Remote(c), Remote(j))
    {
      var e := s.remotes[i];
      assert s.remotes[..i + 1][..i] == s.remotes[..i];
      if !e.active {
        continue;
      }
      var ewl := e.load;
      twl := twl + ewl;
      if e.id in exp {
        continue;
      }
      if !found {
        found, c := true, i;
      }
      var cwl := s.remotes[c].load;
      if ewl < cwl {
        c := i;
      }
    }
    assert s.remotes[..|s.remotes|] == s.remotes;
    if !found {
      return Root, s.root.id !in exp;
    }
    if s.remotes[c].load > tr - twl {
      if s.root.id in exp {
        return Remote(c), true;
      }
      return Root, true;
    }
    return Remote(c), true;
  }

  // ----- Dialling -----

  datatype Outcome = Connected | ContextError | DialError(code: nat) | NoDialer

  /** What `DialContext` returns. `NilNil` is the pair of a nil connection and a nil error. */
  datatype Dialed = Conn | NilNil | Failed(code: nat) | DialerFailed | NodeNotFound

  function IdsOf(net: nat -> Snapshot, ps: seq<Pick>): (ids: seq<NodeId>)
    ensures |ids| == |ps|
  {
    seq(|ps|, i requires 0 <= i < |ps| => IdOf(net(i), ps[i]))
  }

  /** Each attempt goes to the balanced choice among the nodes not tried before. */
  ghost predicate TriesBalanced(net: nat -> Snapshot, ps: seq<Pick>) {
    forall j :: 0 <= j < |ps| ==> Balanced(net(j), IdsOf(net, ps)[..j], ps[j])
  }

  predicate DistinctIds(ids: seq<NodeId>) {
    forall i, j :: 0 <= i < j < |ids| ==> ids[i] != ids[j]
  }

  ghost predicate Within(s: Snapshot, universe: set<NodeId>) {
    s.root.id in universe && forall i :: 0 <= i < |s.remotes| ==> s.remotes[i].id in universe
  }

  lemma {:induction false} IdsWithin(ids: seq<NodeId>, universe: set<NodeId>)
    requires DistinctIds(ids) && forall i :: 0 <= i < |ids| ==> ids[i] in universe
    ensures |ids| <= |universe|
    decreases |ids|
  {
    if ids != [] {
      IdsWithin(ids[..|ids| - 1], universe - {ids[|ids| - 1]});
    }
  }

  /** The retry loop. `net` is the network that the i-th search for a node sees, `dial` the
      outcome of the i-th attempt. All identifiers that ever show up lie in `universe`. */
  method DialContext(net: nat -> Snapshot, dial: nat -> Outcome, ghost universe: set<NodeId>)
    returns (r: Dialed, ps: seq<Pick>)
    requires forall k :: Within(net(k), universe)
    ensures 1 <= |ps| <= |universe|
    ensures TriesBalanced(net, ps) && DistinctIds(IdsOf(net, ps))
    ensures forall j :: 0 <= j < |ps| - 1 ==> dial(j).DialError?
    ensures match dial(|ps| - 1)
      case Connected => r == Conn
      case ContextError => r == NilNil
      case NoDialer => r == DialerFailed
      case DialError(code) => r == Failed(code) && Exhausted(net(|ps|), IdsOf(net, ps))
  {
    ps := [];
    var ids: seq<NodeId> := [];
    var node, ok := GetNodeBalanced(net(0), ids);
    if !ok {
      assert Eligible(net(0), ids, Root);
      return NodeNotFound, ps;
    }
    ids := ids + [IdOf(net(0), node)];
    ps := ps + [node];
    while true
      invariant 1 <= |ps| && ids == IdsOf(net, ps)
      invariant TriesBalanced(net, ps) && DistinctIds(ids)
      invariant forall i :: 0 <= i < |ids| ==> ids[i] in universe
      invariant forall j :: 0 <= j < |ps| - 1 ==> dial(j).DialError?
      decreases |universe| - |ids|
    {
      IdsWithin(ids, universe);
      var outcome := dial(|ps| - 1);
      match outcome {
        case NoDialer => return DialerFailed, ps;
        case Connected => return Conn, ps;
        case ContextError => return NilNil, ps;
        case DialError(code) =>
          node, ok := GetNodeBalanced(net(|ps|), ids);
          if !ok {
            return Failed(code), ps;
          }
          var id := IdOf(net(|ps|), node);
          assert id !in ids;
          assert Within(net(|ps|), universe);
          IdsWithin(ids, universe - {id});
          TriedOneMore(net, ps, node);
          ids := ids + [id];
          ps := ps + [node];
      }
    }
  }

  lemma TriedOneMore(net: nat -> Snapshot, ps: seq<Pick>, p: Pick)
    ensures IdsOf(net, ps + [p]) == IdsOf(net, ps) + [IdOf(net(|ps|), p)]
    ensures TriesBalanced(net, ps) && Balanced(net(|ps|), IdsOf(net, ps), p) ==>
      TriesBalanced(net, ps + [p])
  {
    var ids, ids' := IdsOf(net, ps), IdsOf(net, ps + [p]);
    assert ids'[..|ps|] == ids;
    forall j | 0 <= j < |ps|
      ensures ids'[..j] == ids[..j]
    {
    }
  }
}
