/** The objects behind `Lifecycle`: connections, the tracer and the network that holds them
    (booster/network.go, booster/booster.go, tracer/tracer.go). */
module Networks {
  import opened Nodes
  import opened Lifecycle

  /** A connection to a remote node; `open` stands for the socket being there. */
  class Conn {
    const id: NodeId
    const remote: Node
    var open: bool

    constructor (id: NodeId)
      ensures this.id == id && remote.id == id && fresh(remote) && open
      ensures !remote.toBeTraced && !remote.active && remote.tunnels == map[]
    {
      this.id, open := id, true;
      remote := new Node(id, false);
    }
  }

  class Tracer {
    var running: bool
    var conns: map<NodeId, Node>

    constructor ()
      ensures !running && conns == map[]
    {
      running, conns := false, map[];
    }

    method Run() returns (ok: bool)
      modifies this`running
      ensures running && ok == !old(running)
    {
      ok := !running;
      running := true;
    }

    /** The caller waits for the run loop: without one it does not get past this call. */
    method Trace(n: Node) returns (blocked: bool)
      modifies this`conns
      ensures conns == old(conns)[n.id := n] && blocked == !running
    {
      conns := conns[n.id := n];
      blocked := !running;
    }

    method Untrace(id: NodeId) returns (blocked: bool)
      modifies this`conns
      ensures conns == old(conns) - {id} && blocked == !running
    {
      conns := conns - {id};
      blocked := !running;
    }

    /** The identifiers stay for the next run. */
    method Close()
      modifies this`running
      ensures !running && conns == old(conns)
    {
      running := false;
    }
  }

  class Network {
    const local: Node
    const tracer: Tracer
    var outgoing: map<NodeId, Conn>
    ghost var ever: set<Conn>
    /** Whose nodes the tracer has. */
    ghost var pinged: map<NodeId, Conn>

    constructor (local: Node)
      ensures this.local == local && fresh(tracer) && Valid()
      ensures ever == {} && Abs() == Start()
    {
      this.local := local;
      tracer := new Tracer();
      outgoing, ever, pinged := map[], {}, map[];
    }

    ghost function Remotes(): set<object>
      reads this
    {
      set c | c in ever :: c.remote
    }

    ghost function InfoOf(c: Conn): Info
      reads c, c.remote
    {
      Info(c.id, c.open, c.remote.toBeTraced, c.remote.active)
    }

    ghost function Abs(): State<Conn>
      reads this, ever, Remotes()
    {
      State(outgoing, map c | c in ever :: InfoOf(c), pinged)
    }

    ghost predicate Pinging()
      reads this, tracer
    {
      pinged.Values <= ever && tracer.conns == map id | id in pinged :: pinged[id].remote
    }

    ghost predicate Valid()
      reads this, tracer
    {
      && Pinging()
      && (forall id :: id in outgoing ==> outgoing[id] in ever && outgoing[id].id == id)
      && (forall c :: c in ever ==> c.remote.id == c.id)
      && (forall c, d :: c in ever && d in ever && c.remote == d.remote ==> c == d)
    }

    /** A connection that the network does not know, with a node of its own that was not
        marked yet. */
    ghost predicate Unknown(c: Conn)
      reads this, c.remote
    {
      c !in ever && c.remote.id == c.id && !c.remote.toBeTraced && forall d :: d in ever ==> d.remote != c.remote
    }

    /** Files the connection; the state of the network is otherwise the same. */
    method Put(c: Conn)
      requires Valid() && Unknown(c) && c.open && !c.remote.active
      modifies this`outgoing, this`ever
      ensures Valid() && ever == old(ever) + {c}
      ensures Abs() == State(old(Abs()).outgoing[c.id := c],
                             old(Abs()).info[c := Info(c.id, true, false, false)], old(Abs()).traced)
    {
      outgoing := outgoing[c.id := c];
      ever := ever + {c};
    }

    /** A closed connection with the same identifier hands its tunnels over. */
    method TakeOver(c: Conn)
      requires Valid() && Unknown(c) && c.remote.Valid()
      requires c.id in outgoing ==> outgoing[c.id].remote.Valid()
      modifies c.remote`tunnels
      ensures Abs() == old(Abs()) && c.remote.Valid()
      ensures c.remote.tunnels == old(Inherited(c, true))
      ensures c.id in outgoing && old(c.remote.tunnels) == map[] ==>
        c.remote.Bag() == old(outgoing[c.id].remote.Bag())
    {
      hide BagOf;
      if c.id in outgoing {
        outgoing[c.id].remote.CopyTunnels(c.remote);
      }
    }

    /** The tunnels of the connection if it is added, and if it is refused. */
    ghost function Inherited(c: Conn, added: bool): map<Target, Tunnel>
      reads this, c.remote, if c.id in outgoing then {outgoing[c.id].remote} else {}
    {
      if added && c.id in outgoing then c.remote.tunnels + outgoing[c.id].remote.tunnels else c.remote.tunnels
    }

    /** The new connection takes over the tunnels of the closed one that it replaces. */
    method AddConn(c: Conn) returns (ok: bool)
      requires Valid() && Unknown(c) && c.open && !c.remote.active
      requires c.remote.Valid() && (c.id in outgoing ==> outgoing[c.id].remote.Valid())
      modifies this`outgoing, this`ever, c.remote`tunnels
      ensures Valid() && (Abs(), ok) == Lifecycle.Added(old(Abs()), c, c.id)
      ensures c.remote.Valid() && c.remote.tunnels == old(Inherited(c, ok))
      ensures ok && c.id in old(outgoing) && old(c.remote.tunnels) == map[] ==>
        c.remote.Bag() == old(outgoing[c.id].remote.Bag())
      ensures ever == if ok then old(ever) + {c} else old(ever)
    {
      hide BagOf, Pinging, Node.Bag, Node.Valid, Node.Table;
      if c.id in outgoing && outgoing[c.id].open {
        return false;
      }
      TakeOver(c);
      Put(c);
      ok := true;
    }

    method Unmark(c: Conn)
      requires Valid() && c in ever
      modifies c.remote`toBeTraced
      ensures Abs() == Unmarked(old(Abs()), c) && !c.remote.toBeTraced
    {
      c.remote.toBeTraced := false;
    }

    method Mark(c: Conn)
      requires Valid() && c in ever
      modifies c.remote`toBeTraced, c.remote`active
      ensures Abs() == Marked(old(Abs()), c)
    {
      c.remote.SetIsActive(true);
      c.remote.toBeTraced := true;
    }

    method Shut(c: Conn)
      requires Valid() && (c in ever || Unknown(c))
      modifies c`open, c.remote`active
      ensures !c.open && !c.remote.active
      ensures Abs() == if c !in ever then old(Abs())
                       else old(Abs()).(info := old(Abs()).info[c := Info(c.id, false, c.remote.toBeTraced, false)])
    {
      c.open := false;
      c.remote.SetIsActive(false);
    }

    method Keep(c: Conn) returns (blocked: bool)
      requires Valid() && c in ever
      modifies tracer`conns, this`pinged
      ensures Valid() && Abs() == old(Abs()).(traced := old(Abs()).traced[c.id := c])
      ensures blocked == !tracer.running && c.id in tracer.conns && tracer.conns[c.id] == c.remote
    {
      blocked := tracer.Trace(c.remote);
      pinged := pinged[c.id := c];
    }

    /** `Conn.Close`. Also of a connection that the network refused. */
    method CloseConn(c: Conn, closes: bool) returns (ok: bool, blocked: bool)
      requires Valid() && (c in ever || Unknown(c))
      modifies c`open, c.remote`active, tracer`conns, this`pinged
      ensures Valid() && Abs() == Closed(old(Abs()), c, closes)
      ensures ok == (old(c.open) && closes) && c.open == (old(c.open) && !closes)
      ensures c.remote.active == (old(c.remote.active) && !ok)
      ensures blocked == (ok && c.remote.toBeTraced && !tracer.running)
      ensures ok && c.remote.toBeTraced ==> c.id in tracer.conns && tracer.conns[c.id] == c.remote
    {
      hide Pinging;
      ok, blocked := false, false;
      if !c.open || !closes {
        return;
      }
      Shut(c);
      if c.remote.toBeTraced {
        blocked := Keep(c);
      }
      ok := true;
    }

    /** `HandleDisconnect`: the node is not to be traced, and its connection closes. */
    method Disconnect(id: NodeId, closes: bool) returns (found: bool)
      requires Valid()
      modifies if id in outgoing then {outgoing[id], outgoing[id].remote} else {}
      modifies tracer`conns, this`pinged
      ensures Valid() && Abs() == Disconnected(old(Abs()), id, closes)
      ensures found == (id in outgoing)
      ensures found ==> !outgoing[id].remote.toBeTraced && outgoing[id].open == (old(outgoing[id].open) && !closes)
    {
      if id !in outgoing {
        return false;
      }
      var c := outgoing[id];
      Unmark(c);
      var _, _ := CloseConn(c, closes);
      found := true;
    }

    /** `Networks.Close`, where the sockets of `stuck` fail to close. */
    method CloseAll(stuck: set<Conn>)
      requires Valid()
      modifies outgoing.Values, Remotes(), tracer`conns, this`pinged
      ensures Valid() && Abs() == AllClosed(old(Abs()), stuck)
      ensures forall id :: id in outgoing ==>
        var c := outgoing[id];
        !c.remote.toBeTraced && (c.open ==> c in stuck) && (c !in stuck && old(c.open) ==> !c.remote.active)
    {
      hide SomeClosed, Closed, Unmarked;
      ghost var was, done: set<Conn> := Abs(), {};
      NoneClosed(was, stuck);
      var left := outgoing.Keys;
      while left != {}
        invariant Valid() && left <= outgoing.Keys && done <= outgoing.Values
        invariant forall id :: id in outgoing ==> (outgoing[id] in done <==> id !in left)
        invariant Abs() == SomeClosed(was, stuck, done)
      {
        var id :| id in left;
        var c := outgoing[id];
        Unmark(c);
        var _, _ := CloseConn(c, c !in stuck);
        OneMoreClosed(was, stuck, done, c);
        left, done := left - {id}, done + {c};
      }
      assert done == outgoing.Values;
      AllClosedLeaves(was, stuck);
      forall id | id in outgoing
        ensures InfoOf(outgoing[id]) == AllClosed(was, stuck).info[outgoing[id]]
      {
        assert Abs().info[outgoing[id]] == InfoOf(outgoing[id]);
      }
    }

    /** `Wire` with a connection that was dialled: `notified` and `beating` tell whether the
        two packets that it sends go out. */
    method Wire(c: Conn, notified: bool, beating: bool, closes: bool) returns (ok: bool)
      requires Valid() && Unknown(c) && c.open && !c.remote.active
      requires c.remote.Valid() && (c.id in outgoing ==> outgoing[c.id].remote.Valid())
      modifies this`outgoing, this`ever, c, c.remote, tracer`conns, this`pinged
      ensures Valid() && (Abs(), ok) == Wired(old(Abs()), c, c.id, notified && beating, closes)
      ensures ok ==> c.open && c.remote.active && c.remote.toBeTraced
      ensures ok ==> c.id in outgoing && outgoing[c.id] == c && Usable(c.remote)
      ensures !ok ==> c.open == !closes && !c.remote.active && !c.remote.toBeTraced
    {
      ok := AddConn(c);
      if !ok || !notified || !beating {
        var _, _ := CloseConn(c, closes);
        return false;
      }
      Mark(c);
    }

    method Forget(id: NodeId)
      requires Valid()
      modifies tracer`conns, this`pinged
      ensures Valid() && Abs() == Untraced(old(Abs()), id)
    {
      var _ := tracer.Untrace(id);
      pinged := pinged - {id};
    }

    /** The tracer pings the node that it has under `id`; `reachable` tells whether the dial to
        its address succeeds. */
    method Ping(id: NodeId, reachable: bool) returns (online: bool)
      requires Valid() && id in tracer.conns
      ensures online <==> reachable && Answers(Abs(), id)
    {
      online := tracer.conns[id].Ping(reachable);
      assert pinged[id] in Abs().info;
    }

    /** What `TraceNodes` does when the tracer finds `id` online: reconnect, then untrace.
        Without a connection `c` nobody answered. */
    method Online(id: NodeId, c: Conn?, notified: bool, beating: bool, closes: bool, answered: bool)
      requires Valid()
      requires c != null ==> Unknown(c) && c.open && !c.remote.active && c.remote.Valid()
      requires c != null && c.id in outgoing ==> outgoing[c.id].remote.Valid()
      modifies this`outgoing, this`ever, tracer`conns, this`pinged
      modifies if c == null then {} else {c, c.remote}
      ensures Valid()
      ensures Abs() == Lifecycle.Online(old(Abs()), id,
        if c == null then NoAnswer else var d: Conn := c; Reached(d, d.id, notified && beating, closes, answered))
    {
      hide Wired, Untraced;
      if id !in outgoing {
        Forget(id);
      } else if c != null {
        var ok := Wire(c, notified, beating, closes);
        if ok && answered {
          Forget(id);
        }
      }
    }

    /** The node belongs to an open entry and is active. */
    ghost predicate Usable(n: Node)
      reads this, outgoing.Values, n
    {
      exists id :: id in outgoing && outgoing[id].remote == n && outgoing[id].open && n.active
    }

    /** The root and the remote nodes that the dispatcher may use: of every entry that is open
        the node, if it is active. No two of them share an identifier. */
    method Nodes() returns (root: Node, nodes: seq<Node>)
      requires Valid()
      ensures root == local && forall n :: n in nodes <==> Usable(n)
      ensures forall i, j :: 0 <= i < j < |nodes| ==> nodes[i].id != nodes[j].id
    {
      root, nodes := local, [];
      var left := outgoing.Keys;
      while left != {}
        invariant left <= outgoing.Keys
        invariant forall n :: n in nodes <==>
          exists id :: id in outgoing && id !in left && outgoing[id].remote == n && outgoing[id].open && n.active
        invariant forall i :: 0 <= i < |nodes| ==> nodes[i].id in outgoing && nodes[i].id !in left
        invariant forall i, j :: 0 <= i < j < |nodes| ==> nodes[i].id != nodes[j].id
      {
        var id :| id in left;
        var c := outgoing[id];
        if c.remote.active && c.open {
          nodes := nodes + [c.remote];
        }
        left := left - {id};
      }
    }
  }
}
