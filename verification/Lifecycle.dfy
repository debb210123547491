/** The life of the connections of a network: added, wired, closed, traced while they are
    down and replaced when the node is back (booster/network.go, booster/booster.go,
    booster/handlers.go). A connection is known by a key `C`; `Networks` has the objects. */
module Lifecycle {
  import opened Nodes

  /** `toBeTraced` and `active` belong to the remote node of the connection. */
  datatype Info = Info(id: NodeId, open: bool, toBeTraced: bool, active: bool)

  /** `info` knows every connection ever added, `outgoing` the current one for each
      identifier; `traced` has, for the identifiers that the tracer knows, the connection whose
      node it pings. */
  datatype State<!C(==)> = State(outgoing: map<NodeId, C>, info: map<C, Info>, traced: map<NodeId, C>)
  {
    predicate Open(c: C) {
      c in info && info[c].open
    }

    /** The identifier has an entry, the entry is closed and nobody asked for that. */
    predicate Lost(id: NodeId) {
      id in outgoing && outgoing[id] in info && !info[outgoing[id]].open && info[outgoing[id]].toBeTraced
    }
  }

  /** The steps that other goroutines can get between. `closes` tells whether the socket
      closes without an error, `stuck` the connections whose socket does not. */
  datatype Event<C(==)> =
    | Add(c: C, id: NodeId)
    | Mark(c: C)
    | Close(c: C, closes: bool)
    | Disconnect(id: NodeId, closes: bool)
    | CloseAll(stuck: set<C>)
    | Untrace(id: NodeId)
    | Touch(c: C)

  // ----- The steps -----

  /** Refused when the identifier has an open connection. */
  function Added<C>(s: State<C>, c: C, id: NodeId): (State<C>, bool) {
    if id in s.outgoing && s.Open(s.outgoing[id]) then (s, false)
    else (s.(outgoing := s.outgoing[id := c], info := s.info[c := Info(id, true, false, false)]), true)
  }

  /** The end of a successful `Wire`. */
  function Marked<C>(s: State<C>, c: C): State<C> {
    if c in s.info then s.(info := s.info[c := s.info[c].(active := true, toBeTraced := true)]) else s
  }

  function Closed<C>(s: State<C>, c: C, closes: bool): State<C> {
    if !s.Open(c) || !closes then s
    else
      var i := s.info[c];
      s.(info := s.info[c := i.(open := false, active := false)],
         traced := if i.toBeTraced then s.traced[i.id := c] else s.traced)
  }

  function Unmarked<C>(s: State<C>, c: C): State<C> {
    if c in s.info then s.(info := s.info[c := s.info[c].(toBeTraced := false)]) else s
  }

  function Disconnected<C>(s: State<C>, id: NodeId, closes: bool): State<C> {
    if id !in s.outgoing then s else Closed(Unmarked(s, s.outgoing[id]), s.outgoing[id], closes)
  }

  /** The connections of `done` are no longer to be traced and closed, unless stuck. */
  function SomeClosed<C>(s: State<C>, stuck: set<C>, done: set<C>): State<C> {
    s.(info := map c | c in s.info ::
         if c !in done then s.info[c]
         else if c in stuck || !s.info[c].open then s.info[c].(toBeTraced := false)
         else Info(s.info[c].id, false, false, false))
  }

  function AllClosed<C>(s: State<C>, stuck: set<C>): State<C> {
    SomeClosed(s, stuck, s.outgoing.Values)
  }

  lemma NoneClosed<C>(s: State<C>, stuck: set<C>)
    ensures SomeClosed(s, stuck, {}) == s
  {
  }

  /** Closing them one after the other, in any order, closes them all and traces none. */
  lemma OneMoreClosed<C>(s: State<C>, stuck: set<C>, done: set<C>, c: C)
    requires c in s.info && c !in done
    ensures Closed(Unmarked(SomeClosed(s, stuck, done), c), c, c !in stuck) == SomeClosed(s, stuck, done + {c})
  {
  }

  lemma AllClosedLeaves<C>(s: State<C>, stuck: set<C>)
    ensures AllClosed(s, stuck).info.Keys == s.info.Keys
    ensures forall id :: id in s.outgoing && s.outgoing[id] in s.info ==>
      var c := s.outgoing[id];
      var i := AllClosed(s, stuck).info[c];
      !i.toBeTraced && (i.open ==> c in stuck) && (c !in stuck && s.info[c].open ==> !i.active)
  {
    forall id | id in s.outgoing
      ensures s.outgoing[id] in s.outgoing.Values
    {
    }
  }

  function Untraced<C>(s: State<C>, id: NodeId): State<C> {
    s.(traced := s.traced - {id})
  }

  /** A tunnel update makes the node active, even after the connection closed. */
  function Touched<C>(s: State<C>, c: C): State<C> {
    if c in s.info then s.(info := s.info[c := s.info[c].(active := true)]) else s
  }

  function Do<C>(s: State<C>, e: Event<C>): State<C> {
    match e
    case Add(c, id) => Added(s, c, id).0
    case Mark(c) => Marked(s, c)
    case Close(c, closes) => Closed(s, c, closes)
    case Disconnect(id, closes) => Disconnected(s, id, closes)
    case CloseAll(stuck) => AllClosed(s, stuck)
    case Untrace(id) => Untraced(s, id)
    case Touch(c) => Touched(s, c)
  }

  function Run<C>(s: State<C>, run: seq<Event<C>>): State<C>
    decreases run
  {
    if run == [] then s else Run(Do(s, run[0]), run[1..])
  }

  // ----- Invariant -----

  /** Entries are filed under their identifier, only a current entry can be open, and what is
      traced is closed. */
  ghost predicate Filed<C>(s: State<C>) {
    && (forall id :: id in s.outgoing ==> s.outgoing[id] in s.info && s.info[s.outgoing[id]].id == id)
    && (forall c :: c in s.info && s.info[c].open ==>
          s.info[c].id in s.outgoing && s.outgoing[s.info[c].id] == c)
    && (forall id :: id in s.traced ==>
          s.traced[id] in s.info && s.info[s.traced[id]].id == id && !s.info[s.traced[id]].open)
  }

  /** And every lost connection is traced. */
  ghost predicate Inv<C>(s: State<C>) {
    Filed(s) && forall id :: id in s.outgoing && s.Lost(id) ==> id in s.traced
  }

  /** Every connection is a new one when it is added. */
  predicate Possible<C>(s: State<C>, e: Event<C>) {
    e.Add? ==> e.c !in s.info
  }

  /** What `Wire` and the tracer would have to check, in the same step, before they set the
      flag and before they forget the identifier. */
  predicate Safe<C>(s: State<C>, e: Event<C>) {
    match e
    case Mark(c) => c in s.info && !s.info[c].open && s.info[c].id in s.outgoing && s.outgoing[s.info[c].id] == c
      ==> s.info[c].id in s.traced
    case Untrace(id) => !s.Lost(id)
    case _ => true
  }

  lemma AddKeeps<C>(s: State<C>, c: C, id: NodeId)
    requires c !in s.info
    ensures Filed(s) ==> Filed(Added(s, c, id).0)
    ensures Inv(s) ==> Inv(Added(s, c, id).0)
  {
    var t := Added(s, c, id).0;
    if t != s && Filed(s) {
      forall d | d in t.info && t.info[d].open
        ensures t.info[d].id in t.outgoing && t.outgoing[t.info[d].id] == d
      {
        if d != c && s.info[d].id == id {
          assert s.Open(s.outgoing[id]);
        }
      }
    }
  }

  lemma CloseKeeps<C>(s: State<C>, c: C, closes: bool)
    requires Inv(s)
    ensures Inv(Closed(s, c, closes)) && Inv(Unmarked(s, c))
  {
  }

  lemma CloseAllKeeps<C>(s: State<C>, stuck: set<C>)
    requires Inv(s)
    ensures Inv(AllClosed(s, stuck))
  {
    var t := AllClosed(s, stuck);
    forall id | id in t.outgoing
      ensures !t.Lost(id)
    {
      assert s.outgoing[id] in s.outgoing.Values;
    }
  }

  /** Which steps keep the invariant: all but two always do, those two exactly under `Safe`. */
  lemma StepKeepsExactly<C>(s: State<C>, e: Event<C>)
    requires Inv(s) && Possible(s, e)
    ensures Inv(Do(s, e)) <==> Safe(s, e)
  {
    match e
    case Add(c, id) => AddKeeps(s, c, id);
    case Close(c, closes) => CloseKeeps(s, c, closes);
    case Disconnect(id, closes) =>
      if id in s.outgoing {
        CloseKeeps(s, s.outgoing[id], closes);
        CloseKeeps(Unmarked(s, s.outgoing[id]), s.outgoing[id], closes);
      }
    case CloseAll(stuck) => CloseAllKeeps(s, stuck);
    case Mark(c) =>
      if !Safe(s, e) {
        assert Do(s, e).Lost(s.info[c].id);
      }
    case Untrace(id) =>
      if !Safe(s, e) {
        assert Do(s, e).Lost(id);
      } else {
        forall k | k in s.outgoing && Do(s, e).Lost(k)
          ensures k in Do(s, e).traced
        {
          assert s.Lost(k);
        }
      }
    case Touch(c) =>
      forall k | k in s.outgoing && Do(s, e).Lost(k)
        ensures s.Lost(k)
      {
      }
  }

  /** Every step, safe or not, leaves open only what is current. */
  lemma StepKeepsFiled<C>(s: State<C>, e: Event<C>)
    requires Filed(s) && Possible(s, e)
    ensures Filed(Do(s, e))
  {
    match e
    case Add(c, id) => AddKeeps(s, c, id);
    case _ =>
  }

  ghost predicate AllPossible<C>(s: State<C>, run: seq<Event<C>>)
    decreases run
  {
    run == [] || (Possible(s, run[0]) && AllPossible(Do(s, run[0]), run[1..]))
  }

  lemma {:induction false} RunKeepsFiled<C>(s: State<C>, run: seq<Event<C>>)
    requires Filed(s) && AllPossible(s, run)
    ensures Filed(Run(s, run))
    decreases run
  {
    hide Filed, Do, Possible;
    if run != [] {
      StepKeepsFiled(s, run[0]);
      RunKeepsFiled(Do(s, run[0]), run[1..]);
    }
  }

  ghost predicate Sane<C>(s: State<C>, run: seq<Event<C>>)
    decreases run
  {
    run == [] || (Possible(s, run[0]) && Safe(s, run[0]) && Sane(Do(s, run[0]), run[1..]))
  }

  ghost predicate InvThroughout<C>(s: State<C>, run: seq<Event<C>>)
    decreases run
  {
    Inv(s) && (run == [] || InvThroughout(Do(s, run[0]), run[1..]))
  }

  /** A run of single steps, however they are interleaved, has every lost node traced in all
      its states if and only if it marks and untraces safely. */
  lemma {:induction false} RunKeepsExactly<C>(s: State<C>, run: seq<Event<C>>)
    requires Inv(s) && AllPossible(s, run)
    ensures InvThroughout(s, run) <==> Sane(s, run)
    ensures Sane(s, run) ==> Inv(Run(s, run))
    decreases run
  {
    hide Inv, Do, Safe;
    if run != [] {
      StepKeepsExactly(s, run[0]);
      if Inv(Do(s, run[0])) {
        RunKeepsExactly(Do(s, run[0]), run[1..]);
      }
    }
  }

  function Start<C(==)>(): State<C> {
    State(map[], map[], map[])
  }

  /** In every interleaving of single steps, of all connections ever added under an
      identifier at most one is open. */
  lemma OneOpen<C>(run: seq<Event<C>>, c: C, d: C)
    requires AllPossible(Start(), run)
    ensures var s := Run(Start(), run);
            s.Open(c) && s.Open(d) && s.info[c].id == s.info[d].id ==> c == d
  {
    RunKeepsFiled(Start(), run);
  }

  // ----- The calls made of several steps -----

  /** `Booster.Wire` after the dial: `sent` tells whether both packets went out. */
  function Wired<C>(s: State<C>, c: C, id: NodeId, sent: bool, closes: bool): (State<C>, bool) {
    var (t, ok) := Added(s, c, id);
    if !ok then (s, false)
    else if !sent then (Closed(t, c, closes), false)
    else (Marked(t, c), true)
  }

  /** What dialling the address of a traced node leads to: a new connection `c`, under the
      identifier that follows from the hello message, which names the ports. `answered`
      tells whether the result of the wiring comes back. */
  datatype Attempt<C> = NoAnswer | Reached(c: C, id: NodeId, sent: bool, closes: bool, answered: bool)

  /** The tracer reports that `id` is online. */
  function Online<C>(s: State<C>, id: NodeId, a: Attempt<C>): State<C> {
    if id !in s.outgoing then Untraced(s, id)
    else if a.NoAnswer? then s
    else
      var (t, ok) := Wired(s, a.c, a.id, a.sent, a.closes);
      if ok && a.answered then Untraced(t, id) else t
  }

  lemma WireKeeps<C>(s: State<C>, c: C, id: NodeId, sent: bool, closes: bool)
    requires Inv(s) && c !in s.info
    ensures var (t, ok) := Wired(s, c, id, sent, closes);
            && Inv(t) && t.traced == s.traced
            && (ok <==> sent && !(id in s.outgoing && s.Open(s.outgoing[id])))
            && (ok ==> t.outgoing == s.outgoing[id := c] && t.info == s.info[c := Info(id, true, true, true)])
            && (!ok && !Added(s, c, id).1 ==> t == s)
            && (!ok && Added(s, c, id).1 ==>
                  t.outgoing == s.outgoing[id := c] && t.info == s.info[c := Info(id, !closes, false, false)])
  {
    AddKeeps(s, c, id);
    var (t, ok) := Added(s, c, id);
    if ok {
      StepKeepsExactly(t, Mark(c));
      CloseKeeps(t, c, closes);
    }
  }

  /** What `Close` leaves: the connection closed, its node inactive, and the identifier traced
      if nobody asked for it; nothing else changes. */
  lemma CloseLeaves<C>(s: State<C>, c: C, closes: bool)
    ensures !(s.Open(c) && closes) ==> Closed(s, c, closes) == s
    ensures s.Open(c) && closes ==>
      var i, t := s.info[c], Closed(s, c, closes);
      && t.info == s.info[c := Info(i.id, false, i.toBeTraced, false)] && t.outgoing == s.outgoing
      && t.traced.Keys == s.traced.Keys + (if i.toBeTraced then {i.id} else {})
      && (i.toBeTraced ==> t.traced[i.id] == c)
  {
  }

  /** A report about an identifier without an entry only takes it out of the tracer; without an
      answer from the address nothing happens. */
  lemma ReportWithoutEffect<C>(s: State<C>, id: NodeId, a: Attempt<C>)
    ensures id !in s.outgoing ==> Online(s, id, a) == s.(traced := s.traced - {id})
    ensures id in s.outgoing && a.NoAnswer? ==> Online(s, id, a) == s
  {
  }

  /** The tracer forgets a lost node exactly when the address answers under another
      identifier, which it does when the node came back with another proxy port. */
  lemma OnlineKeepsExactly<C>(s: State<C>, id: NodeId, a: Attempt<C>)
    requires Inv(s) && (a.Reached? ==> a.c !in s.info)
    ensures Inv(Online(s, id, a)) <==>
      !(s.Lost(id) && a.Reached? && a.id != id && a.answered
        && Wired(s, a.c, a.id, a.sent, a.closes).1)
  {
    if id !in s.outgoing {
      StepKeepsExactly(s, Untrace(id));
    } else if a.Reached? {
      WireKeeps(s, a.c, a.id, a.sent, a.closes);
      var (t, ok) := Wired(s, a.c, a.id, a.sent, a.closes);
      StepKeepsExactly(t, Untrace(id));
    }
  }

  /** A successful reconnection ends with the new connection in place and the identifier
      forgotten; while the entry is open the tracer pings on and every attempt is refused. */
  lemma Reconnects<C>(s: State<C>, id: NodeId, a: Attempt<C>)
    requires Inv(s) && id in s.outgoing && a.Reached? && a.id == id && a.c !in s.info
    ensures s.Open(s.outgoing[id]) ==> Online(s, id, a) == s
    ensures !s.Open(s.outgoing[id]) && a.sent && a.answered ==>
      var t := Online(s, id, a);
      t.Open(a.c) && t.outgoing[id] == a.c && t.traced == s.traced - {id}
  {
    WireKeeps(s, a.c, id, a.sent, a.closes);
  }

  // ----- When the two calls are not atomic -----

  /** The new connection goes down between the reconnection and the `Untrace` that follows it:
      the node stays lost and nobody pings it. */
  lemma CloseBeforeUntrace<C>(a: C, b: C, id: NodeId)
    requires a != b
    ensures var run := [Add(a, id), Mark(a), Close(a, true), Add(b, id), Mark(b), Close(b, true)];
            Sane(Start(), run)
            && var t := Run(Start(), run); t.Lost(id) && id !in Untraced(t, id).traced && Untraced(t, id).Lost(id)
  {
    var s: State<C> := Start();
    var run := [Add(a, id), Mark(a), Close(a, true), Add(b, id), Mark(b), Close(b, true)];
    SaneSteps(s, run);
    var s1 := Do(s, run[0]);
    SaneSteps(s1, run[1..]);
    var s2 := Do(s1, run[1]);
    SaneSteps(s2, run[2..]);
    var s3 := Do(s2, run[2]);
    SaneSteps(s3, run[3..]);
    var s4 := Do(s3, run[3]);
    SaneSteps(s4, run[4..]);
    var s5 := Do(s4, run[4]);
    SaneSteps(s5, run[5..]);
  }

  lemma SaneSteps<C>(s: State<C>, run: seq<Event<C>>)
    requires run != []
    ensures Run(s, run) == Run(Do(s, run[0]), run[1..])
    ensures Sane(s, run) <==> Possible(s, run[0]) && Safe(s, run[0]) && Sane(Do(s, run[0]), run[1..])
    ensures |run| == 1 ==> Run(s, run) == Do(s, run[0]) && Sane(Do(s, run[0]), run[1..])
    ensures |run| > 1 ==> run[1..][0] == run[1] && run[1..][1..] == run[2..]
  {
  }

  /** A connection that goes down while `Wire` is still sending is marked afterwards and lost. */
  lemma CloseBeforeMark<C>(a: C, id: NodeId)
    ensures var s := Closed(Added(Start<C>(), a, id).0, a, true);
            Inv(s) && !Inv(Marked(s, a)) && Marked(s, a).Lost(id) && Marked(s, a).traced == map[]
  {
    var s := Closed(Added(Start<C>(), a, id).0, a, true);
    assert Marked(s, a).Lost(id);
  }

  // ----- Whole calls -----

  /** The network, and the reports of the tracer that a node is online which are still to be
      handled: they were true when the node was pinged. */
  datatype World<!C(==)> = World(net: State<C>, reports: multiset<NodeId>)

  datatype Call<!C(==)> =
    | Wire(c: C, id: NodeId, sent: bool, closes: bool)
    | Ping(id: NodeId)
    | Report(id: NodeId, attempt: Attempt<C>)
    | Step(e: Event<C>)

  /** The tracer gets an answer only from a node that is not active (`Node.Ping`). */
  predicate Answers<C>(s: State<C>, id: NodeId) {
    id in s.traced && s.traced[id] in s.info && !s.info[s.traced[id]].active
  }

  function Make<C>(w: World<C>, call: Call<C>): World<C> {
    match call
    case Wire(c, id, sent, closes) => w.(net := Wired(w.net, c, id, sent, closes).0)
    case Ping(id) => if Answers(w.net, id) then w.(reports := w.reports + multiset{id}) else w
    case Report(id, a) => World(Online(w.net, id, a), w.reports - multiset{id})
    case Step(e) => w.(net := Do(w.net, e))
  }

  function MakeAll<C>(w: World<C>, calls: seq<Call<C>>): World<C>
    decreases calls
  {
    if calls == [] then w else MakeAll(Make(w, calls[0]), calls[1..])
  }

  /** `Wire` and the tracer's reconnect-and-untrace are single steps, a traced node is reached
      under its own identifier, and new connections are new. */
  predicate Whole<C>(w: World<C>, call: Call<C>) {
    match call
    case Wire(c, _, _, _) => c !in w.net.info
    case Ping(_) => true
    case Report(id, a) => id in w.reports && (a.Reached? ==> a.c !in w.net.info && a.id == id)
    case Step(e) => !e.Add? && !e.Mark? && !e.Untrace?
  }

  predicate AllWhole<C>(w: World<C>, calls: seq<Call<C>>)
    decreases calls
  {
    calls == [] || (Whole(w, calls[0]) && AllWhole(Make(w, calls[0]), calls[1..]))
  }

  lemma CallKeeps<C>(w: World<C>, call: Call<C>)
    requires Inv(w.net) && Whole(w, call)
    ensures Inv(Make(w, call).net)
  {
    hide Inv, Wired, Online, Do;
    match call
    case Wire(c, id, sent, closes) => WireKeeps(w.net, c, id, sent, closes);
    case Ping(id) =>
    case Report(id, a) => OnlineKeepsExactly(w.net, id, a);
    case Step(e) => StepKeepsExactly(w.net, e);
  }

  lemma {:induction false} CallsKeep<C>(w: World<C>, calls: seq<Call<C>>)
    requires Inv(w.net) && AllWhole(w, calls)
    ensures Inv(MakeAll(w, calls).net)
    decreases calls
  {
    hide Inv, Make, Whole;
    if calls != [] {
      CallKeeps(w, calls[0]);
      CallsKeep(Make(w, calls[0]), calls[1..]);
    }
  }

  /** In every run of whole calls: a connection that went down unasked keeps its identifier in
      the tracer until it is replaced. */
  lemma LostIsTraced<C>(calls: seq<Call<C>>, id: NodeId)
    requires AllWhole(World(Start(), multiset{}), calls)
    ensures var s := MakeAll(World(Start<C>(), multiset{}), calls).net;
            s.Lost(id) ==> id in s.traced
  {
    CallsKeep(World(Start(), multiset{}), calls);
  }

  // ----- When a node that is down can come back -----

  predicate AllLeave<C>(w: World<C>, calls: seq<Call<C>>, id: NodeId) {
    AllWhole(w, calls) && forall i :: 0 <= i < |calls| ==> calls[i].Wire? ==> calls[i].id != id
  }

  predicate Away<C>(s: State<C>, id: NodeId) {
    id in s.outgoing && !s.Open(s.outgoing[id])
  }

  /** A report is under way, or the next ping gets an answer. */
  predicate Wakeable<C>(w: World<C>, id: NodeId) {
    id in w.reports || Answers(w.net, id)
  }

  /** Nothing about `id` is left to bring it back. */
  ghost predicate Gone<C>(w: World<C>, id: NodeId) {
    Filed(w.net) && Away(w.net, id) && !Wakeable(w, id)
  }

  lemma GoneWired<C>(s: State<C>, c: C, k: NodeId, sent: bool, closes: bool, id: NodeId)
    requires Filed(s) && Away(s, id) && !Answers(s, id) && c !in s.info && k != id
    ensures var t := Wired(s, c, k, sent, closes).0;
            Filed(t) && Away(t, id) && !Answers(t, id)
  {
    var t := Added(s, c, k).0;
    AddKeeps(s, c, k);
    assert Away(t, id) && !Answers(t, id);
    hide Added;
    StepKeepsFiled(t, Mark(c));
    StepKeepsFiled(t, Close(c, closes));
  }

  lemma GoneDo<C>(s: State<C>, e: Event<C>, id: NodeId)
    requires Filed(s) && Away(s, id) && !Answers(s, id) && !e.Add? && !e.Mark?
    ensures var t := Do(s, e); Filed(t) && Away(t, id) && !Answers(t, id)
  {
    StepKeepsFiled(s, e);
  }

  lemma GoneOnline<C>(s: State<C>, k: NodeId, a: Attempt<C>, id: NodeId)
    requires Filed(s) && Away(s, id) && !Answers(s, id) && k != id
    requires a.Reached? ==> a.c !in s.info && a.id == k
    ensures var t := Online(s, k, a); Filed(t) && Away(t, id) && !Answers(t, id)
  {
    hide Filed, Away, Answers, Wired;
    GoneDo(s, Untrace(k), id);
    if a.Reached? {
      GoneWired(s, a.c, k, a.sent, a.closes, id);
      GoneDo(Wired(s, a.c, k, a.sent, a.closes).0, Untrace(k), id);
    }
  }

  lemma StaysGone<C>(w: World<C>, call: Call<C>, id: NodeId)
    requires Gone(w, id) && Whole(w, call) && (call.Wire? ==> call.id != id)
    ensures Gone(Make(w, call), id)
  {
    hide Filed, Away, Answers, Online, Wired, Do;
    match call
    case Wire(c, k, sent, closes) => GoneWired(w.net, c, k, sent, closes, id);
    case Ping(k) =>
    case Report(k, a) => GoneOnline(w.net, k, a, id);
    case Step(e) => GoneDo(w.net, e, id);
  }

  lemma {:induction false} StaysGoneAll<C>(w: World<C>, calls: seq<Call<C>>, id: NodeId)
    requires Gone(w, id) && AllLeave(w, calls, id)
    ensures Gone(MakeAll(w, calls), id)
    decreases calls
  {
    hide Gone, Make, Whole;
    if calls != [] {
      StaysGone(w, calls[0], id);
      StaysGoneAll(Make(w, calls[0]), calls[1..], id);
    }
  }

  ghost predicate AwayForGood<C(!new)>(w: World<C>, id: NodeId) {
    forall calls: seq<Call<C>> :: AllLeave(w, calls, id) ==> Away(MakeAll(w, calls).net, id)
  }

  /** A ping if there is no report yet, and then a report that reaches the node. */
  lemma Wakes<C>(w: World<C>, id: NodeId, c: C) returns (calls: seq<Call<C>>)
    requires Inv(w.net) && Away(w.net, id) && Wakeable(w, id) && c !in w.net.info
    ensures AllLeave(w, calls, id) && !Away(MakeAll(w, calls).net, id)
  {
    var a := Reached(c, id, true, true, true);
    var v := if id in w.reports then w else Make(w, Ping(id));
    var last := [Report(id, a)];
    Reconnects(w.net, id, a);
    assert last[1..] == [] && MakeAll(v, last) == Make(v, last[0]) && AllWhole(v, last);
    if id in w.reports {
      calls := last;
    } else {
      calls := [Ping(id)] + last;
      assert calls[1..] == last;
    }
  }

  /** A node that is down stays down in every run of whole calls that leaves it alone if and
      only if no report about it is under way and the tracer has no inactive node under its
      identifier. */
  lemma AwayForGoodExactly<C(!new)>(w: World<C>, id: NodeId, c: C)
    requires Inv(w.net) && Away(w.net, id) && c !in w.net.info
    ensures AwayForGood(w, id) <==> !Wakeable(w, id)
  {
    if Wakeable(w, id) {
      var calls := Wakes(w, id, c);
      assert AllLeave(w, calls, id);
    } else {
      forall calls: seq<Call<C>> | AllLeave(w, calls, id)
        ensures Away(MakeAll(w, calls).net, id)
      {
        StaysGoneAll(w, calls, id);
      }
    }
  }

  /** A disconnection by hand does not touch what the tracer knows, so it lasts if and only if
      the tracer knows no inactive node under that identifier and no report is under way. */
  lemma DisconnectionLastsExactly<C(!new)>(w: World<C>, id: NodeId, c: C)
    requires Inv(w.net) && id in w.net.outgoing && c !in w.net.info
    ensures var t := w.(net := Disconnected(w.net, id, true));
            && t.net.traced == w.net.traced && Away(t.net, id)
            && (AwayForGood(t, id) <==> !Wakeable(w, id))
  {
    var t := w.(net := Disconnected(w.net, id, true));
    StepKeepsExactly(w.net, Disconnect(id, true));
    AwayForGoodExactly(t, id, c);
  }

  /** A lost node, though it is traced, comes back by itself if and only if the node that is
      traced for it is inactive or was so when it was pinged last. */
  lemma LostReturnsExactly<C(!new)>(w: World<C>, id: NodeId, c: C)
    requires Inv(w.net) && w.net.Lost(id) && c !in w.net.info
    ensures id in w.net.traced
    ensures !AwayForGood(w, id) <==> id in w.reports || !w.net.info[w.net.traced[id]].active
  {
    AwayForGoodExactly(w, id, c);
  }

  /** A tunnel update that is handled after its connection closed makes the node active again:
      it is lost and traced, and yet it never comes back by itself. */
  lemma LateUpdateStrandsTheNode<C(!new)>(a: C, id: NodeId, c: C)
    requires a != c
    ensures var calls := [Wire(a, id, true, true), Step(Close(a, true)), Step(Touch(a))];
            var start := World(Start<C>(), multiset{});
            var w := MakeAll(start, calls);
            && AllWhole(start, calls)
            && w.net.Lost(id) && id in w.net.traced && AwayForGood(w, id)
  {
    var start := World(Start<C>(), multiset{});
    var calls := [Wire(a, id, true, true), Step(Close(a, true)), Step(Touch(a))];
    var w1 := Make(start, calls[0]);
    var w2 := Make(w1, calls[1]);
    var w3 := Make(w2, calls[2]);
    var rest := calls[1..];
    assert rest[0] == calls[1] && rest[1..][0] == calls[2] && rest[1..][1..] == [];
    assert MakeAll(w2, rest[1..]) == MakeAll(w3, []) && MakeAll(w1, rest) == MakeAll(w2, rest[1..]);
    assert AllWhole(w2, rest[1..]) && AllWhole(w1, rest);
    CallsKeep(start, calls);
    LostReturnsExactly(w3, id, c);
  }

  /** A connection that went down, and nothing else: the tracer brings the node back. */
  lemma PlainLossReturns<C(!new)>(a: C, id: NodeId, c: C)
    requires a != c
    ensures var calls := [Wire(a, id, true, true), Step(Close(a, true))];
            var start := World(Start<C>(), multiset{});
            var w := MakeAll(start, calls);
            && AllWhole(start, calls)
            && w.net.Lost(id) && Answers(w.net, id) && !AwayForGood(w, id)
  {
    var start := World(Start<C>(), multiset{});
    var calls := [Wire(a, id, true, true), Step(Close(a, true))];
    var w1 := Make(start, calls[0]);
    var w2 := Make(w1, calls[1]);
    var rest := calls[1..];
    assert rest[0] == calls[1] && rest[1..] == [];
    assert MakeAll(w1, rest) == MakeAll(w2, []) && AllWhole(w1, rest);
    CallsKeep(start, calls);
    LostReturnsExactly(w2, id, c);
  }

  /** A report is spent when it is handled, even if the node did not answer then: a node that
      has become active meanwhile is not pinged again. */
  lemma ReportIsSpent<C(!new)>(a: C, id: NodeId, c: C)
    requires a != c
    ensures var s := Closed(Wired(Start<C>(), a, id, true, true).0, a, true);
            var pinged := Make(World(s, multiset{}), Ping(id));
            var touched := Make(pinged, Step(Touch(a)));
            && pinged.reports == multiset{id} && !AwayForGood(touched, id)
            && AwayForGood(Make(touched, Report(id, NoAnswer)), id)
  {
    var s := Closed(Wired(Start<C>(), a, id, true, true).0, a, true);
    WireKeeps(Start<C>(), a, id, true, true);
    CloseKeeps(Wired(Start<C>(), a, id, true, true).0, a, true);
    var touched := Make(Make(World(s, multiset{}), Ping(id)), Step(Touch(a)));
    StepKeepsExactly(s, Touch(a));
    AwayForGoodExactly(touched, id, c);
    AwayForGoodExactly(Make(touched, Report(id, NoAnswer)), id, c);
  }
}
