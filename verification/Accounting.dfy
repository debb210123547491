/** The distributed accounting of tunnels. A proxy publishes an update whenever it opens or
    closes a tunnel (socks5/socks5.go). The updates of the root's own proxy reach the root's
    table, those of a remote reach, over the connection, the table that the root keeps for
    that remote (booster/booster.go, booster/handlers.go, booster/network.go). Every update
    travels on its own, so the ones in flight are a set and are delivered in any order. */
module Accounting {
  import opened Streams
  import opened Nodes
  import opened Dispatch

  /** How a proxied stream leaves the node that counts it: from the node itself or, for the
      root, through the proxy of one of its remotes. */
  datatype Hop = Direct | Through(remote: nat)

  /** One proxied stream; `near` is its target in the root's table, `far` in a remote's. */
  datatype Flow = Flow(serial: nat, hop: Hop, near: Target, far: Target)

  datatype Side = Near | Far

  function TargetAt(f: Flow, side: Side): Target {
    if side == Near then f.near else f.far
  }

  /** The tunnels a proxy has open, its updates that were not applied, the table that the others
      built, and the targets whose removal failed. Of the updates that were not applied some are
      lost: the goroutine that forwards an update gives up after a second (pubsub/channel.go),
      and when that has happened once, the later ones are lost as well. */
  datatype Account = Account(
    open: set<Flow>,
    adds: set<Flow>,
    removes: set<Flow>,
    lostAdds: set<Flow>,
    lostRemoves: set<Flow>,
    table: multiset<Target>,
    failed: multiset<Target>)

  const EMPTY := Account({}, {}, {}, {}, {}, multiset{}, multiset{})

  function Opened(a: Account, f: Flow): Account {
    a.(open := a.open + {f}, adds := a.adds + {f})
  }

  function Closed(a: Account, f: Flow): Account {
    a.(open := a.open - {f}, removes := a.removes + {f})
  }

  function AddDelivered(a: Account, f: Flow, side: Side): Account {
    a.(adds := a.adds - {f}, table := Apply(a.table, Update(TargetAt(f, side), Added)).0)
  }

  function RemoveDelivered(a: Account, f: Flow, side: Side): Account {
    var (table, ok) := Apply(a.table, Update(TargetAt(f, side), Removed));
    a.(removes := a.removes - {f}, table := table,
       failed := if ok then a.failed else a.failed + multiset{TargetAt(f, side)})
  }

  // ----- The system of a root and its remotes -----

  /** `waiting` are the flows a remote has opened for the root while the root has not yet
      counted them. */
  datatype Net = Net(root: Account, remotes: seq<Account>, waiting: set<Flow>, next: nat)

  function Start(n: nat): Net {
    Net(EMPTY, seq(n, _ => EMPTY), {}, 0)
  }

  /** What can happen to a tunnel of an account once it is open. */
  datatype Act = Close | DeliverAdd | DeliverRemove | LoseAdd | LoseRemove

  predicate ActEnabled(a: Account, act: Act, f: Flow) {
    match act
    case Close => f in a.open
    case DeliverAdd | LoseAdd => f in a.adds && f !in a.lostAdds
    case DeliverRemove | LoseRemove => f in a.removes && f !in a.lostRemoves
  }

  function Acted(a: Account, act: Act, f: Flow, side: Side): Account {
    match act
    case Close => Closed(a, f)
    case DeliverAdd => AddDelivered(a, f, side)
    case DeliverRemove => RemoveDelivered(a, f, side)
    case LoseAdd => a.(lostAdds := a.lostAdds + {f})
    case LoseRemove => a.(lostRemoves := a.lostRemoves + {f})
  }

  /** A direct tunnel is opened by the root, a relayed one first by the remote and then by
      the root; a remote may also open tunnels for others. */
  datatype Step =
    | OpenDirect(target: Target)
    | RelayOpen(i: nat, near: Target, far: Target)
    | NearOpen(f: Flow)
    | ForeignOpen(i: nat, target: Target)
    | AtRoot(act: Act, f: Flow)
    | AtRemote(i: nat, act: Act, f: Flow)

  predicate Enabled(n: Net, st: Step) {
    match st
    case OpenDirect(_) => true
    case RelayOpen(i, _, _) => i < |n.remotes|
    case NearOpen(f) => f in n.waiting
    case ForeignOpen(i, _) => i < |n.remotes|
    case AtRoot(act, f) => ActEnabled(n.root, act, f)
    case AtRemote(i, act, f) => i < |n.remotes| && ActEnabled(n.remotes[i], act, f)
  }

  function Do(n: Net, st: Step): Net
    requires Enabled(n, st)
  {
    match st
    case OpenDirect(target) =>
      n.(root := Opened(n.root, Flow(n.next, Direct, target, target)), next := n.next + 1)
    case RelayOpen(i, near, far) =>
      var f := Flow(n.next, Through(i), near, far);
      n.(remotes := n.remotes[i := Opened(n.remotes[i], f)], waiting := n.waiting + {f},
         next := n.next + 1)
    case NearOpen(f) =>
      n.(root := Opened(n.root, f), waiting := n.waiting - {f})
    case ForeignOpen(i, target) =>
      var f := Flow(n.next, Direct, target, target);
      n.(remotes := n.remotes[i := Opened(n.remotes[i], f)], next := n.next + 1)
    case AtRoot(act, f) => n.(root := Acted(n.root, act, f, Near))
    case AtRemote(i, act, f) => n.(remotes := n.remotes[i := Acted(n.remotes[i], act, f, Far)])
  }

  /** Where the steps lead, if each is enabled when its turn comes. */
  function Run(start: Net, sts: seq<Step>): Option<Net> {
    if sts == [] then Some(start)
    else
      var n := Run(start, sts[..|sts| - 1]);
      if n.Some? && Enabled(n.value, sts[|sts| - 1]) then Some(Do(n.value, sts[|sts| - 1])) else None
  }

  // ----- Conservation -----

  function Only(s: set<Flow>, side: Side, t: Target): set<Flow> {
    set f | f in s && TargetAt(f, side) == t
  }

  function CountOf(s: set<Flow>, side: Side, t: Target): nat {
    |Only(s, side, t)|
  }

  lemma CountAdd(s: set<Flow>, f: Flow, side: Side, t: Target)
    requires f !in s
    ensures CountOf(s + {f}, side, t) ==
      CountOf(s, side, t) + if TargetAt(f, side) == t then 1 else 0
  {
    if TargetAt(f, side) == t {
      assert Only(s + {f}, side, t) == Only(s, side, t) + {f};
    } else {
      assert Only(s + {f}, side, t) == Only(s, side, t);
    }
  }

  lemma CountRemove(s: set<Flow>, f: Flow, side: Side, t: Target)
    requires f in s
    ensures CountOf(s, side, t) ==
      CountOf(s - {f}, side, t) + if TargetAt(f, side) == t then 1 else 0
  {
    CountAdd(s - {f}, f, side, t);
    assert s - {f} + {f} == s;
  }

  /** For target `t`: what the table holds and did not yet gain, or never will, is what is open,
      what was not removed, and what failed to be removed. */
  ghost predicate Balances(a: Account, side: Side, t: Target) {
    a.table[t] + CountOf(a.adds, side, t) ==
    CountOf(a.open, side, t) + CountOf(a.removes, side, t) + a.failed[t]
  }

  ghost predicate Conserved(a: Account, side: Side) {
    && (forall t :: Balances(a, side, t))
    && |a.table| + |a.adds| == |a.open| + |a.removes| + |a.failed|
  }

  lemma OpenedConserves(a: Account, f: Flow, side: Side)
    requires Conserved(a, side) && f !in a.open && f !in a.adds
    ensures Conserved(Opened(a, f), side)
  {
    hide CountOf;
    forall t
      ensures Balances(Opened(a, f), side, t)
    {
      assert Balances(a, side, t);
      CountAdd(a.open, f, side, t);
      CountAdd(a.adds, f, side, t);
    }
  }

  lemma ClosedConserves(a: Account, f: Flow, side: Side)
    requires Conserved(a, side) && f in a.open && f !in a.removes
    ensures Conserved(Closed(a, f), side)
  {
    hide CountOf;
    forall t
      ensures Balances(Closed(a, f), side, t)
    {
      assert Balances(a, side, t);
      CountRemove(a.open, f, side, t);
      CountAdd(a.removes, f, side, t);
    }
  }

  lemma AddDeliveredConserves(a: Account, f: Flow, side: Side)
    requires Conserved(a, side) && f in a.adds
    ensures Conserved(AddDelivered(a, f, side), side)
  {
    hide CountOf;
    forall t
      ensures Balances(AddDelivered(a, f, side), side, t)
    {
      assert Balances(a, side, t);
      CountRemove(a.adds, f, side, t);
    }
  }

  lemma RemoveDeliveredConserves(a: Account, f: Flow, side: Side)
    requires Conserved(a, side) && f in a.removes
    ensures Conserved(RemoveDelivered(a, f, side), side)
  {
    hide CountOf;
    forall t
      ensures Balances(RemoveDelivered(a, f, side), side, t)
    {
      assert Balances(a, side, t);
      CountRemove(a.removes, f, side, t);
    }
  }

  /** The flows of `s` were given out before the serial number `next`. */
  ghost predicate Older(s: set<Flow>, next: nat) {
    forall f :: f in s ==> f.serial < next
  }

  lemma OlderFacts(s: set<Flow>, next: nat)
    requires Older(s, next)
    ensures forall f: Flow, next': nat :: f.serial < next' && next <= next' ==> Older(s + {f}, next')
    ensures forall next': nat :: next <= next' ==> Older(s, next')
    ensures forall f: Flow :: f.serial >= next ==> f !in s
  {
  }

  function Flows(a: Account): set<Flow> {
    a.open + a.removes + a.adds
  }

  /** No flow of the account is open and about to be removed at once; what is lost was not
      applied. */
  ghost predicate AccountOk(a: Account, side: Side, next: nat) {
    && Conserved(a, side) && a.open !! a.removes && Older(Flows(a), next)
    && a.lostAdds <= a.adds && a.lostRemoves <= a.removes
  }

  lemma OpenKeepsOk(a: Account, f: Flow, side: Side, next: nat, next': nat)
    requires AccountOk(a, side, next) && f !in Flows(a) && f.serial < next' && next <= next'
    ensures AccountOk(Opened(a, f), side, next')
    ensures Flows(Opened(a, f)) == Flows(a) + {f} && Opened(a, f).open == a.open + {f}
  {
    hide Conserved, Older;
    OpenedConserves(a, f, side);
    OlderFacts(Flows(a), next);
    assert Flows(Opened(a, f)) == Flows(a) + {f};
  }

  lemma ActKeepsOk(a: Account, act: Act, f: Flow, side: Side, next: nat)
    requires AccountOk(a, side, next) && ActEnabled(a, act, f)
    ensures AccountOk(Acted(a, act, f, side), side, next)
    ensures Flows(Acted(a, act, f, side)) <= Flows(a)
    ensures Acted(a, act, f, side).open <= a.open
  {
    hide Conserved;
    match act
    case Close => ClosedConserves(a, f, side);
    case DeliverAdd => AddDeliveredConserves(a, f, side);
    case DeliverRemove => RemoveDeliveredConserves(a, f, side);
    case _ => LossConserves(a, Acted(a, act, f, side), side);
  }

  lemma LossConserves(a: Account, b: Account, side: Side)
    requires Conserved(a, side) && b == a.(lostAdds := b.lostAdds, lostRemoves := b.lostRemoves)
    ensures Conserved(b, side)
  {
    hide CountOf;
    forall t
      ensures Balances(b, side, t)
    {
      assert Balances(a, side, t);
    }
  }

  /** The hops that account `i` of the remotes may hold. */
  predicate HopOk(f: Flow, i: nat) {
    f.hop == Direct || f.hop == Through(i)
  }

  ghost predicate HopsOk(s: set<Flow>, i: nat) {
    forall f :: f in s ==> HopOk(f, i)
  }

  /** Flows go through one of `k` remotes, if through any. */
  ghost predicate InRange(s: set<Flow>, k: nat) {
    forall f :: f in s && f.hop.Through? ==> f.hop.remote < k
  }

  ghost predicate RootOk(a: Account, waiting: set<Flow>, k: nat, next: nat) {
    && AccountOk(a, Near, next)
    && waiting !! Flows(a)
    && Older(waiting, next)
    && InRange(a.open, k) && InRange(waiting, k)
  }

  ghost predicate RemoteOk(a: Account, i: nat, next: nat) {
    AccountOk(a, Far, next) && HopsOk(a.open, i)
  }

  ghost predicate RemotesOk(rs: seq<Account>, next: nat) {
    forall i :: 0 <= i < |rs| ==> RemoteOk(rs[i], i, next)
  }

  ghost predicate NetOk(n: Net) {
    RootOk(n.root, n.waiting, |n.remotes|, n.next) && RemotesOk(n.remotes, n.next)
  }

  lemma OlderOk(a: Account, side: Side, next: nat, next': nat)
    requires AccountOk(a, side, next) && next <= next'
    ensures AccountOk(a, side, next')
  {
  }

  lemma OlderRemotes(rs: seq<Account>, next: nat, next': nat)
    requires RemotesOk(rs, next) && next <= next'
    ensures RemotesOk(rs, next')
  {
    hide AccountOk, HopsOk;
    forall j | 0 <= j < |rs|
      ensures RemoteOk(rs[j], j, next')
    {
      OlderOk(rs[j], Far, next, next');
    }
  }

  /** A flow with a new serial number is opened by a remote. */
  lemma RemoteOpens(rs: seq<Account>, i: nat, f: Flow, next: nat)
    requires RemotesOk(rs, next) && i < |rs| && f.serial == next && HopOk(f, i)
    ensures RemotesOk(rs[i := Opened(rs[i], f)], next + 1)
  {
    assert RemoteOk(rs[i], i, next);
    OlderFacts(Flows(rs[i]), next);
    hide Older;
    OpenKeepsOk(rs[i], f, Far, next, next + 1);
    OlderRemotes(rs, next, next + 1);
    hide AccountOk, Opened;
  }

  /** A flow with a new serial number is opened by the root. */
  lemma RootOpens(a: Account, waiting: set<Flow>, k: nat, f: Flow, next: nat)
    requires RootOk(a, waiting, k, next) && f.serial == next
    requires f.hop.Through? ==> f.hop.remote < k
    ensures RootOk(Opened(a, f), waiting, k, next + 1)
  {
    OlderFacts(Flows(a), next);
    OlderFacts(waiting, next);
    hide Older, Conserved;
    OpenKeepsOk(a, f, Near, next, next + 1);
    hide AccountOk, Opened, Flows;
  }

  /** A flow with a new serial number waits for the root. */
  lemma RootAwaits(a: Account, waiting: set<Flow>, k: nat, f: Flow, next: nat)
    requires RootOk(a, waiting, k, next) && f.serial == next
    requires f.hop.Through? ==> f.hop.remote < k
    ensures RootOk(a, waiting + {f}, k, next + 1)
  {
    OlderFacts(Flows(a), next);
    OlderFacts(waiting, next);
    hide Older, Conserved;
    OlderOk(a, Near, next, next + 1);
    hide AccountOk, Flows;
  }

  lemma RootTakes(a: Account, waiting: set<Flow>, k: nat, f: Flow, next: nat)
    requires RootOk(a, waiting, k, next) && f in waiting
    ensures RootOk(Opened(a, f), waiting - {f}, k, next)
  {
    OpenKeepsOk(a, f, Near, next, next);
    hide AccountOk, Opened;
  }

  lemma RootActs(a: Account, waiting: set<Flow>, k: nat, act: Act, f: Flow, next: nat)
    requires RootOk(a, waiting, k, next) && ActEnabled(a, act, f)
    ensures RootOk(Acted(a, act, f, Near), waiting, k, next)
  {
    ActKeepsOk(a, act, f, Near, next);
    hide AccountOk, Acted, ActEnabled;
  }

  lemma RemoteActs(rs: seq<Account>, i: nat, act: Act, f: Flow, next: nat)
    requires RemotesOk(rs, next) && i < |rs| && ActEnabled(rs[i], act, f)
    ensures RemotesOk(rs[i := Acted(rs[i], act, f, Far)], next)
  {
    assert RemoteOk(rs[i], i, next);
    ActKeepsOk(rs[i], act, f, Far, next);
    hide AccountOk, Acted, ActEnabled;
  }

  lemma StepKeepsOk(n: Net, st: Step)
    requires NetOk(n) && Enabled(n, st)
    ensures NetOk(Do(n, st)) && |Do(n, st).remotes| == |n.remotes|
  {
    hide RootOk, RemotesOk, Opened, Acted, ActEnabled;
    var k := |n.remotes|;
    match st
    case OpenDirect(target) =>
      RootOpens(n.root, n.waiting, k, Flow(n.next, Direct, target, target), n.next);
      OlderRemotes(n.remotes, n.next, n.next + 1);
    case RelayOpen(i, near, far) =>
      RootAwaits(n.root, n.waiting, k, Flow(n.next, Through(i), near, far), n.next);
      RemoteOpens(n.remotes, i, Flow(n.next, Through(i), near, far), n.next);
    case NearOpen(f) => RootTakes(n.root, n.waiting, k, f, n.next);
    case ForeignOpen(i, target) =>
      OlderRoot(n.root, n.waiting, k, n.next);
      RemoteOpens(n.remotes, i, Flow(n.next, Direct, target, target), n.next);
    case AtRoot(act, f) => RootActs(n.root, n.waiting, k, act, f, n.next);
    case AtRemote(i, act, f) => RemoteActs(n.remotes, i, act, f, n.next);
  }

  lemma OlderRoot(a: Account, waiting: set<Flow>, k: nat, next: nat)
    requires RootOk(a, waiting, k, next)
    ensures RootOk(a, waiting, k, next + 1)
  {
    OlderOk(a, Near, next, next + 1);
    hide AccountOk;
  }

  lemma StartOk(k: nat)
    ensures NetOk(Start(k))
  {
    forall side
      ensures Conserved(EMPTY, side)
    {
      forall t
        ensures Balances(EMPTY, side, t)
      {
        assert Only({}, side, t) == {};
      }
    }
  }

  lemma {:induction false} RunKeepsOk(k: nat, sts: seq<Step>)
    ensures var n := Run(Start(k), sts);
      n.Some? ==> NetOk(n.value) && |n.value.remotes| == k
  {
    hide NetOk, Enabled, Do;
    if sts == [] {
      StartOk(k);
    } else {
      var m := Run(Start(k), sts[..|sts| - 1]);
      RunKeepsOk(k, sts[..|sts| - 1]);
      if m.Some? && Enabled(m.value, sts[|sts| - 1]) {
        StepKeepsOk(m.value, sts[|sts| - 1]);
      }
    }
  }

  /** In every reachable state, whatever overtook what or got lost: per node and target, the
      table plus the additions in flight or lost, less the removals in flight or lost, is what
      is open plus the removals that failed; and so for the workloads. */
  lemma Conservation(k: nat, sts: seq<Step>, n: Net)
    requires Run(Start(k), sts) == Some(n)
    ensures Conserved(n.root, Near) && |n.remotes| == k
    ensures forall i :: 0 <= i < |n.remotes| ==> Conserved(n.remotes[i], Far)
  {
    RunKeepsOk(k, sts);
    forall i | 0 <= i < |n.remotes|
      ensures Conserved(n.remotes[i], Far)
    {
      RemoteAccountOk(n, i);
    }
  }

  // ----- Without overtaking no removal fails -----

  /** The step does not deliver the removal of a flow ahead of its addition, or without it. */
  predicate InOrder(n: Net, st: Step) {
    match st
    case AtRoot(DeliverRemove, f) => f !in n.root.adds
    case AtRemote(i, DeliverRemove, f) => i < |n.remotes| ==> f !in n.remotes[i].adds
    case _ => true
  }

  ghost predicate RunInOrder(k: nat, sts: seq<Step>) {
    forall j :: 0 <= j < |sts| ==>
      var n := Run(Start(k), sts[..j]); n.Some? ==> InOrder(n.value, sts[j])
  }

  ghost predicate Clean(a: Account) {
    a.failed == multiset{} && a.adds <= a.open + a.removes
  }

  ghost predicate RemotesClean(rs: seq<Account>) {
    forall i :: 0 <= i < |rs| ==> Clean(rs[i])
  }

  ghost predicate NetClean(n: Net) {
    Clean(n.root) && RemotesClean(n.remotes)
  }

  /** The removal of a flow whose addition was delivered finds its target in the table. */
  lemma RemoveFinds(a: Account, f: Flow, side: Side)
    requires Conserved(a, side) && Clean(a) && a.open !! a.removes
    requires f in a.removes && f !in a.adds
    ensures TargetAt(f, side) in a.table
  {
    var t := TargetAt(f, side);
    assert Balances(a, side, t);
    var o, r, ad := Only(a.open, side, t), Only(a.removes, side, t), Only(a.adds, side, t);
    assert |o + r| == |o| + |r|;
    SubsetSize(ad, o + r - {f});
  }

  lemma {:induction false} SubsetSize<A>(a: set<A>, b: set<A>)
    requires a <= b
    ensures |a| <= |b|
  {
    assert b == a + (b - a);
  }

  lemma OpenKeepsClean(a: Account, f: Flow)
    requires Clean(a)
    ensures Clean(Opened(a, f))
  {
  }

  lemma ActKeepsClean(a: Account, act: Act, f: Flow, side: Side, next: nat)
    requires Clean(a) && AccountOk(a, side, next) && ActEnabled(a, act, f)
    requires act == DeliverRemove ==> f !in a.adds
    ensures Clean(Acted(a, act, f, side))
  {
    if act == DeliverRemove {
      RemoveFinds(a, f, side);
    }
  }

  lemma RemoteAccountOk(n: Net, i: nat)
    requires NetOk(n) && i < |n.remotes|
    ensures AccountOk(n.remotes[i], Far, n.next) && HopsOk(n.remotes[i].open, i)
  {
    assert RemoteOk(n.remotes[i], i, n.next);
  }

  lemma RemoteKeepsClean(rs: seq<Account>, i: nat, a: Account)
    requires RemotesClean(rs) && i < |rs|
    ensures Clean(rs[i])
    ensures Clean(a) ==> RemotesClean(rs[i := a])
  {
  }

  lemma StepKeepsClean(n: Net, st: Step)
    requires NetOk(n) && NetClean(n) && Enabled(n, st) && InOrder(n, st)
    ensures NetClean(Do(n, st))
  {
    assert AccountOk(n.root, Near, n.next);
    hide NetOk, AccountOk, Clean, RemotesClean, Acted, Opened, ActEnabled;
    match st
    case OpenDirect(target) => OpenKeepsClean(n.root, Flow(n.next, Direct, target, target));
    case RelayOpen(i, near, far) =>
      var f := Flow(n.next, Through(i), near, far);
      RemoteKeepsClean(n.remotes, i, Opened(n.remotes[i], f));
      OpenKeepsClean(n.remotes[i], f);
    case ForeignOpen(i, target) =>
      var f := Flow(n.next, Direct, target, target);
      RemoteKeepsClean(n.remotes, i, Opened(n.remotes[i], f));
      OpenKeepsClean(n.remotes[i], f);
    case NearOpen(f) => OpenKeepsClean(n.root, f);
    case AtRoot(act, f) => ActKeepsClean(n.root, act, f, Near, n.next);
    case AtRemote(i, act, f) =>
      RemoteAccountOk(n, i);
      RemoteKeepsClean(n.remotes, i, Acted(n.remotes[i], act, f, Far));
      ActKeepsClean(n.remotes[i], act, f, Far, n.next);
  }

  /** In a run in which no removal overtakes its own addition, no removal ever fails. */
  lemma {:induction false} NoOvertakingNoFailure(k: nat, sts: seq<Step>, n: Net)
    requires Run(Start(k), sts) == Some(n) && RunInOrder(k, sts)
    ensures NetClean(n)
  {
    hide NetOk, NetClean, Do, Enabled, InOrder;
    if sts == [] {
      StartClean(k);
    } else {
      var init, st := sts[..|sts| - 1], sts[|sts| - 1];
      var m := Run(Start(k), init).value;
      assert forall j :: 0 <= j < |init| ==> init[..j] == sts[..j];
      NoOvertakingNoFailure(k, init, m);
      RunKeepsOk(k, init);
      StepKeepsClean(m, st);
    }
  }

  lemma StartClean(k: nat)
    ensures NetClean(Start(k))
  {
  }

  // ----- What the balancer takes for the root's own load -----

  /** The root's view of the network: every remote is active. */
  function SnapshotOf(n: Net): Snapshot {
    Snapshot(View(NodeId(""), true, |n.root.table|), ViewsOf(n.remotes))
  }

  function ViewsOf(rs: seq<Account>): (vs: seq<View>)
    ensures |vs| == |rs|
  {
    seq(|rs|, i requires 0 <= i < |rs| => View(NodeId(""), true, |rs[i].table|))
  }

  lemma SeenLoads(n: Net)
    ensures Load(SnapshotOf(n), Root) == |n.root.table| - TotalLoad(ViewsOf(n.remotes))
    ensures forall i :: 0 <= i < |n.remotes| ==> Load(SnapshotOf(n), Remote(i)) == |n.remotes[i].table|
  {
  }

  /** The flows of `s` that leave by `hop`. */
  function Via(s: set<Flow>, hop: Hop): set<Flow> {
    set f | f in s && f.hop == hop
  }

  function ViaRemotes(s: set<Flow>, k: nat): nat {
    if k == 0 then 0 else ViaRemotes(s, k - 1) + |Via(s, Through(k - 1))|
  }

  /** Flows are direct or through one of the remotes. */
  lemma {:induction false} Partition(s: set<Flow>, k: nat)
    requires InRange(s, k)
    ensures |s| == |Via(s, Direct)| + ViaRemotes(s, k)
  {
    hide Via, InRange;
    if k == 0 {
      AllDirect(s);
    } else {
      LastRemote(s, k);
      var others := s - Via(s, Through(k - 1));
      Partition(others, k - 1);
      SameRemotes(s, others, k - 1);
    }
  }

  lemma AllDirect(s: set<Flow>)
    requires InRange(s, 0)
    ensures Via(s, Direct) == s
  {
  }

  /** Without the last remote's flows the other hops have what they had. */
  lemma LastRemote(s: set<Flow>, k: nat)
    requires InRange(s, k) && k > 0
    ensures var last := Via(s, Through(k - 1));
            var others := s - last;
            && InRange(others, k - 1) && |s| == |others| + |last|
            && Via(others, Direct) == Via(s, Direct)
            && forall i :: 0 <= i < k - 1 ==> Via(s, Through(i)) == Via(others, Through(i))
  {
    WithoutVia(s, Through(k - 1));
  }

  lemma WithoutVia(s: set<Flow>, hop: Hop)
    ensures |s| == |s - Via(s, hop)| + |Via(s, hop)|
    ensures forall h :: h != hop ==> Via(s - Via(s, hop), h) == Via(s, h)
  {
    assert s == (s - Via(s, hop)) + Via(s, hop);
    forall h | h != hop
      ensures Via(s - Via(s, hop), h) == Via(s, h)
    {
    }
  }

  lemma {:induction false} SameRemotes(s: set<Flow>, s': set<Flow>, k: nat)
    requires forall i :: 0 <= i < k ==> Via(s, Through(i)) == Via(s', Through(i))
    ensures ViaRemotes(s, k) == ViaRemotes(s', k)
  {
    if k > 0 {
      SameRemotes(s, s', k - 1);
    }
  }

  /** Nothing is in flight any more, and the two ends of a relayed stream agree that it is
      open. Some updates may have got lost. */
  ghost predicate Drained(n: Net) {
    && n.waiting == {} && Settled(n.root)
    && forall i :: 0 <= i < |n.remotes| ==>
      && Settled(n.remotes[i])
      && Via(n.remotes[i].open, Through(i)) == Via(n.root.open, Through(i))
  }

  ghost predicate Settled(a: Account) {
    a.adds == a.lostAdds && a.removes == a.lostRemoves
  }

  /** By how much the lost updates leave the table too large. */
  function Astray(a: Account): int {
    |a.lostRemoves| - |a.lostAdds|
  }

  /** What the remotes count beyond the root's streams: tunnels they serve for others, and
      tunnels that are gone but were never taken off the table, or the other way round. */
  function Excess(rs: seq<Account>): int {
    if rs == [] then 0
    else
      var a := rs[|rs| - 1];
      Excess(rs[..|rs| - 1]) + |Via(a.open, Direct)| + |a.failed| + Astray(a)
  }

  lemma TwoHops(s: set<Flow>, i: nat)
    requires HopsOk(s, i)
    ensures |s| == |Via(s, Through(i))| + |Via(s, Direct)|
  {
    assert s == Via(s, Through(i)) + Via(s, Direct);
  }

  lemma RemoteTotal(n: Net, i: nat)
    requires NetOk(n) && Drained(n) && i < |n.remotes|
    ensures var a := n.remotes[i];
      |a.table| == |Via(n.root.open, Through(i))| + |Via(a.open, Direct)| + |a.failed| + Astray(a)
  {
    hide Via;
    RemoteAccountOk(n, i);
    TwoHops(n.remotes[i].open, i);
  }

  lemma RootTotal(n: Net)
    requires NetOk(n)
    ensures |n.root.table| + |n.root.adds| ==
      |n.root.removes| + |n.root.failed| + |Via(n.root.open, Direct)| + ViaRemotes(n.root.open, |n.remotes|)
  {
    Partition(n.root.open, |n.remotes|);
  }

  lemma {:induction false} RemoteTotals(n: Net, j: nat)
    requires NetOk(n) && Drained(n) && j <= |n.remotes|
    ensures TotalLoad(ViewsOf(n.remotes[..j])) ==
      ViaRemotes(n.root.open, j) + Excess(n.remotes[..j])
  {
    hide NetOk, Drained, Via;
    if j > 0 {
      RemoteTotals(n, j - 1);
      assert n.remotes[..j][..j - 1] == n.remotes[..j - 1];
      assert ViewsOf(n.remotes[..j])[..j - 1] == ViewsOf(n.remotes[..j - 1]);
      RemoteTotal(n, j - 1);
    }
  }

  /** Once the queues have drained, the load the balancer computes for the root is the number
      of its direct tunnels, up to removals that failed, updates that got lost, and tunnels that
      the remotes serve for others. */
  lemma DrainedLoad(k: nat, sts: seq<Step>, n: Net)
    requires Run(Start(k), sts) == Some(n) && Drained(n)
    ensures Load(SnapshotOf(n), Root) ==
      |Via(n.root.open, Direct)| + |n.root.failed| + Astray(n.root) - Excess(n.remotes)
  {
    RunKeepsOk(k, sts);
    hide Run, NetOk, SnapshotOf, ViewsOf, Load, TotalLoad, ViaRemotes, Via, Excess;
    SeenLoads(n);
    RootTotal(n);
    RemoteTotals(n, k);
    assert n.remotes[..k] == n.remotes;
  }

  /** What is lost at the remotes, and what they serve for others. */
  function AstrayRemotes(rs: seq<Account>): int {
    if rs == [] then 0 else AstrayRemotes(rs[..|rs| - 1]) + Astray(rs[|rs| - 1])
  }

  function Foreign(rs: seq<Account>): nat {
    if rs == [] then 0 else Foreign(rs[..|rs| - 1]) + |Via(rs[|rs| - 1].open, Direct)|
  }

  lemma {:induction false} CleanExcess(rs: seq<Account>)
    requires forall i :: 0 <= i < |rs| ==> rs[i].failed == multiset{}
    ensures Excess(rs) == Foreign(rs) + AstrayRemotes(rs)
    ensures Foreign(rs) == 0 <==> forall i :: 0 <= i < |rs| ==> Via(rs[i].open, Direct) == {}
  {
    if rs != [] {
      var init, a := rs[..|rs| - 1], rs[|rs| - 1];
      CleanExcess(init);
      assert forall i :: 0 <= i < |init| ==> rs[i] == init[i];
    }
  }

  /** Without overtaking, the computed load differs from the number of direct tunnels by what
      got lost and by what the remotes serve for others: it is exact if and only if these
      cancel out. If the losses do, in particular if there are none, it is exact if and only if
      the remotes serve nobody else, and it is never negative then. */
  lemma DrainedLoadIsDirect(k: nat, sts: seq<Step>, n: Net)
    requires Run(Start(k), sts) == Some(n) && Drained(n) && RunInOrder(k, sts)
    ensures Load(SnapshotOf(n), Root) == |Via(n.root.open, Direct)| <==>
      Astray(n.root) == AstrayRemotes(n.remotes) + Foreign(n.remotes)
    ensures Astray(n.root) == AstrayRemotes(n.remotes) ==>
      (Load(SnapshotOf(n), Root) == |Via(n.root.open, Direct)| <==>
        forall i :: 0 <= i < |n.remotes| ==> Via(n.remotes[i].open, Direct) == {})
  {
    RunKeepsOk(k, sts);
    NoOvertakingNoFailure(k, sts, n);
    DrainedLoad(k, sts, n);
    CleanExcess(n.remotes);
  }

  /** After a single lost removal the computed load of the root is too large for good. */
  lemma LostRemovalCounts(target: Target) returns (sts: seq<Step>)
    ensures var n := Run(Start(0), sts);
      n.Some? && Drained(n.value) && RunInOrder(0, sts)
      && n.value.root.open == {} && Load(SnapshotOf(n.value), Root) == 1
  {
    var f := Flow(0, Direct, target, target);
    var acts := [AtRoot(DeliverAdd, f), AtRoot(Close, f), AtRoot(LoseRemove, f)];
    var s0 := Start(0);
    var s1 := Do(s0, OpenDirect(target));
    var s2 := Do(s1, acts[0]);
    var s3 := Do(s2, acts[1]);
    var s4 := Do(s3, acts[2]);
    sts := [OpenDirect(target)] + acts;
    assert sts[..0] == [] && sts[..1] == [OpenDirect(target)] && sts[..4] == sts;
    assert sts[..2][..1] == sts[..1] && sts[..3][..2] == sts[..2] && sts[..4][..3] == sts[..3];
    assert sts[..1][..0] == [];
    assert Run(s0, sts[..1]) == Some(s1);
    assert Run(s0, sts[..2]) == Some(s2);
    assert Run(s0, sts[..3]) == Some(s3);
    assert Run(s0, sts[..4]) == Some(s4);
  }
}
