/** What the greedy choice of the balancer guarantees while tunnels are only opened
    (node/dispatcher.go). A dispatch opens its tunnel where the balancer says; its updates
    reach the tables later. */
module Balance {
  import opened Streams
  import opened Nodes
  import opened Dispatch
  import opened Accounting

  datatype Event =
    | Dispatched(pick: Pick, near: Target, far: Target)
    | Applied(st: Step)

  /** The true load of a pick: its open tunnels, as opposed to those in the tables. */
  function TrueLoad(n: Net, p: Pick): nat {
    |Via(n.root.open, if p == Root then Direct else Through(p.index))|
  }

  /** The dispatches of which some update has not been applied yet. */
  function Unapplied(n: Net): set<Flow> {
    set f | f in n.root.open &&
      (f in n.root.adds ||
       (f.hop.Through? && f.hop.remote < |n.remotes| && f in n.remotes[f.hop.remote].adds))
  }

  /** A dispatch goes to the balanced choice while at most `lag` dispatches are unapplied;
      an application delivers one addition, or loses it: then it stays unapplied. */
  ghost predicate Happens(n: Net, e: Event, lag: nat) {
    match e
    case Dispatched(p, _, _) => Balanced(SnapshotOf(n), [], p) && |Unapplied(n)| <= lag
    case Applied(st) => (st.AtRoot? || st.AtRemote?) && Applies(st.act) && Enabled(n, st)
  }

  predicate Applies(act: Act) {
    act == DeliverAdd || act == LoseAdd
  }

  function After(n: Net, e: Event): Net
    requires e.Applied? ==> Enabled(n, e.st)
    requires e.Dispatched? ==> Offered(SnapshotOf(n), e.pick)
  {
    match e
    case Applied(st) => Do(n, st)
    case Dispatched(Root, near, _) => Do(n, OpenDirect(near))
    case Dispatched(Remote(i), near, far) =>
      Do(Do(n, RelayOpen(i, near, far)), NearOpen(Flow(n.next, Through(i), near, far)))
  }

  ghost function Play(k: nat, es: seq<Event>, lag: nat): Option<Net> {
    if es == [] then Some(Start(k))
    else
      var n := Play(k, es[..|es| - 1], lag);
      if n.Some? && Happens(n.value, es[|es| - 1], lag) then Some(After(n.value, es[|es| - 1]))
      else None
  }

  predicate PickOk(n: Net, p: Pick) { p == Root || p.index < |n.remotes| }

  /** An account that only ever opened the flows `s`. */
  ghost predicate Holds(a: Account, s: set<Flow>) {
    a.removes == {} && a.failed == multiset{} && a.adds <= a.open && a.open == s
  }

  /** Only additions: what is open was never closed, and both ends agree. */
  ghost predicate Growing(n: Net) {
    && NetOk(n)
    && n.waiting == {}
    && Holds(n.root, n.root.open)
    && forall i :: 0 <= i < |n.remotes| ==> Holds(n.remotes[i], Via(n.root.open, Through(i)))
  }

  ghost predicate Level(n: Net, spread: nat) {
    forall p, q :: PickOk(n, p) && PickOk(n, q) ==> TrueLoad(n, p) <= TrueLoad(n, q) + spread
  }

  // ----- What the balancer sees -----

  function Pending(rs: seq<Account>): nat {
    if rs == [] then 0 else Pending(rs[..|rs| - 1]) + |rs[|rs| - 1].adds|
  }

  lemma RemoteSeen(n: Net, i: nat)
    requires Growing(n) && i < |n.remotes|
    ensures |n.remotes[i].table| + |n.remotes[i].adds| == |Via(n.root.open, Through(i))|
  {
    RemoteAccountOk(n, i);
  }

  lemma {:induction false} SeenTotals(n: Net, j: nat)
    requires Growing(n) && j <= |n.remotes|
    ensures TotalLoad(ViewsOf(n.remotes[..j])) + Pending(n.remotes[..j]) ==
      ViaRemotes(n.root.open, j)
  {
    hide Growing, Via;
    if j > 0 {
      SeenTotals(n, j - 1);
      assert n.remotes[..j][..j - 1] == n.remotes[..j - 1];
      assert ViewsOf(n.remotes[..j])[..j - 1] == ViewsOf(n.remotes[..j - 1]);
      RemoteSeen(n, j - 1);
    }
  }

  lemma GrowingRoot(n: Net)
    requires Growing(n)
    ensures |n.root.table| + |n.root.adds| ==
      |Via(n.root.open, Direct)| + ViaRemotes(n.root.open, |n.remotes|)
  {
    hide Via, ViaRemotes, RootOk, RemotesOk;
    RootTotal(n);
  }

  /** The load seen of the root is short of its own pending additions and includes those of
      the remotes. */
  lemma SeenRoot(n: Net)
    requires Growing(n)
    ensures Load(SnapshotOf(n), Root) == TrueLoad(n, Root) - |n.root.adds| + Pending(n.remotes)
  {
    hide Growing, Via, ViaRemotes, Pending, SnapshotOf, ViewsOf, Load, TotalLoad;
    GrowingRoot(n);
    SeenTotals(n, |n.remotes|);
    assert n.remotes[..|n.remotes|] == n.remotes;
    SeenLoads(n);
  }

  /** The load seen of a remote is short of its pending additions. */
  lemma SeenRemote(n: Net, i: nat)
    requires Growing(n) && i < |n.remotes|
    ensures Load(SnapshotOf(n), Remote(i)) == TrueLoad(n, Remote(i)) - |n.remotes[i].adds|
  {
    hide Growing, Via, SnapshotOf, Load;
    RemoteSeen(n, i);
    SeenLoads(n);
  }

  lemma AddsUnapplied(n: Net, i: nat)
    requires Growing(n) && i < |n.remotes|
    ensures |n.remotes[i].adds| <= |Via(Unapplied(n), Through(i))|
  {
    hide NetOk;
    var adds := n.remotes[i].adds;
    assert Holds(n.remotes[i], Via(n.root.open, Through(i)));
    assert adds <= Via(Unapplied(n), Through(i));
    SubsetSize(adds, Via(Unapplied(n), Through(i)));
  }

  lemma {:induction false} PendingBelow(n: Net, j: nat)
    requires Growing(n) && j <= |n.remotes|
    ensures Pending(n.remotes[..j]) <= ViaRemotes(Unapplied(n), j)
    ensures forall i :: 0 <= i < j ==> |n.remotes[i].adds| <= Pending(n.remotes[..j])
  {
    hide Growing, Via, Unapplied;
    if j > 0 {
      PendingBelow(n, j - 1);
      assert n.remotes[..j][..j - 1] == n.remotes[..j - 1];
      AddsUnapplied(n, j - 1);
    }
  }

  lemma UnappliedInRange(n: Net)
    requires Growing(n)
    ensures InRange(Unapplied(n), |n.remotes|)
    ensures n.root.adds <= Unapplied(n)
  {
    HopsInRange(n);
  }

  /** The unapplied dispatches bound every error in what the balancer sees. */
  lemma ErrorsBounded(n: Net)
    requires Growing(n)
    ensures |n.root.adds| <= |Unapplied(n)|
    ensures Pending(n.remotes) <= |Unapplied(n)|
    ensures forall i :: 0 <= i < |n.remotes| ==> |n.remotes[i].adds| <= Pending(n.remotes)
  {
    UnappliedInRange(n);
    hide Growing, Unapplied, Via, ViaRemotes, Pending;
    SubsetSize(n.root.adds, Unapplied(n));
    PendingBelow(n, |n.remotes|);
    assert n.remotes[..|n.remotes|] == n.remotes;
    Partition(Unapplied(n), |n.remotes|);
  }

  lemma SeenWithin(n: Net, p: Pick, lag: nat)
    requires Growing(n) && |Unapplied(n)| <= lag && PickOk(n, p)
    ensures p == Root ==>
      TrueLoad(n, p) - lag + Pending(n.remotes) <= Load(SnapshotOf(n), p) <= TrueLoad(n, p) + lag
    ensures p.Remote? ==>
      TrueLoad(n, p) - Pending(n.remotes) <= Load(SnapshotOf(n), p) <= TrueLoad(n, p)
    ensures Pending(n.remotes) <= lag
  {
    hide Growing, TrueLoad, Unapplied, Pending, SnapshotOf, Load;
    ErrorsBounded(n);
    if p == Root {
      SeenRoot(n);
    } else {
      SeenRemote(n, p.index);
    }
  }

  /** The balanced choice is, in true load, at most twice the lag above any other. */
  lemma ChoiceIsLow(n: Net, p: Pick, q: Pick, lag: nat)
    requires Growing(n) && Balanced(SnapshotOf(n), [], p) && |Unapplied(n)| <= lag && PickOk(n, q)
    ensures TrueLoad(n, p) <= TrueLoad(n, q) + 2 * lag
  {
    hide Load, Growing, TrueLoad, Unapplied, Pending;
    assert Eligible(SnapshotOf(n), [], q);
    assert Before(SnapshotOf(n), p, q) && PickOk(n, p);
    hide Balanced, Eligible, Offered, SnapshotOf;
    SeenWithin(n, p, lag);
    SeenWithin(n, q, lag);
  }

  // ----- Every run -----

  lemma NearOpens(s: set<Flow>, f: Flow)
    requires f !in s
    ensures forall hop :: Via(s + {f}, hop) == if f.hop == hop then Via(s, hop) + {f} else Via(s, hop)
    ensures forall hop :: f !in Via(s, hop)
  {
  }

  lemma OpenedHolds(a: Account, s: set<Flow>, f: Flow)
    requires Holds(a, s)
    ensures Holds(Opened(a, f), s + {f})
  {
  }

  lemma DispatchDirect(n: Net, target: Target)
    requires Growing(n)
    ensures Growing(Do(n, OpenDirect(target)))
  {
    var f := Flow(n.next, Direct, target, target);
    StepKeepsOk(n, OpenDirect(target));
    FreshFlow(n, f);
    hide NetOk, Via;
    NearOpens(n.root.open, f);
    OpenedHolds(n.root, n.root.open, f);
  }

  /** The two steps of a dispatch through remote `i`. */
  lemma RelayedOk(n: Net, i: nat, near: Target, far: Target)
    requires NetOk(n) && i < |n.remotes|
    ensures var f := Flow(n.next, Through(i), near, far);
      var n' := Do(Do(n, RelayOpen(i, near, far)), NearOpen(f));
      && NetOk(n')
      && n' == n.(root := Opened(n.root, f), remotes := n.remotes[i := Opened(n.remotes[i], f)],
                  next := n.next + 1)
  {
    var f := Flow(n.next, Through(i), near, far);
    var m := Do(n, RelayOpen(i, near, far));
    StepKeepsOk(n, RelayOpen(i, near, far));
    StepKeepsOk(m, NearOpen(f));
    assert f !in n.waiting;
    assert m.waiting - {f} == n.waiting;
  }

  lemma DispatchThrough(n: Net, i: nat, near: Target, far: Target)
    requires Growing(n) && i < |n.remotes|
    ensures var f := Flow(n.next, Through(i), near, far);
      Growing(Do(Do(n, RelayOpen(i, near, far)), NearOpen(f)))
  {
    hide NetOk, Via, Do, Holds;
    var f := Flow(n.next, Through(i), near, far);
    RelayedOk(n, i, near, far);
    FreshFlow(n, f);
    NearOpens(n.root.open, f);
    OpenedHolds(n.root, n.root.open, f);
    OpenedHolds(n.remotes[i], Via(n.root.open, Through(i)), f);
  }

  /** A dispatch adds one to the load of its pick and changes no other. */
  lemma DispatchGrows(n: Net, e: Event)
    requires Growing(n) && e.Dispatched? && Offered(SnapshotOf(n), e.pick)
    ensures Growing(After(n, e)) && |After(n, e).remotes| == |n.remotes|
    ensures |After(n, e).root.open| == |n.root.open| + 1
    ensures forall p :: PickOk(n, p) ==>
      TrueLoad(After(n, e), p) == TrueLoad(n, p) + if p == e.pick then 1 else 0
  {
    hide Growing, NetOk;
    var hop := if e.pick == Root then Direct else Through(e.pick.index);
    var f := if e.pick == Root then Flow(n.next, hop, e.near, e.near) else Flow(n.next, hop, e.near, e.far);
    if e.pick == Root {
      DispatchDirect(n, e.near);
    } else {
      DispatchThrough(n, e.pick.index, e.near, e.far);
    }
    GrowingOk(n);
    FreshFlow(n, f);
    assert After(n, e).root.open == n.root.open + {f};
    NearOpens(n.root.open, f);
  }

  lemma GrowingOk(n: Net)
    requires Growing(n)
    ensures NetOk(n)
  {
  }

  lemma FreshFlow(n: Net, f: Flow)
    requires NetOk(n) && f.serial >= n.next
    ensures f !in n.root.open
  {
  }

  lemma ApplyGrows(n: Net, e: Event)
    requires Growing(n) && e.Applied? && (e.st.AtRoot? || e.st.AtRemote?)
    requires Applies(e.st.act) && Enabled(n, e.st)
    ensures Growing(After(n, e)) && |After(n, e).remotes| == |n.remotes|
    ensures After(n, e).root.open == n.root.open
  {
    hide AccountOk;
    StepKeepsOk(n, e.st);
  }

  lemma StartGrowing(k: nat)
    ensures Growing(Start(k)) && Level(Start(k), 0)
  {
    StartOk(k);
  }

  /** In every run the loads stay within twice the lag plus one of each other, and after `d`
      dispatches `d` tunnels are open. */
  lemma {:induction false} BalanceBound(k: nat, es: seq<Event>, lag: nat)
    requires Play(k, es, lag).Some?
    ensures var n := Play(k, es, lag).value;
      Growing(n) && |n.remotes| == k && Level(n, 2 * lag + 1)
    ensures |Play(k, es, lag).value.root.open| == Dispatches(es)
  {
    hide Growing, TrueLoad, Happens, After;
    if es == [] {
      StartGrowing(k);
    } else {
      var init, e := es[..|es| - 1], es[|es| - 1];
      var m := Play(k, init, lag).value;
      BalanceBound(k, init, lag);
      EventKeepsLevel(m, e, lag);
    }
  }

  function Dispatches(es: seq<Event>): nat {
    if es == [] then 0
    else Dispatches(es[..|es| - 1]) + if es[|es| - 1].Dispatched? then 1 else 0
  }

  lemma EventKeepsLevel(n: Net, e: Event, lag: nat)
    requires Growing(n) && Level(n, 2 * lag + 1) && Happens(n, e, lag)
    ensures Growing(After(n, e)) && |After(n, e).remotes| == |n.remotes|
    ensures Level(After(n, e), 2 * lag + 1)
    ensures |After(n, e).root.open| == |n.root.open| + if e.Dispatched? then 1 else 0
  {
    hide Growing;
    var n' := After(n, e);
    if e.Applied? {
      ApplyGrows(n, e);
      forall p, q | PickOk(n', p) && PickOk(n', q)
        ensures TrueLoad(n', p) <= TrueLoad(n', q) + (2 * lag + 1)
      {
        assert TrueLoad(n', p) == TrueLoad(n, p) && TrueLoad(n', q) == TrueLoad(n, q);
      }
    } else {
      DispatchGrows(n, e);
      forall p, q | PickOk(n', p) && PickOk(n', q)
        ensures TrueLoad(n', p) <= TrueLoad(n', q) + (2 * lag + 1)
      {
        if p == e.pick {
          ChoiceIsLow(n, p, q, lag);
        }
      }
    }
  }

  // ----- Without lag -----

  lemma {:induction false} RemotesAtLeast(n: Net, j: nat, low: int)
    requires j <= |n.remotes| && forall p :: PickOk(n, p) ==> TrueLoad(n, p) >= low
    ensures ViaRemotes(n.root.open, j) >= j * low
    ensures forall i :: 0 <= i < j && TrueLoad(n, Remote(i)) > low ==>
      ViaRemotes(n.root.open, j) > j * low
  {
    if j > 0 {
      RemotesAtLeast(n, j - 1, low);
      assert TrueLoad(n, Remote(j - 1)) == |Via(n.root.open, Through(j - 1))|;
      assert j * low == (j - 1) * low + low;
    }
  }

  lemma RootLoad(n: Net)
    ensures TrueLoad(n, Root) == |Via(n.root.open, Direct)|
  {
  }

  lemma HopsInRange(n: Net)
    requires Growing(n)
    ensures InRange(n.root.open, |n.remotes|)
  {
  }

  /** If no load is more than one below that of `p`, enough tunnels are open. */
  lemma LevelNeedsMany(n: Net, p: Pick)
    requires Growing(n) && Level(n, 1) && PickOk(n, p)
    ensures |n.root.open| >= (|n.remotes| + 1) * (TrueLoad(n, p) - 1) + 1
  {
    hide NetOk;
    var k, m: int := |n.remotes|, TrueLoad(n, p);
    assert forall q :: PickOk(n, q) ==> TrueLoad(n, q) >= m - 1;
    HopsInRange(n);
    Partition(n.root.open, k);
    RootLoad(n);
    hide Growing, TrueLoad, Via, Level;
    RemotesAtLeast(n, k, m - 1);
    if p.Remote? {
      assert TrueLoad(n, Remote(p.index)) > m - 1;
    }
    assert PickOk(n, Root);
    assert (k + 1) * (m - 1) == k * (m - 1) + (m - 1);
  }

  /** When every update is applied before the next dispatch, loads differ by at most one, and
      after `d` dispatches none exceeds `d / (k + 1)` rounded up. */
  lemma PerfectBalance(k: nat, es: seq<Event>, p: Pick)
    requires Play(k, es, 0).Some? && PickOk(Play(k, es, 0).value, p)
    ensures Level(Play(k, es, 0).value, 1)
    ensures TrueLoad(Play(k, es, 0).value, p) <= (Dispatches(es) + k) / (k + 1)
  {
    hide Play, TrueLoad, Growing, Level;
    BalanceBound(k, es, 0);
    var n := Play(k, es, 0).value;
    LevelNeedsMany(n, p);
    RoundUp(Dispatches(es), k + 1, TrueLoad(n, p));
  }

  lemma MulMonotonic(c: nat, a: int, b: int)
    requires a <= b
    ensures c * a <= c * b
  {
  }

  lemma RoundUp(d: nat, parts: nat, m: nat)
    requires parts > 0 && d >= parts * (m - 1) + 1
    ensures m <= (d + parts - 1) / parts
  {
    var q := (d + parts - 1) / parts;
    assert d + parts - 1 < parts * (q + 1);
    assert d + parts - 1 >= parts * m;
    if q + 1 <= m {
      MulMonotonic(parts, q + 1, m);
      assert false;
    }
  }

  /** A lost addition is never applied: its dispatch counts into the lag for good. */
  lemma LossStaysUnapplied(n: Net, f: Flow, lag: nat)
    requires Growing(n) && f in n.root.adds && f !in n.root.lostAdds
    ensures var e := Applied(AtRoot(LoseAdd, f));
      && Happens(n, e, lag) && Growing(After(n, e))
      && Unapplied(After(n, e)) == Unapplied(n) && f in Unapplied(n)
      && !Enabled(After(n, e), AtRoot(DeliverAdd, f))
  {
    ApplyGrows(n, Applied(AtRoot(LoseAdd, f)));
    hide NetOk;
  }

  // ----- The bound is attained -----

  lemma PlayOn(k: nat, es: seq<Event>, lag: nat, e: Event)
    requires Play(k, es, lag).Some? && Happens(Play(k, es, lag).value, e, lag)
    ensures Play(k, es + [e], lag) == Some(After(Play(k, es, lag).value, e))
  {
    assert (es + [e])[..|es|] == es;
  }

  function Min(a: nat, b: nat): nat { if a < b then a else b }

  /** One remote holds `a` tunnels, the root none; the root's updates are all applied and the
      remote's lag as far behind as allowed. */
  ghost predicate Lopsided(n: Net, a: nat, lag: nat) {
    && Growing(n) && |n.remotes| == 1
    && TrueLoad(n, Root) == 0 && TrueLoad(n, Remote(0)) == a
    && n.root.adds == {} && |n.remotes[0].adds| == Min(a, lag)
    && NoLoss(n)
  }

  predicate NoLoss(n: Net) {
    n.root.lostAdds == {} && forall i :: 0 <= i < |n.remotes| ==> n.remotes[i].lostAdds == {}
  }

  lemma PendingOfOne(rs: seq<Account>)
    requires |rs| == 1
    ensures Pending(rs) == |rs[0].adds|
  {
    assert rs[..0] == [];
  }

  /** What the balancer sees there: the remote no more loaded than the root. */
  lemma LopsidedSeen(n: Net, a: nat, lag: nat)
    requires Lopsided(n, a, lag) && a <= 2 * lag
    ensures Load(SnapshotOf(n), Remote(0)) <= Load(SnapshotOf(n), Root)
  {
    SeenRoot(n);
    SeenRemote(n, 0);
    hide Growing, TrueLoad, Pending, SnapshotOf, Load;
    PendingOfOne(n.remotes);
  }

  lemma LopsidedChoice(n: Net, a: nat, lag: nat, near: Target, far: Target)
    requires Lopsided(n, a, lag) && a <= 2 * lag
    ensures Happens(n, Dispatched(Remote(0), near, far), lag)
  {
    LopsidedSeen(n, a, lag);
    UnappliedOfOne(n);
    OnlyRemoteBalanced(n);
    hide Growing, TrueLoad, Unapplied, SnapshotOf, Load, Balanced;
  }

  lemma OnlyRemoteBalanced(n: Net)
    requires |n.remotes| == 1 && Load(SnapshotOf(n), Remote(0)) <= Load(SnapshotOf(n), Root)
    ensures Balanced(SnapshotOf(n), [], Remote(0))
  {
    hide Load;
  }

  lemma UnappliedOfOne(n: Net)
    requires Growing(n) && |n.remotes| == 1 && n.root.adds == {}
    ensures Unapplied(n) == n.remotes[0].adds
  {
    hide NetOk;
    assert Holds(n.remotes[0], Via(n.root.open, Through(0)));
    forall f | f in n.remotes[0].adds
      ensures f in Unapplied(n)
    {
      assert f in Via(n.root.open, Through(0));
    }
  }

  lemma DispatchAdds(n: Net, near: Target, far: Target)
    requires Growing(n) && |n.remotes| == 1
    ensures var f := Flow(n.next, Through(0), near, far);
      var n1 := After(n, Dispatched(Remote(0), near, far));
      && n1.root.adds == n.root.adds + {f}
      && |n1.remotes[0].adds| == |n.remotes[0].adds| + 1
      && (NoLoss(n) ==> NoLoss(n1))
  {
    var f := Flow(n.next, Through(0), near, far);
    AfterThrough(n, 0, near, far);
    FreshAdd(n, f);
    hide Growing, After, NetOk, Do, Enabled, SnapshotOf;
  }

  lemma AfterThrough(n: Net, i: nat, near: Target, far: Target)
    requires Growing(n) && i < |n.remotes|
    ensures var f := Flow(n.next, Through(i), near, far);
      Offered(SnapshotOf(n), Remote(i))
      && After(n, Dispatched(Remote(i), near, far)) ==
         n.(root := Opened(n.root, f), remotes := n.remotes[i := Opened(n.remotes[i], f)], next := n.next + 1)
  {
    hide NetOk;
    RelayedOk(n, i, near, far);
  }

  lemma FreshAdd(n: Net, f: Flow)
    requires Growing(n) && |n.remotes| == 1 && f.serial >= n.next
    ensures f !in n.remotes[0].adds
  {
    RemoteAccountOk(n, 0);
    OlderFacts(Flows(n.remotes[0]), n.next);
    hide Growing, NetOk, Conserved, Older;
  }

  /** The next tunnel goes to the loaded remote again; the root's update is applied at once,
      and the remote's oldest ones as soon as the lag demands it. */
  lemma LopsidedNext(n: Net, a: nat, lag: nat, near: Target, far: Target)
    requires Lopsided(n, a, lag) && a <= 2 * lag
    ensures var f := Flow(n.next, Through(0), near, far);
      var n1 := After(n, Dispatched(Remote(0), near, far));
      && Growing(n1) && |n1.remotes| == 1
      && TrueLoad(n1, Root) == 0 && TrueLoad(n1, Remote(0)) == a + 1
      && n1.root.adds == {f} && |n1.remotes[0].adds| == Min(a, lag) + 1
      && NoLoss(n1)
  {
    hide Growing, TrueLoad, Balanced, NoLoss;
    LopsidedChoice(n, a, lag, near, far);
    DispatchGrows(n, Dispatched(Remote(0), near, far));
    DispatchAdds(n, near, far);
    hide Do, Enabled, SnapshotOf;
  }

  lemma LoadsStay(n: Net, n': Net)
    requires n.root.open == n'.root.open
    ensures forall p :: TrueLoad(n, p) == TrueLoad(n', p)
  {
  }

  lemma RootApplies(n: Net, f: Flow, lag: nat)
    requires Growing(n) && n.root.adds == {f} && NoLoss(n)
    ensures var e := Applied(AtRoot(DeliverAdd, f));
      && Happens(n, e, lag)
      && Growing(After(n, e)) && After(n, e).root.adds == {}
      && After(n, e).remotes == n.remotes && After(n, e).root.open == n.root.open
      && NoLoss(After(n, e))
  {
    ApplyGrows(n, Applied(AtRoot(DeliverAdd, f)));
    hide Growing;
  }

  lemma RemoteApplies(n: Net, f: Flow, lag: nat)
    requires Growing(n) && |n.remotes| == 1 && f in n.remotes[0].adds && NoLoss(n)
    ensures var e := Applied(AtRemote(0, DeliverAdd, f));
      && Happens(n, e, lag)
      && Growing(After(n, e)) && After(n, e).root == n.root && |After(n, e).remotes| == 1
      && |After(n, e).remotes[0].adds| == |n.remotes[0].adds| - 1
      && NoLoss(After(n, e))
  {
    ApplyGrows(n, Applied(AtRemote(0, DeliverAdd, f)));
    hide Growing;
  }

  /** A dispatch and the applications that make room for the next one. */
  lemma LopsidedStep(es: seq<Event>, a: nat, lag: nat, target: Target) returns (es': seq<Event>)
    requires Play(1, es, lag).Some? && Lopsided(Play(1, es, lag).value, a, lag) && a < 2 * lag
    ensures Play(1, es', lag).Some? && Lopsided(Play(1, es', lag).value, a + 1, lag)
  {
    var n := Play(1, es, lag).value;
    var f := Flow(n.next, Through(0), target, target);
    var e1, e2 := Dispatched(Remote(0), target, target), Applied(AtRoot(DeliverAdd, f));
    LopsidedChoice(n, a, lag, target, target);
    LopsidedNext(n, a, lag, target, target);
    PlayOn(1, es, lag, e1);
    hide Growing, TrueLoad, Happens, After, Play, NoLoss;
    var n1 := After(n, e1);
    RootApplies(n1, f, lag);
    PlayOn(1, es + [e1], lag, e2);
    var n2 := After(n1, e2);
    LoadsStay(n1, n2);
    es' := es + [e1] + [e2];
    if a + 1 > lag {
      assert n2.remotes[0].adds != {};
      var g :| g in n2.remotes[0].adds;
      es' := OldestApplied(es', a + 1, lag, g);
    }
  }

  /** The remote's updates are one too many: another one is applied. */
  lemma OldestApplied(es: seq<Event>, a: nat, lag: nat, g: Flow) returns (es': seq<Event>)
    requires Play(1, es, lag).Some?
    requires var n := Play(1, es, lag).value;
             && Growing(n) && |n.remotes| == 1 && n.root.adds == {} && g in n.remotes[0].adds && NoLoss(n)
             && TrueLoad(n, Root) == 0 && TrueLoad(n, Remote(0)) == a
             && |n.remotes[0].adds| == lag + 1 <= a
    ensures Play(1, es', lag).Some? && Lopsided(Play(1, es', lag).value, a, lag)
  {
    var n, e := Play(1, es, lag).value, Applied(AtRemote(0, DeliverAdd, g));
    hide Growing, TrueLoad, Happens, After, Play, NoLoss;
    RemoteApplies(n, g, lag);
    PlayOn(1, es, lag, e);
    LoadsStay(n, After(n, e));
    es' := es + [e];
  }

  lemma {:induction false} LopsidedRun(a: nat, lag: nat, target: Target) returns (es: seq<Event>)
    requires a <= 2 * lag
    ensures Play(1, es, lag).Some? && Lopsided(Play(1, es, lag).value, a, lag)
  {
    if a == 0 {
      es := [];
      StartGrowing(1);
    } else {
      var before := LopsidedRun(a - 1, lag, target);
      hide Lopsided, Play;
      es := LopsidedStep(before, a - 1, lag, target);
    }
  }

  /** For every lag there is a run that ends with a spread of twice the lag plus one. */
  lemma BoundIsTight(lag: nat, target: Target) returns (es: seq<Event>)
    ensures Play(1, es, lag).Some?
    ensures TrueLoad(Play(1, es, lag).value, Remote(0)) ==
      TrueLoad(Play(1, es, lag).value, Root) + 2 * lag + 1
  {
    var before := LopsidedRun(2 * lag, lag, target);
    var n := Play(1, before, lag).value;
    var e := Dispatched(Remote(0), target, target);
    LopsidedChoice(n, 2 * lag, lag, target, target);
    LopsidedNext(n, 2 * lag, lag, target, target);
    PlayOn(1, before, lag, e);
    es := before + [e];
  }
}
