/** What the run of a system of a root and its remotes says about its accounts: every account is
    what the steps of the run, read one by one, make of it. */
module Histories {
  import opened Streams
  import opened Nodes
  import opened Accounting
  import Updates

  /** What happened at an account. */
  datatype Event = Opening(f: Flow) | Happened(act: Act, f: Flow)

  /** How many flows the steps have given out. */
  function Given(sts: seq<Step>): nat {
    if sts == [] then 0
    else
      var st := sts[|sts| - 1];
      Given(sts[..|sts| - 1]) + if st.OpenDirect? || st.RelayOpen? || st.ForeignOpen? then 1 else 0
  }

  function RootEvents(sts: seq<Step>): seq<Event> {
    if sts == [] then []
    else
      var init := sts[..|sts| - 1];
      RootEvents(init) +
      match sts[|sts| - 1]
      case OpenDirect(target) => [Opening(Flow(Given(init), Direct, target, target))]
      case NearOpen(f) => [Opening(f)]
      case AtRoot(act, f) => [Happened(act, f)]
      case _ => []
  }

  function RemoteEvents(sts: seq<Step>, i: nat): seq<Event> {
    if sts == [] then []
    else
      var init := sts[..|sts| - 1];
      RemoteEvents(init, i) +
      match sts[|sts| - 1]
      case RelayOpen(j, near, far) => if j == i then [Opening(Flow(Given(init), Through(i), near, far))] else []
      case ForeignOpen(j, target) => if j == i then [Opening(Flow(Given(init), Direct, target, target))] else []
      case AtRemote(j, act, f) => if j == i then [Happened(act, f)] else []
      case _ => []
  }

  function OpenedIn(es: seq<Event>): set<Flow> {
    set e | e in es && e.Opening? :: e.f
  }

  function Did(es: seq<Event>, act: Act): set<Flow> {
    set e | e in es && e.Happened? && e.act == act :: e.f
  }

  /** The updates that were delivered, in the order of their delivery. */
  function Delivered(es: seq<Event>, side: Side): seq<Update> {
    if es == [] then [] else Delivered(es[..|es| - 1], side) + DeliveredBy(es[|es| - 1], side)
  }

  function DeliveredBy(e: Event, side: Side): seq<Update> {
    if e.Opening? || (e.act != DeliverAdd && e.act != DeliverRemove) then []
    else
      var target := if side == Near then e.f.near else e.f.far;
      [Update(target, if e.act == DeliverAdd then Added else Removed)]
  }

  /** The account is what the events make of it. */
  ghost predicate Tells(es: seq<Event>, a: Account, side: Side) {
    && (a.table, a.failed) == Updates.Run(multiset{}, Delivered(es, side))
    && SetsTell(es, a)
  }

  /** Only what was opened was closed or delivered, and only what was closed was removed. */
  ghost predicate Plausible(es: seq<Event>) {
    && Did(es, Close) <= OpenedIn(es) && Did(es, DeliverAdd) <= OpenedIn(es)
    && Did(es, DeliverRemove) <= Did(es, Close)
  }

  lemma OneMore(es: seq<Event>, e: Event)
    ensures OpenedIn(es + [e]) == OpenedIn(es) + if e.Opening? then {e.f} else {}
    ensures forall act :: Did(es + [e], act) == Did(es, act) + if e == Happened(act, e.f) then {e.f} else {}
  {
  }

  lemma OneMoreDelivered(es: seq<Event>, e: Event, side: Side)
    ensures Delivered(es + [e], side) == Delivered(es, side) + DeliveredBy(e, side)
  {
    assert (es + [e])[..|es|] == es;
  }

  lemma RunOneMore(bag: multiset<Target>, us: seq<Update>, u: Update)
    ensures var (b, failed) := Updates.Run(bag, us);
            var (b', ok) := Apply(b, u);
            Updates.Run(bag, us + [u]) == (b', if ok then failed else failed + multiset{u.target})
  {
    assert (us + [u])[..|us|] == us;
  }

  lemma OpeningTells(es: seq<Event>, a: Account, side: Side, f: Flow)
    requires Tells(es, a, side) && Plausible(es) && f !in OpenedIn(es)
    ensures Tells(es + [Opening(f)], Opened(a, f), side) && Plausible(es + [Opening(f)])
  {
    OneMore(es, Opening(f));
    OneMoreDelivered(es, Opening(f), side);
    hide OpenedIn, Did, Delivered;
    assert Delivered(es, side) + [] == Delivered(es, side);
  }

  lemma ActTells(es: seq<Event>, a: Account, side: Side, act: Act, f: Flow)
    requires Tells(es, a, side) && Plausible(es) && ActEnabled(a, act, f)
    ensures Tells(es + [Happened(act, f)], Acted(a, act, f, side), side) && Plausible(es + [Happened(act, f)])
  {
    ActTables(es, a, side, act, f);
    ActSets(es, a, act, f, side);
    hide OpenedIn, Did, Delivered, Apply, Acted, ActEnabled, Updates.Run;
  }

  /** What the sets of an account say about the events. */
  ghost predicate SetsTell(es: seq<Event>, a: Account) {
    && a.open == OpenedIn(es) - Did(es, Close)
    && a.adds == OpenedIn(es) - Did(es, DeliverAdd)
    && a.removes == Did(es, Close) - Did(es, DeliverRemove)
    && a.lostAdds == Did(es, LoseAdd)
    && a.lostRemoves == Did(es, LoseRemove)
  }

  lemma ActSets(es: seq<Event>, a: Account, act: Act, f: Flow, side: Side)
    requires SetsTell(es, a) && Plausible(es) && ActEnabled(a, act, f)
    ensures SetsTell(es + [Happened(act, f)], Acted(a, act, f, side)) && Plausible(es + [Happened(act, f)])
  {
    var e, es' := Happened(act, f), es + [Happened(act, f)];
    OneMore(es, e);
    assert OpenedIn(es') == OpenedIn(es);
    assert Did(es', act) == Did(es, act) + {f};
    assert forall other :: other != act ==> Did(es', other) == Did(es, other);
    hide OpenedIn, Did, Apply;
  }

  lemma ActTables(es: seq<Event>, a: Account, side: Side, act: Act, f: Flow)
    requires (a.table, a.failed) == Updates.Run(multiset{}, Delivered(es, side))
    ensures var b := Acted(a, act, f, side);
            (b.table, b.failed) == Updates.Run(multiset{}, Delivered(es + [Happened(act, f)], side))
  {
    OneMoreDelivered(es, Happened(act, f), side);
    var us := Delivered(es, side);
    RunOneMore(multiset{}, us, Update(TargetAt(f, side), Added));
    RunOneMore(multiset{}, us, Update(TargetAt(f, side), Removed));
    hide Delivered, Updates.Run;
    assert us + [] == us;
  }

  /** The flows that the remotes have opened for the root, and of these the ones it counts. */
  function Relayed(sts: seq<Step>): set<Flow> {
    if sts == [] then {}
    else
      var init := sts[..|sts| - 1];
      Relayed(init) +
      match sts[|sts| - 1]
      case RelayOpen(i, near, far) => {Flow(Given(init), Through(i), near, far)}
      case _ => {}
  }

  function Taken(sts: seq<Step>): set<Flow> {
    set st | st in sts && st.NearOpen? :: st.f
  }

  ghost predicate Known(es: seq<Event>, given: nat) {
    forall f :: f in OpenedIn(es) ==> f.serial < given
  }

  ghost predicate RemotesTell(sts: seq<Step>, rs: seq<Account>) {
    forall i :: 0 <= i < |rs| ==> RemoteTells(sts, rs, i)
  }

  ghost predicate RemoteTells(sts: seq<Step>, rs: seq<Account>, i: nat)
    requires i < |rs|
  {
    var es := RemoteEvents(sts, i);
    Tells(es, rs[i], Far) && Plausible(es) && Known(es, Given(sts))
  }

  ghost predicate RootTells(sts: seq<Step>, n: Net) {
    var es := RootEvents(sts);
    && Tells(es, n.root, Near) && Plausible(es) && Known(es, Given(sts))
    && WaitingTells(sts, n) && n.waiting !! OpenedIn(es)
  }

  ghost predicate AllTell(sts: seq<Step>, n: Net) {
    n.next == Given(sts) && RootTells(sts, n) && RemotesTell(sts, n.remotes)
  }

  lemma KnownLater(es: seq<Event>, given: nat, more: nat)
    requires Known(es, given) && given <= more
    ensures Known(es, more)
  {
  }

  lemma TakenOneMore(sts: seq<Step>, st: Step)
    ensures Taken(sts + [st]) == Taken(sts) + if st.NearOpen? then {st.f} else {}
  {
  }

  lemma RootOpensOneMore(sts: seq<Step>, st: Step, n: Net, f: Flow)
    requires AllTell(sts, n) && Enabled(n, st) && RootEvents(sts + [st]) == RootEvents(sts) + [Opening(f)]
    requires st == NearOpen(f) || exists target :: st == OpenDirect(target) && f == Flow(n.next, Direct, target, target)
    requires Given(sts + [st]) == n.next + if st.OpenDirect? then 1 else 0
    ensures var es := RootEvents(sts + [st]);
      && Tells(es, Do(n, st).root, Near) && Plausible(es) && Known(es, Given(sts + [st]))
      && OpenedIn(es) == OpenedIn(RootEvents(sts)) + {f}
  {
    var es := RootEvents(sts);
    KnownLater(es, Given(sts), Given(sts + [st]));
    OpeningTells(es, n.root, Near, f);
    OneMore(es, Opening(f));
    hide Tells, Plausible, RootEvents, Given;
  }

  lemma RootActsOneMore(sts: seq<Step>, st: Step, n: Net)
    requires AllTell(sts, n) && Enabled(n, st) && st.AtRoot?
    requires RootEvents(sts + [st]) == RootEvents(sts) + [Happened(st.act, st.f)] && Given(sts + [st]) == n.next
    ensures var es := RootEvents(sts + [st]);
      && Tells(es, Do(n, st).root, Near) && Plausible(es) && Known(es, Given(sts + [st]))
      && OpenedIn(es) == OpenedIn(RootEvents(sts))
  {
    var es := RootEvents(sts);
    ActTells(es, n.root, Near, st.act, st.f);
    OneMore(es, Happened(st.act, st.f));
    hide Tells, Plausible, RootEvents, Given;
  }

  lemma Unfolded(sts: seq<Step>, st: Step)
    ensures (sts + [st])[..|sts + [st]| - 1] == sts && (sts + [st])[|sts + [st]| - 1] == st
  {
  }

  /** The flows that wait for the root. */
  ghost predicate WaitingTells(sts: seq<Step>, n: Net) {
    && n.waiting == Relayed(sts) - Taken(sts) && Taken(sts) <= Relayed(sts)
    && forall f :: f in Relayed(sts) ==> f.serial < Given(sts)
  }

  lemma WaitingOneMore(sts: seq<Step>, st: Step, n: Net)
    requires WaitingTells(sts, n) && n.next == Given(sts) && Enabled(n, st)
    ensures WaitingTells(sts + [st], Do(n, st)) && Given(sts + [st]) == Do(n, st).next
  {
    Unfolded(sts, st);
    TakenOneMore(sts, st);
    hide Taken;
  }

  lemma StillApart(sts: seq<Step>, st: Step, n: Net, es: set<Flow>, es': set<Flow>)
    requires WaitingTells(sts, n) && n.next == Given(sts) && Enabled(n, st) && n.waiting !! es
    requires forall f :: f in es ==> f.serial < n.next
    requires es' == es + if st.OpenDirect? then {Flow(n.next, Direct, st.target, st.target)}
                         else if st.NearOpen? then {st.f} else {}
    ensures Do(n, st).waiting !! es'
  {
    hide Taken, Relayed;
    forall f | f in n.waiting
      ensures f.serial < n.next
    {
      assert f in Relayed(sts);
    }
  }

  lemma RootOneMore(sts: seq<Step>, st: Step, n: Net)
    requires AllTell(sts, n) && Enabled(n, st)
    ensures RootTells(sts + [st], Do(n, st)) && Given(sts + [st]) == Do(n, st).next
  {
    var es := RootEvents(sts);
    Unfolded(sts, st);
    WaitingOneMore(sts, st, n);
    match st {
      case OpenDirect(target) => RootOpensOneMore(sts, st, n, Flow(n.next, Direct, target, target));
      case NearOpen(f) => RootOpensOneMore(sts, st, n, f);
      case AtRoot(_, _) => RootActsOneMore(sts, st, n);
      case _ =>
        KnownLater(es, Given(sts), Given(sts + [st]));
        assert es + [] == es;
    }
    hide Tells, Plausible, WaitingTells, OpenedIn, Given;
    StillApart(sts, st, n, OpenedIn(es), OpenedIn(RootEvents(sts + [st])));
    hide Do, RootEvents;
  }

  /** What the step does at remote `i`, if anything. */
  function EventAt(n: Net, st: Step, i: nat): Option<Event> {
    match st
    case RelayOpen(j, near, far) => if j == i then Some(Opening(Flow(n.next, Through(i), near, far))) else None
    case ForeignOpen(j, target) => if j == i then Some(Opening(Flow(n.next, Direct, target, target))) else None
    case AtRemote(j, act, f) => if j == i then Some(Happened(act, f)) else None
    case _ => None
  }

  lemma RemoteChanges(n: Net, st: Step, i: nat)
    requires Enabled(n, st) && i < |n.remotes|
    ensures |Do(n, st).remotes| == |n.remotes|
    ensures Do(n, st).remotes[i] ==
      match EventAt(n, st, i)
      case None => n.remotes[i]
      case Some(e) => if e.Opening? then Opened(n.remotes[i], e.f) else Acted(n.remotes[i], e.act, e.f, Far)
    ensures EventAt(n, st, i).Some? && EventAt(n, st, i).value.Happened? ==>
      ActEnabled(n.remotes[i], EventAt(n, st, i).value.act, EventAt(n, st, i).value.f)
    ensures EventAt(n, st, i).Some? && EventAt(n, st, i).value.Opening? ==>
      EventAt(n, st, i).value.f.serial == n.next < Do(n, st).next
    ensures n.next <= Do(n, st).next
  {
    hide Opened, Acted, ActEnabled;
  }

  lemma RemoteEventsOneMore(sts: seq<Step>, st: Step, n: Net, i: nat)
    requires n.next == Given(sts)
    ensures RemoteEvents(sts + [st], i) ==
      RemoteEvents(sts, i) + if EventAt(n, st, i).Some? then [EventAt(n, st, i).value] else []
  {
    Unfolded(sts, st);
  }

  lemma RemoteOneMore(sts: seq<Step>, st: Step, n: Net, i: nat)
    requires AllTell(sts, n) && Enabled(n, st) && i < |n.remotes| && Given(sts + [st]) == Do(n, st).next
    ensures |Do(n, st).remotes| == |n.remotes| && RemoteTells(sts + [st], Do(n, st).remotes, i)
  {
    var es, a := RemoteEvents(sts, i), n.remotes[i];
    assert RemoteTells(sts, n.remotes, i);
    RemoteChanges(n, st, i);
    RemoteEventsOneMore(sts, st, n, i);
    hide Do, Enabled, RemoteEvents, Given, RootTells, RemotesTell;
    KnownLater(es, n.next, Do(n, st).next);
    match EventAt(n, st, i)
    case None => assert es + [] == es;
    case Some(e) =>
      hide EventAt;
      OneMore(es, e);
      if e.Opening? {
        OpeningTells(es, a, Far, e.f);
      } else {
        ActTells(es, a, Far, e.act, e.f);
      }
      hide Tells, Plausible;
  }

  lemma {:induction false} RunTells(k: nat, sts: seq<Step>)
    ensures var n := Run(Start(k), sts); n.Some? ==> AllTell(sts, n.value) && |n.value.remotes| == k
  {
    hide RootTells, RemoteTells, Do, Enabled;
    if sts == [] {
      StartTells(k);
    } else {
      var init, st := sts[..|sts| - 1], sts[|sts| - 1];
      var m := Run(Start(k), init);
      RunTells(k, init);
      if m.Some? && Enabled(m.value, st) {
        assert sts == init + [st];
        RootOneMore(init, st, m.value);
        RemotesOneMore(init, st, m.value);
      }
    }
  }

  lemma RemotesOneMore(sts: seq<Step>, st: Step, n: Net)
    requires AllTell(sts, n) && Enabled(n, st) && Given(sts + [st]) == Do(n, st).next
    ensures |Do(n, st).remotes| == |n.remotes| && RemotesTell(sts + [st], Do(n, st).remotes)
  {
    hide RootTells, RemoteTells;
    SameRemotes(n, st);
    forall i | 0 <= i < |n.remotes|
      ensures RemoteTells(sts + [st], Do(n, st).remotes, i)
    {
      RemoteOneMore(sts, st, n, i);
    }
  }

  lemma SameRemotes(n: Net, st: Step)
    requires Enabled(n, st)
    ensures |Do(n, st).remotes| == |n.remotes|
  {
  }

  lemma StartTells(k: nat)
    ensures AllTell([], Start(k)) && |Start(k).remotes| == k
  {
  }

  /** In every run each table, with the removals that failed, is what the updates delivered to it
      lead to, one by one; open, in flight and lost are exactly what the steps of the run say. */
  lemma TablesAreDeliveries(k: nat, sts: seq<Step>, n: Net)
    requires Run(Start(k), sts) == Some(n)
    ensures Tells(RootEvents(sts), n.root, Near)
    ensures |n.remotes| == k && forall i :: 0 <= i < k ==> Tells(RemoteEvents(sts, i), n.remotes[i], Far)
    ensures n.waiting == Relayed(sts) - Taken(sts)
  {
    RunTells(k, sts);
    forall i | 0 <= i < k
      ensures Tells(RemoteEvents(sts, i), n.remotes[i], Far)
    {
      assert RemoteTells(sts, n.remotes, i);
    }
  }

  // ----- What is in flight can be delivered -----

  function InFlight(a: Account): nat {
    |a.adds - a.lostAdds| + |a.removes - a.lostRemoves|
  }

  predicate Delivers(st: Step) {
    match st
    case NearOpen(_) => true
    case AtRoot(act, _) => act == DeliverAdd || act == DeliverRemove
    case AtRemote(_, act, _) => act == DeliverAdd || act == DeliverRemove
    case _ => false
  }

  predicate AllDeliver(sts: seq<Step>) {
    forall j :: 0 <= j < |sts| ==> Delivers(sts[j])
  }

  lemma {:induction false} RunOn(n: Net, sts: seq<Step>, more: seq<Step>)
    requires Run(n, sts).Some?
    ensures Run(n, sts + more) == Run(Run(n, sts).value, more)
  {
    hide Do, Enabled;
    if more == [] {
      assert sts + more == sts;
    } else {
      var j := |more| - 1;
      assert (sts + more)[..|sts| + j] == sts + more[..j] && (sts + more)[|sts| + j] == more[j];
      RunOn(n, sts, more[..j]);
    }
  }

  lemma RunStep(n: Net, st: Step, more: seq<Step>)
    requires Enabled(n, st)
    ensures Run(n, [st] + more) == Run(Do(n, st), more)
  {
    hide Do, Enabled;
    assert [st][..0] == [];
    assert Run(n, [st]) == Some(Do(n, st));
    RunOn(n, [st], more);
  }

  lemma DeliveryShrinks(a: Account, act: Act, f: Flow, side: Side)
    requires ActEnabled(a, act, f) && (act == DeliverAdd || act == DeliverRemove)
    ensures InFlight(Acted(a, act, f, side)) == InFlight(a) - 1
    ensures Acted(a, act, f, side).open == a.open
  {
    hide Apply;
    var b := Acted(a, act, f, side);
    if act == DeliverAdd {
      assert b.adds - b.lostAdds == (a.adds - a.lostAdds) - {f};
    } else {
      assert b.removes - b.lostRemoves == (a.removes - a.lostRemoves) - {f};
    }
  }

  lemma NextDelivery(a: Account) returns (act: Act, f: Flow)
    requires InFlight(a) > 0
    ensures ActEnabled(a, act, f) && (act == DeliverAdd || act == DeliverRemove)
  {
    if a.adds - a.lostAdds != {} {
      act := DeliverAdd;
      f :| f in a.adds - a.lostAdds;
    } else {
      act := DeliverRemove;
      f :| f in a.removes - a.lostRemoves;
    }
  }

  /** What deliveries leave as it is. */
  predicate SameOpen(n: Net, m: Net) {
    |m.remotes| == |n.remotes| && m.next == n.next
    && m.root.open + m.waiting == n.root.open + n.waiting
    && forall i :: 0 <= i < |n.remotes| ==> m.remotes[i].open == n.remotes[i].open
  }

  lemma {:induction false} DrainWaiting(n: Net) returns (more: seq<Step>)
    ensures AllDeliver(more) && Run(n, more).Some?
    ensures var m := Run(n, more).value; m.waiting == {} && SameOpen(n, m)
    decreases |n.waiting|
  {
    hide Run;
    if n.waiting == {} {
      more := [];
      EmptyRun(n);
    } else {
      var f :| f in n.waiting;
      var rest := DrainWaiting(Do(n, NearOpen(f)));
      more := [NearOpen(f)] + rest;
      RunStep(n, NearOpen(f), rest);
    }
  }

  lemma EmptyRun(n: Net)
    ensures Run(n, []) == Some(n)
  {
  }

  lemma {:induction false} DrainRoot(n: Net) returns (more: seq<Step>)
    requires n.waiting == {}
    ensures AllDeliver(more) && Run(n, more).Some?
    ensures var m := Run(n, more).value; m.waiting == {} && SameOpen(n, m) && InFlight(m.root) == 0
    decreases InFlight(n.root)
  {
    hide Run, InFlight;
    if InFlight(n.root) == 0 {
      more := [];
      EmptyRun(n);
    } else {
      var act, f := NextDelivery(n.root);
      var st := AtRoot(act, f);
      DeliveryShrinks(n.root, act, f, Near);
      hide Acted, ActEnabled;
      var rest := DrainRoot(Do(n, st));
      more := [st] + rest;
      RunStep(n, st, rest);
    }
  }

  ghost predicate QuietBelow(n: Net, k: nat) {
    && n.waiting == {} && InFlight(n.root) == 0
    && forall i :: 0 <= i < k && i < |n.remotes| ==> InFlight(n.remotes[i]) == 0
  }

  lemma {:induction false} DrainRemote(n: Net, i: nat) returns (more: seq<Step>)
    requires i < |n.remotes| && QuietBelow(n, i)
    ensures AllDeliver(more) && Run(n, more).Some?
    ensures var m := Run(n, more).value; QuietBelow(m, i + 1) && SameOpen(n, m)
    decreases InFlight(n.remotes[i])
  {
    hide Run, InFlight;
    if InFlight(n.remotes[i]) == 0 {
      more := [];
      EmptyRun(n);
    } else {
      var act, f := NextDelivery(n.remotes[i]);
      var st := AtRemote(i, act, f);
      DeliveryShrinks(n.remotes[i], act, f, Far);
      hide Acted, ActEnabled;
      var rest := DrainRemote(Do(n, st), i);
      more := [st] + rest;
      RunStep(n, st, rest);
    }
  }

  lemma {:induction false} DrainRemotes(n: Net, i: nat) returns (more: seq<Step>)
    requires i <= |n.remotes| && QuietBelow(n, i)
    ensures AllDeliver(more) && Run(n, more).Some?
    ensures var m := Run(n, more).value; QuietBelow(m, |n.remotes|) && SameOpen(n, m)
    decreases |n.remotes| - i
  {
    hide Run, InFlight;
    if i == |n.remotes| {
      more := [];
      EmptyRun(n);
    } else {
      var first := DrainRemote(n, i);
      var rest := DrainRemotes(Run(n, first).value, i + 1);
      more := first + rest;
      RunOn(n, first, rest);
    }
  }

  /** From every reachable state, delivering what is in flight, in some order, empties all queues
      but for what is lost, and opens or closes nothing: what waited for the root is counted. */
  lemma Drains(k: nat, sts: seq<Step>, n: Net) returns (more: seq<Step>)
    requires Run(Start(k), sts) == Some(n)
    ensures AllDeliver(more) && Run(Start(k), sts + more) == Run(n, more) && Run(n, more).Some?
    ensures var m := Run(n, more).value;
            && m.waiting == {} && m.root.open == n.root.open + n.waiting
            && Settled(m.root) && |m.remotes| == |n.remotes| == k
            && forall i :: 0 <= i < k ==> Settled(m.remotes[i]) && m.remotes[i].open == n.remotes[i].open
  {
    var a := DrainWaiting(n);
    var n1 := Run(n, a).value;
    var b := DrainRoot(n1);
    var n2 := Run(n1, b).value;
    var c := DrainRemotes(n2, 0);
    RunOn(n, a, b);
    RunOn(n, a + b, c);
    more := a + b + c;
    RunOn(Start(k), sts, more);
    RunKeepsOk(k, sts + more);
    RunKeepsOk(k, sts);
    var m := Run(n, more).value;
    NothingLeft(m.root, Near, m.next);
    forall i | 0 <= i < k
      ensures Settled(m.remotes[i])
    {
      RemoteAccountOk(m, i);
      NothingLeft(m.remotes[i], Far, m.next);
    }
  }

  lemma NothingLeft(a: Account, side: Side, next: nat)
    requires AccountOk(a, side, next) && InFlight(a) == 0
    ensures Settled(a)
  {
    assert a.adds - a.lostAdds == {} && a.removes - a.lostRemoves == {};
  }

  // ----- Loads that are off -----

  /** A remote that serves somebody else makes the computed load of an idle root negative, and a
      lost addition hides an open tunnel. */
  lemma LoadsOff(target: Target)
    ensures var foreign := Flow(0, Direct, target, target);
      var n := Run(Start(1), [ForeignOpen(0, target), AtRemote(0, DeliverAdd, foreign)]);
      n.Some? && n.value.root.open == {} && |n.value.root.table| - |n.value.remotes[0].table| == -1
    ensures var own := Flow(0, Direct, target, target);
      var n := Run(Start(0), [OpenDirect(target), AtRoot(LoseAdd, own)]);
      n.Some? && n.value.root.open == {own} && n.value.root.table == multiset{}
  {
    var f := Flow(0, Direct, target, target);
    var a, b := ForeignOpen(0, target), AtRemote(0, DeliverAdd, f);
    TwoSteps(Start(1), a, b);
    var c, d := OpenDirect(target), AtRoot(LoseAdd, f);
    TwoSteps(Start(0), c, d);
  }

  lemma TwoSteps(n: Net, a: Step, b: Step)
    requires Enabled(n, a) && Enabled(Do(n, a), b)
    ensures Run(n, [a, b]) == Some(Do(Do(n, a), b))
  {
    hide Do, Enabled;
    assert [a, b] == [a] + [b] && [b] + [] == [b];
    RunStep(n, a, [b]);
    RunStep(Do(n, a), b, []);
    EmptyRun(Do(Do(n, a), b));
  }
}
