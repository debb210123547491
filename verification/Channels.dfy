/** The channel of one subscriber (pubsub/channel.go) as interleaved steps: the loop that
    takes messages, one goroutine for each message taken, and any number of calls of `stop`,
    by the holder of the topic's lock or by a goroutine whose message timed out or found the
    output channel closed. */
module Channels {
  import opened Streams

  datatype Out = Unmade | Open | Closed

  datatype Loop = Unborn | Starting | Live | Dead

  /** A goroutine before and after it has evaluated `c.out()`. */
  datatype Sender = Spawned | Waiting(hasOut: bool)

  /** Where a call of `stop` is. */
  datatype Stopper = AtCheck | AtHandshake | AtDeactivate | AtClose

  datatype Publisher = AtActive | AtSend

  /** What the holder of the topic's lock is doing: something with other channels, sending to
      this one, or stopping it. */
  datatype Lock = Free | Elsewhere | Publishing(pub: Publisher) | Stopping(stop: Stopper)

  /** `loose` are the calls of `stop` by goroutines, under the number of their message;
      `hasOut` tells whether the field `ch` is set, `closes` how often it was closed. */
  datatype State = State(
    active: bool,
    hasOut: bool,
    out: Out,
    loop: Loop,
    lock: Lock,
    loose: map<nat, Stopper>,
    accepted: nat,
    inFlight: map<nat, Sender>,
    delivered: seq<nat>,
    dropped: set<nat>,
    closes: nat)

  const NEW := State(false, false, Unmade, Unborn, Free, map[], 0, map[], [], {}, 0)

  datatype Step =
    | Start
    | GoLive
    | Acquire
    | Release
    | EnterPub
    | EnterStop
    | PubCheck
    | PubSend
    | Evaluate(m: nat)
    | Deliver(m: nat)
    | Panic(m: nat)
    | Timeout(m: nat)
    | HolderStops
    | LooseStops(m: nat)

  predicate StopEnabled(s: State, st: Stopper) {
    st == AtHandshake ==> s.loop == Live
  }

  predicate Enabled(s: State, st: Step) {
    match st
    case Start => s.loop == Unborn
    case GoLive => s.loop == Starting
    case Acquire => s.lock == Free
    case Release => s.lock == Elsewhere
    case EnterPub => s.lock == Elsewhere
    case EnterStop => s.lock == Elsewhere
    case PubCheck => s.lock == Publishing(AtActive)
    case PubSend => s.lock == Publishing(AtSend) && s.loop == Live
    case Evaluate(m) => m in s.inFlight && s.inFlight[m] == Spawned
    case Deliver(m) => m in s.inFlight && s.inFlight[m] == Waiting(true) && s.out == Open
    case Panic(m) => m in s.inFlight && s.inFlight[m] == Waiting(true) && s.out == Closed
    case Timeout(m) => m in s.inFlight && s.inFlight[m].Waiting?
    case HolderStops => s.lock.Stopping? && StopEnabled(s, s.lock.stop)
    case LooseStops(m) => m in s.loose && StopEnabled(s, s.loose[m])
  }

  /** One step of `stop`: what it does to the channel, and where the call is then, if it has
      not returned. */
  function Advance(s: State, st: Stopper): (State, Option<Stopper>) {
    match st
    case AtCheck => (s, if s.active then Some(AtHandshake) else None)
    case AtHandshake => (s.(loop := Dead), Some(AtDeactivate))
    case AtDeactivate => (s.(active := false), Some(AtClose))
    case AtClose =>
      (if s.hasOut && s.out == Open then s.(out := Closed, closes := s.closes + 1, hasOut := false)
       else s.(hasOut := false), None)
  }

  function Drop(s: State, m: nat): State {
    s.(inFlight := s.inFlight - {m}, dropped := s.dropped + {m}, loose := s.loose[m := AtCheck])
  }

  function Do(s: State, st: Step): State
    requires Enabled(s, st)
  {
    match st
    case Start => s.(active := true, hasOut := true, out := Open, loop := Starting)
    case GoLive => s.(loop := Live)
    case Acquire => s.(lock := Elsewhere)
    case Release => s.(lock := Free)
    case EnterPub => s.(lock := Publishing(AtActive))
    case EnterStop => s.(lock := Stopping(AtCheck))
    case PubCheck => s.(lock := if s.active then Publishing(AtSend) else Elsewhere)
    case PubSend =>
      s.(lock := Elsewhere, accepted := s.accepted + 1, inFlight := s.inFlight[s.accepted := Spawned])
    case Evaluate(m) => s.(inFlight := s.inFlight[m := Waiting(s.hasOut)])
    case Deliver(m) => s.(inFlight := s.inFlight - {m}, delivered := s.delivered + [m])
    case Panic(m) => Drop(s, m)
    case Timeout(m) => Drop(s, m)
    case HolderStops =>
      var (s', at) := Advance(s, s.lock.stop);
      s'.(lock := if at.Some? then Stopping(at.value) else Elsewhere)
    case LooseStops(m) =>
      var (s', at) := Advance(s, s.loose[m]);
      s'.(loose := if at.Some? then s'.loose[m := at.value] else s'.loose - {m})
  }

  function RunFrom(s: State, sts: seq<Step>): Option<State> {
    if sts == [] then Some(s)
    else
      var r := RunFrom(s, sts[..|sts| - 1]);
      if r.Some? && Enabled(r.value, sts[|sts| - 1]) then Some(Do(r.value, sts[|sts| - 1])) else None
  }

  // ----- Conservation, in every interleaving -----

  /** The call of `stop` that took the loop's handshake and has not returned. */
  datatype Winner = Holder(at: Stopper) | Loose(m: nat, at: Stopper)

  predicate Past(at: Stopper) { at == AtDeactivate || at == AtClose }

  predicate Wins(s: State, w: Winner) {
    Past(w.at) &&
    match w
    case Holder(at) => s.lock == Stopping(at)
    case Loose(m, at) => m in s.loose && s.loose[m] == at
  }

  /** At most one call has got past the handshake, none before the loop ended; what it has
      done so far is the state of the channel. */
  ghost predicate Phases(s: State) {
    && (forall v, w :: Wins(s, v) && Wins(s, w) ==> v == w)
    && match s.loop
       case Unborn => (forall w :: !Wins(s, w)) && !s.active && !s.hasOut && s.out == Unmade && s.closes == 0
       case Starting => (forall w :: !Wins(s, w)) && s.active && s.hasOut && s.out == Open && s.closes == 0
       case Live => (forall w :: !Wins(s, w)) && s.active && s.hasOut && s.out == Open && s.closes == 0
       case Dead =>
         && (forall w :: Wins(s, w) ==>
              s.hasOut && s.out == Open && s.closes == 0 && s.active == (w.at == AtDeactivate))
         && ((forall w :: !Wins(s, w)) ==> !s.active && !s.hasOut && s.out == Closed && s.closes == 1)
  }

  /** Every message the loop has taken is delivered, in flight or dropped: one of the three. */
  ghost predicate Conserved(s: State) {
    && (forall m :: m in s.inFlight || m in s.delivered || m in s.dropped <==> 0 <= m < s.accepted)
    && (forall m :: m in s.inFlight ==> m !in s.delivered && m !in s.dropped)
    && (forall m :: m in s.dropped ==> m !in s.delivered)
    && (forall i, j :: 0 <= i < j < |s.delivered| ==> s.delivered[i] != s.delivered[j])
    && s.loose.Keys <= s.dropped
  }

  lemma DeliverConserves(s: State, m: nat)
    requires Conserved(s) && m in s.inFlight
    ensures Conserved(s.(inFlight := s.inFlight - {m}, delivered := s.delivered + [m]))
  {
    var s' := s.(inFlight := s.inFlight - {m}, delivered := s.delivered + [m]);
    assert m !in s.delivered && m !in s.dropped;
    assert forall k :: k in s'.delivered <==> k in s.delivered || k == m;
    forall i, j | 0 <= i < j < |s'.delivered|
      ensures s'.delivered[i] != s'.delivered[j]
    {
      assert s'.delivered[i] == s.delivered[i];
    }
  }

  lemma DropConserves(s: State, m: nat)
    requires Conserved(s) && m in s.inFlight
    ensures Conserved(Drop(s, m))
  {
  }

  lemma SendConserves(s: State)
    requires Conserved(s)
    ensures Conserved(s.(accepted := s.accepted + 1, inFlight := s.inFlight[s.accepted := Spawned]))
  {
  }

  /** The parts of the state that conservation is about. */
  predicate SameMessages(s: State, s': State) {
    && s'.accepted == s.accepted && s'.inFlight.Keys == s.inFlight.Keys
    && s'.delivered == s.delivered && s'.dropped == s.dropped && s'.loose.Keys <= s.loose.Keys
  }

  lemma SameConserves(s: State, s': State)
    requires Conserved(s) && SameMessages(s, s')
    ensures Conserved(s')
  {
    assert forall m :: m in s'.inFlight <==> m in s.inFlight;
  }

  lemma OthersSame(s: State, st: Step)
    requires Enabled(s, st)
    requires !st.Deliver? && !st.Panic? && !st.Timeout? && !st.PubSend?
    ensures SameMessages(s, Do(s, st))
  {
    match st
    case HolderStops => AdvanceSame(s, s.lock.stop);
    case LooseStops(m) => AdvanceSame(s, s.loose[m]);
    case _ =>
  }

  lemma AdvanceSame(s: State, st: Stopper)
    ensures var s' := Advance(s, st).0;
      && s'.accepted == s.accepted && s'.inFlight == s.inFlight && s'.loose == s.loose
      && s'.delivered == s.delivered && s'.dropped == s.dropped
  {
  }

  lemma StepConserves(s: State, st: Step)
    requires Conserved(s) && Enabled(s, st)
    ensures Conserved(Do(s, st))
  {
    hide Conserved;
    match st
    case Deliver(m) => DeliverConserves(s, m);
    case Panic(m) => DropConserves(s, m);
    case Timeout(m) => DropConserves(s, m);
    case PubSend =>
      var taken := s.(accepted := s.accepted + 1, inFlight := s.inFlight[s.accepted := Spawned]);
      SendConserves(s);
      SameConserves(taken, Do(s, st));
    case _ =>
      OthersSame(s, st);
      SameConserves(s, Do(s, st));
  }

  lemma StepKeepsPhases(s: State, st: Step)
    requires Phases(s) && Conserved(s) && Enabled(s, st)
    ensures Phases(Do(s, st))
  {
    match st {
      case HolderStops => HolderKeepsPhases(s);
      case LooseStops(m) => LooseKeepsPhases(s, m);
      case _ => OthersKeepPhases(s, st);
    }
  }

  lemma OthersKeepPhases(s: State, st: Step)
    requires Phases(s) && Conserved(s) && Enabled(s, st) && !st.HolderStops? && !st.LooseStops?
    ensures Phases(Do(s, st))
  {
    var s' := Do(s, st);
    forall w
      ensures Wins(s', w) <==> Wins(s, w)
    {
    }
  }

  lemma HolderKeepsPhases(s: State)
    requires Phases(s) && Enabled(s, HolderStops)
    ensures Phases(Do(s, HolderStops))
  {
    var s', at := Do(s, HolderStops), s.lock.stop;
    assert Past(at) ==> Wins(s, Holder(at));
    forall w: Winner | w.Loose?
      ensures Wins(s', w) <==> Wins(s, w)
    {
    }
    assert at == AtHandshake ==> Wins(s', Holder(AtDeactivate));
    assert at == AtDeactivate ==> Wins(s', Holder(AtClose));
  }

  lemma LooseKeepsPhases(s: State, m: nat)
    requires Phases(s) && Enabled(s, LooseStops(m))
    ensures Phases(Do(s, LooseStops(m)))
  {
    var s', at := Do(s, LooseStops(m)), s.loose[m];
    assert Past(at) ==> Wins(s, Loose(m, at));
    forall w: Winner | w.Holder? || w.m != m
      ensures Wins(s', w) <==> Wins(s, w)
    {
    }
    assert at == AtHandshake ==> Wins(s', Loose(m, AtDeactivate));
    assert at == AtDeactivate ==> Wins(s', Loose(m, AtClose));
  }

  lemma NewOk()
    ensures Conserved(NEW) && Phases(NEW)
  {
  }

  lemma {:induction false} ReachableOk(sts: seq<Step>)
    requires RunFrom(NEW, sts).Some?
    ensures Conserved(RunFrom(NEW, sts).value) && Phases(RunFrom(NEW, sts).value)
  {
    hide Conserved, Phases, Enabled, Do;
    if sts == [] {
      NewOk();
    } else {
      var s := RunFrom(NEW, sts[..|sts| - 1]).value;
      ReachableOk(sts[..|sts| - 1]);
      StepConserves(s, sts[|sts| - 1]);
      StepKeepsPhases(s, sts[|sts| - 1]);
    }
  }

  /** In every interleaving: a message taken by the loop is exactly one of delivered (once),
      in flight and dropped; the output channel is closed at most once; and at most one call
      of `stop` gets past the handshake. */
  lemma ChannelSafety(sts: seq<Step>, s: State)
    requires RunFrom(NEW, sts) == Some(s)
    ensures Conserved(s)
    ensures s.closes <= 1 && (s.out == Closed <==> s.closes == 1)
    ensures forall v, w :: Wins(s, v) && Wins(s, w) ==> v == w
  {
    ReachableOk(sts);
    if s.loop == Dead && exists w :: Wins(s, w) {
      var w :| Wins(s, w);
    }
  }

  lemma ClosedStays(s: State, st: Step)
    requires s.out == Closed && s.loop == Dead && Enabled(s, st)
    ensures var s' := Do(s, st);
      s'.out == Closed && s'.loop == Dead && s'.delivered == s.delivered && s'.closes == s.closes
  {
  }

  /** Once the output channel is closed it stays closed, and nothing is delivered any more. */
  lemma {:induction false} NothingAfterClose(s: State, sts: seq<Step>)
    requires s.out == Closed && s.loop == Dead && RunFrom(s, sts).Some?
    ensures var s' := RunFrom(s, sts).value;
      s'.out == Closed && s'.loop == Dead && s'.delivered == s.delivered && s'.closes == s.closes
  {
    hide Do, Enabled;
    if sts != [] {
      NothingAfterClose(s, sts[..|sts| - 1]);
      ClosedStays(RunFrom(s, sts[..|sts| - 1]).value, sts[|sts| - 1]);
    }
  }

  /** A goroutine that finds the output channel closed finds the channel inactive as well:
      the call of `stop` that it makes returns at once. */
  lemma PanicIsHarmless(sts: seq<Step>, s: State, m: nat)
    requires RunFrom(NEW, sts) == Some(s) && Enabled(s, Panic(m))
    ensures var s' := Do(s, Panic(m));
      && !s.active
      && Enabled(s', LooseStops(m)) && Do(s', LooseStops(m)) == s'.(loose := s'.loose - {m})
  {
    ReachableOk(sts);
    assert forall w :: !Wins(s, w);
  }

  // ----- What the steps of a run say -----

  /** The messages of the steps that hand one over, in order. */
  function Deliveries(sts: seq<Step>): seq<nat> {
    if sts == [] then []
    else
      var st := sts[|sts| - 1];
      Deliveries(sts[..|sts| - 1]) + if st.Deliver? then [st.m] else []
  }

  function Sends(sts: seq<Step>): nat {
    if sts == [] then 0 else Sends(sts[..|sts| - 1]) + if sts[|sts| - 1] == PubSend then 1 else 0
  }

  ghost predicate Tells(sts: seq<Step>, s: State) {
    && s.delivered == Deliveries(sts)
    && s.accepted == Sends(sts)
    && TellsDropped(sts, s) && TellsStart(sts, s) && Ready(s)
  }

  ghost predicate TellsDropped(sts: seq<Step>, s: State) {
    forall m :: m in s.dropped <==> Timeout(m) in sts || Panic(m) in sts
  }

  ghost predicate TellsStart(sts: seq<Step>, s: State) {
    s.loop == Unborn <==> Start !in sts
  }

  /** While the loop is live no goroutine has found the field unset. */
  ghost predicate Ready(s: State) {
    s.loop == Live ==> forall m :: m in s.inFlight ==> s.inFlight[m] != Waiting(false)
  }

  lemma OrderOneMore(sts: seq<Step>, s: State, st: Step)
    requires s.delivered == Deliveries(sts) && s.accepted == Sends(sts) && Enabled(s, st)
    ensures Do(s, st).delivered == Deliveries(sts + [st]) && Do(s, st).accepted == Sends(sts + [st])
  {
    assert (sts + [st])[..|sts|] == sts;
  }

  lemma DroppedOneMore(sts: seq<Step>, s: State, st: Step)
    requires TellsDropped(sts, s) && Enabled(s, st)
    ensures TellsDropped(sts + [st], Do(s, st))
  {
    DroppedBy(s, st);
    hide Do, Enabled;
    assert forall x :: x in sts + [st] <==> x in sts || x == st;
  }

  lemma DroppedBy(s: State, st: Step)
    requires Enabled(s, st)
    ensures forall m :: m in Do(s, st).dropped <==> m in s.dropped || st == Timeout(m) || st == Panic(m)
  {
  }

  lemma StartOneMore(sts: seq<Step>, s: State, st: Step)
    requires TellsStart(sts, s) && Enabled(s, st)
    ensures TellsStart(sts + [st], Do(s, st))
  {
    BornBy(s, st);
    hide Do, Enabled;
    assert forall x :: x in sts + [st] <==> x in sts || x == st;
  }

  lemma BornBy(s: State, st: Step)
    requires Enabled(s, st)
    ensures Do(s, st).loop == Unborn <==> s.loop == Unborn && st != Start
  {
  }

  lemma ReadyOneMore(s: State, st: Step)
    requires Ready(s) && Phases(s) && Young(s) && Enabled(s, st)
    ensures Ready(Do(s, st))
  {
    LiveHasOut(s);
    hide Phases;
  }

  lemma TellsOneMore(sts: seq<Step>, s: State, st: Step)
    requires Tells(sts, s) && Phases(s) && Young(s) && Enabled(s, st)
    ensures Tells(sts + [st], Do(s, st))
  {
    OrderOneMore(sts, s, st);
    DroppedOneMore(sts, s, st);
    StartOneMore(sts, s, st);
    ReadyOneMore(s, st);
    hide Do, Enabled, Phases, Young, Ready, TellsDropped, TellsStart;
  }

  lemma LiveHasOut(s: State)
    requires Phases(s)
    ensures s.loop == Live ==> s.hasOut && s.out == Open && s.active
  {
  }

  /** In every run the messages delivered are those of the steps that deliver one, in that order;
      the messages dropped are those that timed out or found the output closed; and the messages
      taken are as many as publishers handed over. */
  lemma {:induction false} HistoryTells(sts: seq<Step>, s: State)
    requires RunFrom(NEW, sts) == Some(s)
    ensures Tells(sts, s)
  {
    hide Tells, Phases, Conserved, Young, Do, Enabled;
    if sts == [] {
      NothingTold();
    } else {
      var init, st := sts[..|sts| - 1], sts[|sts| - 1];
      var r := RunFrom(NEW, init).value;
      HistoryTells(init, r);
      ReachableOk(init);
      AlwaysYoung(init, r);
      TellsOneMore(init, r, st);
      assert sts == init + [st];
    }
  }

  lemma NothingTold()
    ensures Tells([], NEW)
  {
  }

  /** While the loop is live, the goroutine of any message in flight can hand it over. */
  lemma LiveDelivers(sts: seq<Step>, s: State, m: nat)
    requires RunFrom(NEW, sts) == Some(s) && s.loop == Live && m in s.inFlight
    ensures var t := if s.inFlight[m] == Spawned then Do(s, Evaluate(m)) else s;
      && Enabled(t, Deliver(m))
      && Do(t, Deliver(m)).delivered == s.delivered + [m] && m !in Do(t, Deliver(m)).inFlight
  {
    HistoryTells(sts, s);
    ReachableOk(sts);
    LiveHasOut(s);
  }

  /** What the goroutine of a message in flight can do, exactly: look for the output; then give
      up, in any case, and hand the message over while the output is open, or panic when it is
      closed, if there was one when it looked. */
  lemma SenderSteps(s: State, m: nat)
    requires m in s.inFlight
    ensures Enabled(s, Evaluate(m)) <==> s.inFlight[m] == Spawned
    ensures s.inFlight[m].Waiting? ==> Enabled(s, Timeout(m))
    ensures Enabled(s, Deliver(m)) <==> s.inFlight[m] == Waiting(true) && s.out == Open
    ensures Enabled(s, Panic(m)) <==> s.inFlight[m] == Waiting(true) && s.out == Closed
  {
  }

  // ----- Progress under the lock -----

  /** Outside the lock `stop` is called only where it has nothing to do. */
  predicate Disciplined(s: State, st: Step) {
    match st
    case LooseStops(m) => m in s.loose && s.loose[m] == AtCheck ==> !s.active
    case _ => true
  }

  ghost predicate DisciplinedRun(sts: seq<Step>) {
    forall i :: 0 <= i < |sts| ==>
      var s := RunFrom(NEW, sts[..i]); s.Some? ==> Disciplined(s.value, sts[i])
  }

  /** An active channel has a loop, unless the holder of the lock is about to deactivate it;
      and whoever waits for the loop holds the lock and finds it. */
  ghost predicate Served(s: State) {
    && (forall m :: m in s.loose ==> s.loose[m] == AtCheck)
    && (s.active && s.lock != Stopping(AtDeactivate) ==> s.loop == Starting || s.loop == Live)
    && (s.lock == Publishing(AtSend) || s.lock == Stopping(AtHandshake) ==> s.active)
  }

  lemma StepKeepsServed(s: State, st: Step)
    requires Served(s) && Enabled(s, st) && Disciplined(s, st)
    ensures Served(Do(s, st))
  {
  }

  lemma {:induction false} AlwaysServed(sts: seq<Step>, s: State)
    requires RunFrom(NEW, sts) == Some(s) && DisciplinedRun(sts)
    ensures Served(s)
  {
    hide Served, Enabled, Do, Disciplined;
    if sts == [] {
      NewServed();
    } else {
      var init := sts[..|sts| - 1];
      var r := RunFrom(NEW, init).value;
      assert forall i :: 0 <= i < |init| ==> init[..i] == sts[..i];
      AlwaysServed(init, r);
      StepKeepsServed(r, sts[|sts| - 1]);
    }
  }

  lemma NewServed()
    ensures Served(NEW)
  {
  }

  /** The steps that the holder of the lock can take, or that it waits for. */
  function HolderStep(s: State): Step
    requires s.lock != Free
  {
    if s.loop == Starting && (s.lock == Publishing(AtSend) || s.lock == Stopping(AtHandshake)) then GoLive
    else match s.lock
      case Elsewhere => Release
      case Publishing(AtActive) => PubCheck
      case Publishing(AtSend) => PubSend
      case Stopping(_) => HolderStops
  }

  /** How far the holder is from giving the lock back. */
  function Rank(s: State): nat {
    (if s.loop == Starting then 1 else 0) +
    match s.lock
    case Free => 0
    case Elsewhere => 1
    case Publishing(AtActive) => 3
    case Publishing(AtSend) => 2
    case Stopping(AtCheck) => 5
    case Stopping(AtHandshake) => 4
    case Stopping(AtDeactivate) => 3
    case Stopping(AtClose) => 2
  }

  /** In a disciplined run an active channel has a live or starting loop whenever the lock is
      free, and the holder of the lock is never stuck: its next step is enabled and brings it
      closer to giving the lock back. */
  lemma HolderProgresses(sts: seq<Step>, s: State)
    requires RunFrom(NEW, sts) == Some(s) && DisciplinedRun(sts)
    ensures s.lock == Free && s.active ==> s.loop == Starting || s.loop == Live
    ensures s.lock != Free ==>
      && Enabled(s, HolderStep(s))
      && Disciplined(s, HolderStep(s))
      && Rank(Do(s, HolderStep(s))) < Rank(s)
  {
    AlwaysServed(sts, s);
  }

  // ----- A timeout outside the lock can block it for good -----

  /** The holder of the lock is about to look whether the channel is active. */
  predicate Asks(l: Lock) {
    l == Publishing(AtActive) || l == Stopping(AtCheck)
  }

  /** It waits for the loop: to take a message or to take the stop. */
  predicate Waits(l: Lock) {
    l == Publishing(AtSend) || l == Stopping(AtHandshake)
  }

  predicate Blocked(s: State) {
    Waits(s.lock) && s.loop == Dead
  }

  /** Whoever waits for a loop that has ended keeps the lock in every continuation. */
  lemma {:induction false} StuckForGood(s: State, sts: seq<Step>)
    requires Blocked(s) && RunFrom(s, sts).Some?
    ensures Blocked(RunFrom(s, sts).value) && RunFrom(s, sts).value.lock == s.lock
  {
    if sts != [] {
      StuckForGood(s, sts[..|sts| - 1]);
    }
  }

  lemma RunOn(s: State, sts: seq<Step>, st: Step)
    requires RunFrom(s, sts).Some? && Enabled(RunFrom(s, sts).value, st)
    ensures RunFrom(s, sts + [st]) == Some(Do(RunFrom(s, sts).value, st))
  {
    assert (sts + [st])[..|sts|] == sts;
  }

  lemma EmptyRun(s: State)
    ensures RunFrom(s, []) == Some(s)
  {
  }

  lemma BornStays(s: State, st: Step)
    requires Phases(s) && Enabled(s, st) && (Waits(s.lock) ==> s.loop != Unborn)
    ensures Waits(Do(s, st).lock) ==> Do(s, st).loop != Unborn
  {
  }

  /** The holder waits only on a channel that was started. */
  lemma {:induction false} LoopBorn(sts: seq<Step>, s: State)
    requires RunFrom(NEW, sts) == Some(s)
    ensures Waits(s.lock) ==> s.loop != Unborn
  {
    hide Do, Enabled, Phases;
    if sts != [] {
      var r := RunFrom(NEW, sts[..|sts| - 1]).value;
      LoopBorn(sts[..|sts| - 1], r);
      ReachableOk(sts[..|sts| - 1]);
      BornStays(r, sts[|sts| - 1]);
    }
  }

  /** A waiting publisher can be served in some continuation exactly when the loop has not
      ended. */
  lemma WaitingPublisher(sts: seq<Step>, s: State)
    requires RunFrom(NEW, sts) == Some(s) && s.lock == Publishing(AtSend)
    ensures s.loop != Dead <==>
      exists more :: RunFrom(s, more).Some? && RunFrom(s, more).value.lock == Elsewhere
  {
    hide RunFrom;
    if s.loop == Dead {
      forall more | RunFrom(s, more).Some?
        ensures RunFrom(s, more).value.lock != Elsewhere
      {
        StuckForGood(s, more);
      }
    } else {
      LoopBorn(sts, s);
      EmptyRun(s);
      if s.loop == Starting {
        RunOn(s, [], GoLive);
        RunOn(s, [] + [GoLive], PubSend);
      } else {
        RunOn(s, [], PubSend);
      }
    }
  }

  // ----- When a publication is safe from that -----

  /** Before the loop is live nothing has been taken. */
  ghost predicate Young(s: State) {
    s.loop == Unborn || s.loop == Starting ==> s.inFlight == map[] && s.loose == map[]
  }

  lemma {:induction false} AlwaysYoung(sts: seq<Step>, s: State)
    requires RunFrom(NEW, sts) == Some(s)
    ensures Young(s)
  {
    hide Do, Enabled, Young, Phases, Conserved;
    if sts == [] {
      YoungStep(NEW, Acquire);
    } else {
      var r := RunFrom(NEW, sts[..|sts| - 1]).value;
      AlwaysYoung(sts[..|sts| - 1], r);
      YoungStep(r, sts[|sts| - 1]);
    }
  }

  lemma YoungStep(s: State, st: Step)
    ensures Young(NEW)
    ensures Young(s) && Enabled(s, st) ==> Young(Do(s, st))
  {
  }

  /** What can happen until the call of the lock's holder is through with this channel. */
  predicate DuringCall(st: Step) {
    match st
    case PubCheck | PubSend | HolderStops | Start | GoLive => true
    case Evaluate(_) | Deliver(_) | Panic(_) | Timeout(_) | LooseStops(_) => true
    case _ => false
  }

  ghost predicate CanBlock(s: State) {
    exists more :: RunFrom(s, more).Some? && (forall i :: 0 <= i < |more| ==> DuringCall(more[i]))
                   && Blocked(RunFrom(s, more).value)
  }

  /** A message under way, or a goroutine that is about to stop the channel. */
  predicate Pending(s: State) {
    s.inFlight != map[] || s.loose != map[]
  }

  /** The holder is through, or it finds nobody else who could end the loop, or it finds the
      channel inactive. */
  predicate Calm(s: State) {
    || s.lock == Elsewhere || s.lock == Stopping(AtDeactivate) || s.lock == Stopping(AtClose)
    || ((Asks(s.lock) || Waits(s.lock))
        && (Waits(s.lock) ==> s.loop != Dead)
        && ((!Pending(s) && (s.active ==> s.loop != Dead)) || (!s.active && s.loop == Dead)))
  }

  lemma CalmStep(s: State, st: Step)
    requires Calm(s) && Enabled(s, st) && DuringCall(st)
    ensures Calm(Do(s, st))
  {
  }

  lemma {:induction false} CalmRun(s: State, more: seq<Step>)
    requires Calm(s) && RunFrom(s, more).Some? && forall i :: 0 <= i < |more| ==> DuringCall(more[i])
    ensures Calm(RunFrom(s, more).value)
  {
    hide Calm, Do, Enabled;
    if more != [] {
      CalmRun(s, more[..|more| - 1]);
      CalmStep(RunFrom(s, more[..|more| - 1]).value, more[|more| - 1]);
    }
  }

  lemma CanBlockBefore(s: State, st: Step)
    requires Enabled(s, st) && DuringCall(st) && CanBlock(Do(s, st))
    ensures CanBlock(s)
  {
    var more :| RunFrom(Do(s, st), more).Some? && (forall i :: 0 <= i < |more| ==> DuringCall(more[i]))
                && Blocked(RunFrom(Do(s, st), more).value);
    RunThen(s, st, more);
    assert Blocked(RunFrom(s, [st] + more).value);
  }

  lemma {:induction false} RunThen(s: State, st: Step, more: seq<Step>)
    requires Enabled(s, st)
    ensures RunFrom(s, [st] + more) == RunFrom(Do(s, st), more)
  {
    hide Do, Enabled;
    if more == [] {
      assert [st] + more == [st] && [st][..0] == [];
      EmptyRun(s);
    } else {
      var n := |more| - 1;
      assert ([st] + more)[..n + 1] == [st] + more[..n] && ([st] + more)[n + 1] == more[n];
      RunThen(s, st, more[..n]);
    }
  }

  lemma CanBlockNow(s: State)
    requires Blocked(s)
    ensures CanBlock(s)
  {
    EmptyRun(s);
  }

  /** A goroutine on its way to stop an active channel ends the loop. */
  lemma LooseBlocks(s: State, m: nat)
    requires Waits(s.lock) && s.loop == Live && s.active
    requires m in s.loose && (s.loose[m] == AtCheck || s.loose[m] == AtHandshake)
    ensures CanBlock(s)
  {
    hide CanBlock, RunFrom;
    if s.loose[m] == AtHandshake {
      CanBlockNow(Do(s, LooseStops(m)));
      CanBlockBefore(s, LooseStops(m));
    } else {
      var t := Do(s, LooseStops(m));
      CanBlockNow(Do(t, LooseStops(m)));
      CanBlockBefore(t, LooseStops(m));
      CanBlockBefore(s, LooseStops(m));
    }
  }

  lemma InFlightBlocks(s: State, m: nat)
    requires Waits(s.lock) && s.loop == Live && s.active && m in s.inFlight
    ensures CanBlock(s)
  {
    hide CanBlock, RunFrom;
    var w := if s.inFlight[m] == Spawned then Do(s, Evaluate(m)) else s;
    var t := Do(w, Timeout(m));
    LooseBlocks(t, m);
    CanBlockBefore(w, Timeout(m));
    if s.inFlight[m] == Spawned {
      CanBlockBefore(s, Evaluate(m));
    }
  }

  lemma PendingBlocks(s: State)
    requires Phases(s) && Waits(s.lock) && s.loop == Live && Pending(s)
    ensures CanBlock(s)
  {
    hide CanBlock;
    if s.inFlight != map[] {
      var m :| m in s.inFlight;
      InFlightBlocks(s, m);
    } else {
      var m :| m in s.loose;
      assert !Wins(s, Loose(m, s.loose[m]));
      LooseBlocks(s, m);
    }
  }

  lemma WaitingBlockedExactly(s: State)
    requires Phases(s) && Young(s) && Waits(s.lock) && s.loop != Unborn
    ensures CanBlock(s) <==> s.loop == Dead || Pending(s)
  {
    if s.loop == Dead {
      CanBlockNow(s);
    } else if Pending(s) {
      PendingBlocks(s);
    } else {
      CalmNeverBlocks(s);
    }
  }

  /** Whether a call that holds the lock, a publication or a stop, can get stuck for good on
      this channel, by what other goroutines do meanwhile: before it looks whether the channel
      is active, exactly if it is active with a message in flight or a `stop` under way; when
      it waits for the loop, exactly if the loop has ended or one of these is there. */
  lemma HolderCanBlockExactly(sts: seq<Step>, s: State)
    requires RunFrom(NEW, sts) == Some(s) && (Asks(s.lock) || Waits(s.lock))
    ensures CanBlock(s) <==> if Asks(s.lock) then s.active && Pending(s) else s.loop == Dead || Pending(s)
  {
    hide RunFrom, CanBlock;
    ReachableOk(sts);
    AlwaysYoung(sts, s);
    LoopBorn(sts, s);
    if Waits(s.lock) {
      WaitingBlockedExactly(s);
    } else if s.active && Pending(s) {
      AskingBlocks(s);
    } else {
      CalmAtCheck(s);
      CalmNeverBlocks(s);
    }
  }

  lemma AskingBlocks(s: State)
    requires Phases(s) && Conserved(s) && Young(s) && Asks(s.lock) && s.active && Pending(s)
    ensures CanBlock(s)
  {
    hide RunFrom, CanBlock, Conserved;
    var check := if s.lock.Publishing? then PubCheck else HolderStops;
    var t := Do(s, check);
    ActiveIsBorn(s);
    StepKeepsPhases(s, check);
    WaitingBlockedExactly(t);
    CanBlockBefore(s, check);
  }

  lemma ActiveIsBorn(s: State)
    requires Phases(s) && s.active
    ensures s.loop != Unborn
  {
  }

  lemma CalmAtCheck(s: State)
    requires Phases(s) && Young(s) && Asks(s.lock) && !(s.active && Pending(s))
    ensures Calm(s)
  {
  }

  lemma CalmNeverBlocks(s: State)
    requires Calm(s)
    ensures !CanBlock(s)
  {
    forall more | RunFrom(s, more).Some? && forall i :: 0 <= i < |more| ==> DuringCall(more[i])
      ensures !Blocked(RunFrom(s, more).value)
    {
      CalmRun(s, more);
    }
  }

  /** Such a state is reachable: a message times out, its `stop` finds the channel active, a
      publisher does so too, and then the loop takes the handshake. */
  lemma TimeoutCanBlockTheTopic() returns (sts: seq<Step>)
    ensures RunFrom(NEW, sts).Some?
    ensures var s := RunFrom(NEW, sts).value; s.lock == Publishing(AtSend) && s.loop == Dead
  {
    hide RunFrom;
    sts := [];
    EmptyRun(NEW);
    RunOn(NEW, sts, Start);            sts := sts + [Start];
    RunOn(NEW, sts, GoLive);           sts := sts + [GoLive];
    RunOn(NEW, sts, Acquire);          sts := sts + [Acquire];
    RunOn(NEW, sts, EnterPub);         sts := sts + [EnterPub];
    RunOn(NEW, sts, PubCheck);         sts := sts + [PubCheck];
    RunOn(NEW, sts, PubSend);          sts := sts + [PubSend];
    RunOn(NEW, sts, Evaluate(0));      sts := sts + [Evaluate(0)];
    RunOn(NEW, sts, Timeout(0));       sts := sts + [Timeout(0)];
    RunOn(NEW, sts, LooseStops(0));    sts := sts + [LooseStops(0)];
    RunOn(NEW, sts, EnterPub);         sts := sts + [EnterPub];
    RunOn(NEW, sts, PubCheck);         sts := sts + [PubCheck];
    RunOn(NEW, sts, LooseStops(0));    sts := sts + [LooseStops(0)];
  }

  /** The holder of the lock publishes a message and stops the channel while another one is on its
      way: the first is delivered, the goroutine of the second finds the output closed. */
  lemma StopOvertakesAMessage() returns (sts: seq<Step>)
    ensures RunFrom(NEW, sts).Some?
    ensures var s := RunFrom(NEW, sts).value;
      && s.lock == Free && !s.active && s.out == Closed && s.closes == 1 && s.loop == Dead
      && s.delivered == [0] && s.dropped == {1} && s.inFlight == map[] && s.accepted == 2
  {
    hide RunFrom;
    sts := [];
    EmptyRun(NEW);
    RunOn(NEW, sts, Start);         sts := sts + [Start];
    RunOn(NEW, sts, GoLive);        sts := sts + [GoLive];
    RunOn(NEW, sts, Acquire);       sts := sts + [Acquire];
    sts := OnePublication(sts);
    sts := OnePublication(sts);
    var s := RunFrom(NEW, sts).value;
    assert s == State(true, true, Open, Live, Elsewhere, map[], 2, map[0 := Spawned, 1 := Spawned], [], {}, 0);
    sts := DeliverFirst(sts);
    sts := StopInBetween(sts);
  }

  lemma OnePublication(sts: seq<Step>) returns (sts': seq<Step>)
    requires RunFrom(NEW, sts).Some?
    requires var s := RunFrom(NEW, sts).value; s.lock == Elsewhere && s.active && s.loop == Live
    ensures RunFrom(NEW, sts').Some?
    ensures var s := RunFrom(NEW, sts).value;
      RunFrom(NEW, sts').value == s.(accepted := s.accepted + 1, inFlight := s.inFlight[s.accepted := Spawned])
  {
    hide RunFrom;
    sts' := sts;
    RunOn(NEW, sts', EnterPub);     sts' := sts' + [EnterPub];
    RunOn(NEW, sts', PubCheck);     sts' := sts' + [PubCheck];
    RunOn(NEW, sts', PubSend);      sts' := sts' + [PubSend];
  }

  lemma DeliverFirst(sts: seq<Step>) returns (sts': seq<Step>)
    requires RunFrom(NEW, sts) ==
      Some(State(true, true, Open, Live, Elsewhere, map[], 2, map[0 := Spawned, 1 := Spawned], [], {}, 0))
    ensures RunFrom(NEW, sts') ==
      Some(State(true, true, Open, Live, Elsewhere, map[], 2, map[1 := Waiting(true)], [0], {}, 0))
  {
    hide RunFrom;
    sts' := sts;
    RunOn(NEW, sts', Evaluate(0));  sts' := sts' + [Evaluate(0)];
    RunOn(NEW, sts', Deliver(0));   sts' := sts' + [Deliver(0)];
    RunOn(NEW, sts', Evaluate(1));  sts' := sts' + [Evaluate(1)];
    assert RunFrom(NEW, sts').value.inFlight == map[1 := Waiting(true)] && [] + [0] == [0];
  }

  /** A stop of an active channel by the holder of the lock, step by step. */
  lemma StopSteps(s: State)
    requires s.lock == Elsewhere && s.active && s.hasOut && s.out == Open && s.loop == Live
    ensures var s1 := s.(lock := Stopping(AtCheck));
      var s2 := s.(lock := Stopping(AtHandshake));
      var s3 := s.(lock := Stopping(AtDeactivate), loop := Dead);
      var s4 := s.(lock := Stopping(AtClose), loop := Dead, active := false);
      var s5 := s.(loop := Dead, active := false, hasOut := false, out := Closed, closes := s.closes + 1);
      && Enabled(s, EnterStop) && Do(s, EnterStop) == s1
      && Enabled(s1, HolderStops) && Do(s1, HolderStops) == s2
      && Enabled(s2, HolderStops) && Do(s2, HolderStops) == s3
      && Enabled(s3, HolderStops) && Do(s3, HolderStops) == s4
      && Enabled(s4, HolderStops) && Do(s4, HolderStops) == s5
  {
  }

  lemma StopInBetween(sts: seq<Step>) returns (sts': seq<Step>)
    requires RunFrom(NEW, sts) ==
      Some(State(true, true, Open, Live, Elsewhere, map[], 2, map[1 := Waiting(true)], [0], {}, 0))
    ensures RunFrom(NEW, sts').Some?
    ensures var s := RunFrom(NEW, sts').value;
      && s.lock == Free && !s.active && s.out == Closed && s.closes == 1 && s.loop == Dead
      && s.delivered == [0] && s.dropped == {1} && s.inFlight == map[] && s.accepted == 2
  {
    hide RunFrom;
    sts' := RunStop(sts);
    RunOn(NEW, sts', Panic(1));
    sts' := sts' + [Panic(1)];
    RunOn(NEW, sts', Release);
    sts' := sts' + [Release];
  }

  lemma RunStop(sts: seq<Step>) returns (sts': seq<Step>)
    requires RunFrom(NEW, sts).Some?
    requires var s := RunFrom(NEW, sts).value;
      s.lock == Elsewhere && s.active && s.hasOut && s.out == Open && s.loop == Live
    ensures var s := RunFrom(NEW, sts).value;
      RunFrom(NEW, sts') ==
        Some(s.(loop := Dead, active := false, hasOut := false, out := Closed, closes := s.closes + 1))
  {
    hide RunFrom, Do, Enabled;
    StopSteps(RunFrom(NEW, sts).value);
    sts' := sts;
    RunOn(NEW, sts', EnterStop);    sts' := sts' + [EnterStop];
    RunOn(NEW, sts', HolderStops);  sts' := sts' + [HolderStops];
    RunOn(NEW, sts', HolderStops);  sts' := sts' + [HolderStops];
    RunOn(NEW, sts', HolderStops);  sts' := sts' + [HolderStops];
    RunOn(NEW, sts', HolderStops);  sts' := sts' + [HolderStops];
  }
}
