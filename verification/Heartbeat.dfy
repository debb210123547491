/** The heartbeat between two connected nodes (booster/booster.go, booster/handlers.go,
    booster/network.go). The dialling side sends the first message; each side holds a message
    until its deadline and then sends it back with a new one. Only the dialling side has a
    timer: the accepting side handles a bare connection that carries none. Time is an integer,
    the clocks of the two sides run at the same rate with a constant offset. */
module Heartbeat {
  import opened Streams

  datatype Peer = Dialler | Acceptor

  function Other(p: Peer): Peer {
    if p == Dialler then Acceptor else Dialler
  }

  /** `ttl` is the HeartbeatTTL of both sides, `maxDelay` bounds the delay of a hop. */
  datatype Config = Config(ttl: nat, maxDelay: nat, diallerOffset: int, acceptorOffset: int)

  function Clock(c: Config, p: Peer, now: int): int {
    now + if p == Dialler then c.diallerOffset else c.acceptorOffset
  }

  /** By how much the accepting side's clock is ahead. */
  function Skew(c: Config): int {
    c.acceptorOffset - c.diallerOffset
  }

  datatype Payload = Payload(hops: int, deadline: int)

  datatype Message = Message(from: Peer, sentAt: int, payload: Payload)

  datatype Status = Open | TimedOut(at: int) | Expired(at: int)

  /** `status` is that of the dialling side. The accepting side closes its end only when a
      message reaches it too late: at `farExpired`, if that happened. The other side does not
      close its own end then: it goes on until its timer fires. `timer` is when that is, if it
      is running; `sends` counts the messages of both sides, `turns` those of the dialling
      side, the last of them sent at `lastSend`. */
  datatype State = State(
    now: int,
    wire: seq<Message>,
    held: map<Peer, Payload>,
    timer: Option<int>,
    status: Status,
    farExpired: Option<int>,
    sends: nat,
    turns: nat,
    lastSend: int)

  /** What a conversion to int32 makes of a number. */
  function Wrap32(n: int): (r: int)
    ensures -0x8000_0000 <= r < 0x8000_0000 && (r - n) % 0x1_0000_0000 == 0
  {
    (n + 0x8000_0000) % 0x1_0000_0000 - 0x8000_0000
  }

  /** `composeHeartbeat`, followed by the encoding of the hop counter. */
  function Compose(c: Config, p: Peer, now: int, hops: int): Payload {
    Payload(Wrap32(hops + 1), Clock(c, p, now) + c.ttl)
  }

  /** `Wire`: the first message is sent and the timer started. */
  function Wired(c: Config): State {
    State(0, [Message(Dialler, 0, Compose(c, Dialler, 0, 0))], map[], Some(2 * c.ttl), Open, None, 1, 1, 0)
  }

  datatype Step =
    | Tick(d: nat)
    | Deliver(i: nat)
    | Resend(p: Peer)
    | Fire
    | Lose(i: nat)
    | Crash

  /** Time does not pass by a delivery, a deadline or a timer that is due. */
  predicate MayPass(c: Config, s: State, now: int) {
    && (forall i :: 0 <= i < |s.wire| ==> now <= s.wire[i].sentAt + c.maxDelay)
    && (forall p :: p in s.held ==> Clock(c, p, now) <= s.held[p].deadline)
    && (s.timer.Some? ==> now <= s.timer.value)
  }

  predicate Enabled(c: Config, s: State, st: Step) {
    s.status.Open? &&
    match st
    case Tick(d) => MayPass(c, s, s.now + d)
    case Deliver(i) =>
      i < |s.wire| && Other(s.wire[i].from) !in s.held && (s.wire[i].from == Dialler ==> s.farExpired == None)
    case Resend(p) =>
      p in s.held && s.held[p].deadline <= Clock(c, p, s.now) && (p == Acceptor ==> s.farExpired == None)
    case Fire => s.timer.Some? && s.timer.value <= s.now
    case Lose(i) => i < |s.wire|
    case Crash => Acceptor in s.held
  }

  function Do(c: Config, s: State, st: Step): State
    requires Enabled(c, s, st)
  {
    match st
    case Tick(d) => s.(now := s.now + d)
    case Deliver(i) =>
      var m := s.wire[i];
      var p := Other(m.from);
      var wire := s.wire[..i] + s.wire[i + 1..];
      if m.payload.deadline < Clock(c, p, s.now) then
        if p == Dialler then s.(wire := wire, status := Expired(s.now))
        else s.(wire := wire, farExpired := Some(s.now))
      else s.(wire := wire, held := s.held[p := m.payload],
              timer := if p == Dialler then None else s.timer)
    case Resend(p) =>
      var m := Message(p, s.now, Compose(c, p, s.now, s.held[p].hops));
      var s' := s.(wire := s.wire + [m], held := s.held - {p}, sends := s.sends + 1);
      if p == Dialler then
        s'.(timer := Some(s.now + 2 * c.ttl), turns := s.turns + 1, lastSend := s.now)
      else s'
    case Fire => s.(timer := None, status := TimedOut(s.now))
    case Lose(i) => s.(wire := s.wire[..i] + s.wire[i + 1..])
    case Crash => s.(held := s.held - {Acceptor})
  }

  function Run(c: Config, sts: seq<Step>): Option<State> {
    if sts == [] then Some(Wired(c))
    else
      var s := Run(c, sts[..|sts| - 1]);
      if s.Some? && Enabled(c, s.value, sts[|sts| - 1]) then Some(Do(c, s.value, sts[|sts| - 1]))
      else None
  }

  predicate Lossless(sts: seq<Step>) {
    forall i :: 0 <= i < |sts| ==> !sts[i].Lose? && !sts[i].Crash?
  }

  /** On either hop, delay and skew together stay within the TTL. */
  predicate Timely(c: Config) {
    c.maxDelay + Skew(c) <= c.ttl && c.maxDelay - Skew(c) < c.ttl
  }

  /** Neither side has closed its end. */
  predicate Up(s: State) {
    s.status == Open && s.farExpired == None
  }

  /** How many tokens there are, in flight or held. */
  function Tokens(s: State): nat {
    |s.wire| + |s.held|
  }

  // ----- What holds while the token is there -----

  /** When the dialling side sends its `turn`-th message: every two TTLs, from time 0. */
  function RoundStart(c: Config, turn: int): int {
    2 * c.ttl * (turn - 1)
  }

  lemma NextRound(c: Config, turn: int)
    ensures RoundStart(c, turn + 1) == RoundStart(c, turn) + 2 * c.ttl
  {
  }

  /** One token, and where it is tells how far the current round has got. */
  ghost predicate Beating(c: Config, s: State) {
    var t, at := s.lastSend, s.lastSend + c.ttl - Skew(c);
    var d := Clock(c, Dialler, t);
    && Up(s)
    && Tokens(s) == 1
    && t == RoundStart(c, s.turns)
    && if s.wire != [] then
         var m := s.wire[0];
         && s.held == map[]
         && m.payload.hops == Wrap32(s.sends)
         && s.timer == Some(t + 2 * c.ttl)
         && m.sentAt <= s.now <= m.sentAt + c.maxDelay
         && if m.from == Dialler then
              m.sentAt == t && m.payload.deadline == d + c.ttl && s.sends == 2 * s.turns - 1
            else
              m.sentAt == at && m.payload.deadline == d + 2 * c.ttl && s.sends == 2 * s.turns
       else if Acceptor in s.held then
         var h := s.held[Acceptor];
         && h == Payload(Wrap32(s.sends), d + c.ttl)
         && s.timer == Some(t + 2 * c.ttl)
         && t <= s.now <= at && s.sends == 2 * s.turns - 1
       else
         && Dialler in s.held
         && s.held[Dialler] == Payload(Wrap32(s.sends), d + 2 * c.ttl)
         && s.timer == None
         && s.now <= t + 2 * c.ttl && s.sends == 2 * s.turns
  }

  lemma OneHeld(s: State, p: Peer)
    requires |s.held| == 1 && p in s.held
    ensures s.held.Keys == {p} && Other(p) !in s.held && s.held - {p} == map[]
  {
    assert |s.held.Keys - {p}| == 0;
  }

  lemma WrapAgain(n: int)
    ensures Wrap32(Wrap32(n) + 1) == Wrap32(n + 1)
  {
  }

  lemma DeliverKeepsBeating(c: Config, s: State, i: nat)
    requires Timely(c) && Beating(c, s) && Enabled(c, s, Deliver(i))
    ensures Beating(c, Do(c, s, Deliver(i)))
  {
    hide Wrap32, RoundStart;
    assert s.wire[..0] + s.wire[1..] == [];
  }

  lemma ResendKeepsBeating(c: Config, s: State, p: Peer)
    requires Timely(c) && Beating(c, s) && Enabled(c, s, Resend(p))
    ensures Beating(c, Do(c, s, Resend(p)))
  {
    WrapAgain(s.sends);
    NextRound(c, s.turns);
    hide Wrap32, RoundStart;
    OneHeld(s, p);
  }

  lemma StepKeepsBeating(c: Config, s: State, st: Step)
    requires Timely(c) && Beating(c, s) && Enabled(c, s, st) && !st.Lose? && !st.Crash?
    ensures Beating(c, Do(c, s, st))
  {
    hide Wrap32, RoundStart;
    match st
    case Deliver(i) => DeliverKeepsBeating(c, s, i);
    case Resend(p) => ResendKeepsBeating(c, s, p);
    case Tick(_) =>
    case Fire =>
  }

  lemma WiredBeats(c: Config)
    ensures Beating(c, Wired(c))
  {
  }

  /** Without loss and with timely hops, in every reachable state the connection is open,
      there is exactly one token, the dialling side has sent at exact intervals of twice the
      TTL, and the hop counter on the wire is the number of messages both sides have sent. */
  lemma {:induction false} AlwaysBeating(c: Config, sts: seq<Step>)
    requires Timely(c) && Lossless(sts) && Run(c, sts).Some?
    ensures Beating(c, Run(c, sts).value)
  {
    hide Enabled, Do, Beating;
    if sts == [] {
      WiredBeats(c);
    } else {
      AlwaysBeating(c, sts[..|sts| - 1]);
      StepKeepsBeating(c, Run(c, sts[..|sts| - 1]).value, sts[|sts| - 1]);
    }
  }

  /** What a reader of `Beating` gets: neither the expiry check nor the timer ever closes the
      connection, and nothing drifts. */
  lemma HeartbeatSafety(c: Config, sts: seq<Step>)
    requires Timely(c) && Lossless(sts) && Run(c, sts).Some?
    ensures var s := Run(c, sts).value;
      && Up(s)
      && Tokens(s) == 1
      && s.lastSend == RoundStart(c, s.turns)
      && s.sends == (if (s.wire != [] && s.wire[0].from == Dialler) || Acceptor in s.held
                     then 2 * s.turns - 1 else 2 * s.turns)
      && !Enabled(c, s, Fire)
  {
    AlwaysBeating(c, sts);
    var s := Run(c, sts).value;
    if s.wire == [] {
      OneHeld(s, if Acceptor in s.held then Acceptor else Dialler);
    }
  }

  // ----- Timeliness is needed -----

  lemma RunOn(c: Config, sts: seq<Step>, st: Step)
    requires Run(c, sts).Some? && Enabled(c, Run(c, sts).value, st)
    ensures Run(c, sts + [st]) == Some(Do(c, Run(c, sts).value, st))
  {
    assert (sts + [st])[..|sts|] == sts;
  }

  /** If the first hop may be too slow, a run without loss closes the connection. */
  lemma FirstHopLate(c: Config) returns (sts: seq<Step>)
    requires c.maxDelay + Skew(c) > c.ttl
    ensures Lossless(sts) && Run(c, sts).Some? && !Up(Run(c, sts).value)
  {
    hide Run;
    var d := if c.maxDelay < 2 * c.ttl then c.maxDelay else 2 * c.ttl;
    var last := if c.maxDelay < 2 * c.ttl then Deliver(0) else Fire;
    WiredRuns(c);
    RunOn(c, [], Tick(d));
    RunOn(c, [] + [Tick(d)], last);
    sts := [] + [Tick(d)] + [last];
  }

  lemma WiredRuns(c: Config)
    ensures Run(c, []) == Some(Wired(c))
  {
  }

  /** If the hop back may be too slow, the timer closes the connection in a run without loss. */
  lemma HopBackLate(c: Config) returns (sts: seq<Step>)
    requires c.maxDelay + Skew(c) <= c.ttl && c.maxDelay - Skew(c) >= c.ttl
    ensures Lossless(sts) && Run(c, sts).Some? && !Up(Run(c, sts).value)
  {
    hide Run;
    WiredRuns(c);
    RunOn(c, [], Deliver(0));
    sts := [] + [Deliver(0)];
    var wait := c.ttl - Skew(c);
    if wait < 2 * c.ttl {
      RunOn(c, sts, Tick(wait));
      sts := sts + [Tick(wait)];
      RunOn(c, sts, Resend(Acceptor));
      sts := sts + [Resend(Acceptor)];
      wait := 2 * c.ttl - wait;
    } else {
      wait := 2 * c.ttl;
    }
    RunOn(c, sts, Tick(wait));
    sts := sts + [Tick(wait)];
    RunOn(c, sts, Fire);
    sts := sts + [Fire];
  }

  /** No run without loss closes the connection exactly when every hop is timely. */
  lemma SafeExactlyWhenTimely(c: Config)
    ensures Timely(c) <==>
      forall sts :: Lossless(sts) && Run(c, sts).Some? ==> Up(Run(c, sts).value)
  {
    if Timely(c) {
      forall sts | Lossless(sts) && Run(c, sts).Some?
        ensures Up(Run(c, sts).value)
      {
        AlwaysBeating(c, sts);
      }
    } else if c.maxDelay + Skew(c) > c.ttl {
      var sts := FirstHopLate(c);
    } else {
      var sts := HopBackLate(c);
    }
  }

  // ----- Every run, late, lossy or neither -----

  lemma WrapSmall(n: nat)
    requires n < 0x8000_0000
    ensures Wrap32(n) == n
  {
  }

  /** Whatever is late or lost: there is at most one token; it carries the number of messages
      sent; and the timer is the one that the dialling side set with its last message, until
      it gets the token back. */
  ghost predicate Sound(c: Config, s: State) {
    var due := s.lastSend + 2 * c.ttl;
    && Tokens(s) <= 1 && s.lastSend <= s.now
    && (forall i :: 0 <= i < |s.wire| ==> s.wire[i].payload.hops == Wrap32(s.sends))
    && (forall p :: p in s.held ==> s.held[p].hops == Wrap32(s.sends))
    && (s.farExpired.Some? || s.status.Expired? ==> Tokens(s) == 0)
    && match s.status
       case Open => if Dialler in s.held then s.timer == None else s.timer == Some(due) && s.now <= due
       case TimedOut(at) => at == due
       case Expired(_) => true
  }

  lemma NoToken(s: State)
    requires Tokens(s) == 0
    ensures s.wire == [] && s.held == map[]
  {
  }

  lemma DeliverKeepsSound(c: Config, s: State, i: nat)
    requires Sound(c, s) && Enabled(c, s, Deliver(i))
    ensures Sound(c, Do(c, s, Deliver(i)))
  {
    hide Wrap32;
    assert |s.held| == 0 && s.held == map[] && |s.wire| == 1;
    assert s.wire[..0] + s.wire[1..] == [];
  }

  lemma ResendKeepsSound(c: Config, s: State, p: Peer)
    requires Sound(c, s) && Enabled(c, s, Resend(p))
    ensures Sound(c, Do(c, s, Resend(p)))
  {
    WrapAgain(s.sends);
    hide Wrap32;
    assert |s.held.Keys - {p}| == |s.held| - 1;
    OneHeld(s, p);
  }

  lemma LossKeepsSound(c: Config, s: State, st: Step)
    requires Sound(c, s) && Enabled(c, s, st) && (st.Lose? || st.Crash?)
    ensures Sound(c, Do(c, s, st))
  {
    hide Wrap32;
    if st.Lose? {
      assert |s.held| == 0 && s.wire[..0] + s.wire[1..] == [];
    } else {
      assert |s.held.Keys - {Acceptor}| == |s.held| - 1;
      OneHeld(s, Acceptor);
    }
  }

  lemma TimeKeepsSound(c: Config, s: State, st: Step)
    requires Sound(c, s) && Enabled(c, s, st) && (st.Tick? || st.Fire?)
    ensures Sound(c, Do(c, s, st))
  {
    hide Wrap32;
  }

  lemma StepKeepsSound(c: Config, s: State, st: Step)
    requires Sound(c, s) && Enabled(c, s, st)
    ensures Sound(c, Do(c, s, st))
  {
    hide Sound, Enabled, Do;
    match st
    case Deliver(i) => DeliverKeepsSound(c, s, i);
    case Resend(p) => ResendKeepsSound(c, s, p);
    case Lose(_) | Crash => LossKeepsSound(c, s, st);
    case Tick(_) | Fire => TimeKeepsSound(c, s, st);
  }

  lemma WiredSound(c: Config)
    ensures Sound(c, Wired(c))
  {
  }

  lemma {:induction false} AlwaysSound(c: Config, sts: seq<Step>)
    requires Run(c, sts).Some?
    ensures Sound(c, Run(c, sts).value)
  {
    hide Enabled, Do, Sound;
    if sts == [] {
      WiredSound(c);
    } else {
      AlwaysSound(c, sts[..|sts| - 1]);
      StepKeepsSound(c, Run(c, sts[..|sts| - 1]).value, sts[|sts| - 1]);
    }
  }

  /** In every run the hop counter is the number of messages that both sides have sent, as far
      as the wire can carry it, and exactly so below that range. */
  lemma HopsExact(c: Config, sts: seq<Step>)
    requires Run(c, sts).Some?
    ensures var s := Run(c, sts).value;
      && (forall i :: 0 <= i < |s.wire| ==> s.wire[i].payload.hops == Wrap32(s.sends))
      && (forall p :: p in s.held ==> s.held[p].hops == Wrap32(s.sends))
      && (s.sends < 0x8000_0000 ==> Wrap32(s.sends) == s.sends)
  {
    AlwaysSound(c, sts);
    hide Wrap32, Sound;
    var s := Run(c, sts).value;
    if s.sends < 0x8000_0000 {
      WrapSmall(s.sends);
    }
  }

  // ----- Loss -----

  /** The token is gone. The dialling side closes the connection when the timer that it
      started with its last message runs out, and nothing closes it before. */
  ghost predicate Silent(c: Config, s: State) {
    var due := s.lastSend + 2 * c.ttl;
    && Tokens(s) == 0
    && ((s.status == Open && s.timer == Some(due) && s.lastSend <= s.now <= due) || s.status == TimedOut(due))
  }

  lemma SilentSteps(c: Config, s: State, st: Step)
    requires Silent(c, s) && Enabled(c, s, st)
    ensures st.Tick? || st.Fire?
    ensures Silent(c, Do(c, s, st)) && Do(c, s, st).lastSend == s.lastSend
  {
    NoToken(s);
  }

  /** In every run, however late its messages: the timer closes the connection at no other time
      than two TTLs after the last message of the dialling side. And once the token is gone, by
      loss on the wire, at the accepting side, or because it arrived there too late, in
      every continuation the dialling side is open until that time or was closed just then. */
  lemma {:induction false} LossDetection(c: Config, sts: seq<Step>, more: seq<Step>)
    requires Run(c, sts + more).Some? && Run(c, sts).Some?
    ensures var s, s' := Run(c, sts).value, Run(c, sts + more).value;
      && (s.status.TimedOut? ==> s.status.at == s.lastSend + 2 * c.ttl)
      && (s.status.Open? && Tokens(s) == 0 ==> Silent(c, s') && s'.lastSend == s.lastSend)
  {
    AlwaysSound(c, sts);
    hide Enabled, Do;
    if more == [] {
      assert sts + more == sts;
    } else {
      var n := |more| - 1;
      assert (sts + more)[..|sts + more| - 1] == sts + more[..n] && (sts + more)[|sts + more| - 1] == more[n];
      LossDetection(c, sts, more[..n]);
      var s, s' := Run(c, sts).value, Run(c, sts + more[..n]).value;
      if s.status.Open? && Tokens(s) == 0 {
        SilentSteps(c, s', more[n]);
      }
    }
  }

  /** The close comes: until the timer is due time can pass up to it, and then it fires. */
  lemma SilenceEnds(c: Config, s: State)
    requires Silent(c, s) && s.status == Open
    ensures var due := s.lastSend + 2 * c.ttl;
      && Enabled(c, s, Tick(due - s.now))
      && Enabled(c, Do(c, s, Tick(due - s.now)), Fire)
      && Do(c, Do(c, s, Tick(due - s.now)), Fire).status == TimedOut(due)
      && forall d :: s.now + d > due ==> !Enabled(c, s, Tick(d))
  {
    NoToken(s);
  }

  /** With timely hops the token does not expire: in every reachable state it is there and all
      is well, or it was lost and the dialling side closes two TTLs after its last message. */
  lemma {:induction false} BeatsOrFallsSilent(c: Config, sts: seq<Step>)
    requires Timely(c) && Run(c, sts).Some?
    ensures Beating(c, Run(c, sts).value) || Silent(c, Run(c, sts).value)
  {
    hide Enabled, Do, Beating, Silent;
    if sts == [] {
      WiredBeats(c);
    } else {
      BeatsOrFallsSilent(c, sts[..|sts| - 1]);
      StepLosesOrKeeps(c, Run(c, sts[..|sts| - 1]).value, sts[|sts| - 1]);
    }
  }

  lemma StepLosesOrKeeps(c: Config, s: State, st: Step)
    requires Timely(c) && Enabled(c, s, st) && (Beating(c, s) || Silent(c, s))
    ensures Beating(c, Do(c, s, st)) || Silent(c, Do(c, s, st))
  {
    if Silent(c, s) {
      SilentSteps(c, s, st);
    } else if st.Lose? {
      assert s.wire[..0] + s.wire[1..] == [];
    } else if st.Crash? {
      OneHeld(s, Acceptor);
    } else {
      StepKeepsBeating(c, s, st);
    }
  }

  // ----- What the steps of a run say -----

  /** How much time the steps let pass. */
  function Elapsed(sts: seq<Step>): nat {
    if sts == [] then 0
    else
      var st := sts[|sts| - 1];
      Elapsed(sts[..|sts| - 1]) + if st.Tick? then st.d else 0
  }

  /** How many messages `p` sends in the steps. */
  function SentBy(sts: seq<Step>, p: Peer): nat {
    if sts == [] then 0 else SentBy(sts[..|sts| - 1], p) + if sts[|sts| - 1] == Resend(p) then 1 else 0
  }

  /** The first message counts: in every run, the messages that the machine counts are those of
      its steps, and the time is what has passed. */
  lemma {:induction false} HistoryTells(c: Config, sts: seq<Step>)
    requires Run(c, sts).Some?
    ensures var s := Run(c, sts).value;
      && s.turns == 1 + SentBy(sts, Dialler)
      && s.sends == 1 + SentBy(sts, Dialler) + SentBy(sts, Acceptor)
      && s.now == Elapsed(sts)
  {
    hide Enabled;
    if sts != [] {
      HistoryTells(c, sts[..|sts| - 1]);
    }
  }

  /** A loss, or a crash of the accepting side, takes the token away. */
  lemma LossLoses(c: Config, s: State, st: Step)
    requires Enabled(c, s, st) && (st.Lose? || st.Crash?)
    ensures Tokens(Do(c, s, st)) == Tokens(s) - 1
    ensures Do(c, s, st).timer == s.timer && Do(c, s, st).status == s.status && Do(c, s, st).now == s.now
  {
    if st.Crash? {
      assert |s.held.Keys - {Acceptor}| == |s.held| - 1;
    }
  }

  /** The first message is lost: the dialling side closes two TTLs after the start. */
  lemma LostFirstMessage(c: Config)
    ensures Run(c, [Lose(0), Tick(2 * c.ttl), Fire]).Some?
    ensures Run(c, [Lose(0), Tick(2 * c.ttl), Fire]).value.status == TimedOut(2 * c.ttl)
  {
    hide Run;
    WiredRuns(c);
    RunOn(c, [], Lose(0));
    RunOn(c, [] + [Lose(0)], Tick(2 * c.ttl));
    RunOn(c, [] + [Lose(0)] + [Tick(2 * c.ttl)], Fire);
    assert [] + [Lose(0)] + [Tick(2 * c.ttl)] + [Fire] == [Lose(0), Tick(2 * c.ttl), Fire];
  }

  const EXAMPLE := Config(10, 5, 0, 0)

  function HalfWay(): State {
    State(10, [Message(Acceptor, 10, Payload(2, 20))], map[], Some(20), Open, None, 2, 1, 0)
  }

  const HELD := State(3, [], map[Acceptor := Payload(1, 10)], Some(20), Open, None, 1, 1, 0)

  lemma FirstHop()
    ensures var s1 := State(3, [Message(Dialler, 0, Payload(1, 10))], map[], Some(20), Open, None, 1, 1, 0);
      && Enabled(EXAMPLE, Wired(EXAMPLE), Tick(3)) && Do(EXAMPLE, Wired(EXAMPLE), Tick(3)) == s1
      && Enabled(EXAMPLE, s1, Deliver(0)) && Do(EXAMPLE, s1, Deliver(0)) == HELD
  {
  }

  lemma HoldAndResend()
    ensures var s3 := HELD.(now := 10);
      && Enabled(EXAMPLE, HELD, Tick(7)) && Do(EXAMPLE, HELD, Tick(7)) == s3
      && Enabled(EXAMPLE, s3, Resend(Acceptor)) && Do(EXAMPLE, s3, Resend(Acceptor)) == HalfWay()
  {
  }

  /** The first four steps, one by one. */
  lemma FirstHalf()
    ensures Run(EXAMPLE, [] + [Tick(3), Deliver(0), Tick(7), Resend(Acceptor)]) == Some(HalfWay())
  {
    hide Run, Do, Enabled, Wired, HalfWay;
    WiredRuns(EXAMPLE);
    FirstHop();
    HoldAndResend();
    FourSteps(EXAMPLE, [], Tick(3), Deliver(0), Tick(7), Resend(Acceptor));
  }

  const CRASHED := State(0, [], map[], Some(20), Open, None, 1, 1, 0)

  lemma HopAndCrash()
    ensures var s1 := State(0, [], map[Acceptor := Payload(1, 10)], Some(20), Open, None, 1, 1, 0);
      && Enabled(EXAMPLE, Wired(EXAMPLE), Deliver(0)) && Do(EXAMPLE, Wired(EXAMPLE), Deliver(0)) == s1
      && Enabled(EXAMPLE, s1, Crash) && Do(EXAMPLE, s1, Crash) == CRASHED
  {
    assert map[Acceptor := Payload(1, 10)] - {Acceptor} == map[];
  }

  lemma WaitAndFire()
    ensures var s3 := CRASHED.(now := 20);
      && Enabled(EXAMPLE, CRASHED, Tick(20)) && Do(EXAMPLE, CRASHED, Tick(20)) == s3
      && Enabled(EXAMPLE, s3, Fire) && Do(EXAMPLE, s3, Fire).status == TimedOut(20)
  {
  }

  /** The accepting side crashes with the message: the dialling side closes when the timer is
      due, and not before. */
  lemma CrashWithTheToken()
    ensures var r := Run(EXAMPLE, [] + [Deliver(0), Crash, Tick(20), Fire]);
      r.Some? && r.value.status == TimedOut(20)
  {
    hide Run, Do, Enabled, Wired;
    WiredRuns(EXAMPLE);
    HopAndCrash();
    WaitAndFire();
    FourSteps(EXAMPLE, [], Deliver(0), Crash, Tick(20), Fire);
  }

  lemma FourSteps(c: Config, sts: seq<Step>, a: Step, b: Step, d: Step, e: Step)
    requires Run(c, sts).Some? && Enabled(c, Run(c, sts).value, a)
    requires var s1 := Do(c, Run(c, sts).value, a);
             Enabled(c, s1, b) && var s2 := Do(c, s1, b);
             Enabled(c, s2, d) && Enabled(c, Do(c, s2, d), e)
    ensures var s2 := Do(c, Do(c, Run(c, sts).value, a), b);
            Run(c, sts + [a, b, d, e]) == Some(Do(c, Do(c, s2, d), e))
  {
    hide Run, Do, Enabled;
    RunOn(c, sts, a);
    RunOn(c, sts + [a], b);
    RunOn(c, sts + [a] + [b], d);
    RunOn(c, sts + [a] + [b] + [d], e);
    assert sts + [a] + [b] + [d] + [e] == sts + [a, b, d, e];
  }

  const RETURNED := State(13, [], map[Dialler := Payload(2, 20)], None, Open, None, 2, 1, 0)

  lemma HopBack()
    ensures var s5 := HalfWay().(now := 13);
      && Enabled(EXAMPLE, HalfWay(), Tick(3)) && Do(EXAMPLE, HalfWay(), Tick(3)) == s5
      && Enabled(EXAMPLE, s5, Deliver(0)) && Do(EXAMPLE, s5, Deliver(0)) == RETURNED
  {
  }

  lemma HoldAndSendAgain()
    ensures var s7 := RETURNED.(now := 20);
      && Enabled(EXAMPLE, RETURNED, Tick(7)) && Do(EXAMPLE, RETURNED, Tick(7)) == s7
      && Enabled(EXAMPLE, s7, Resend(Dialler))
      && Do(EXAMPLE, s7, Resend(Dialler)) ==
           State(20, [Message(Dialler, 20, Payload(3, 30))], map[], Some(40), Open, None, 3, 2, 20)
  {
  }

  /** With a TTL of 10 and no offset, a message that takes 3 is held until its deadline and sent
      back with the next one, 10 later: one round takes 20. */
  lemma OneRound()
    ensures Run(EXAMPLE,
        ([] + [Tick(3), Deliver(0), Tick(7), Resend(Acceptor)]) + [Tick(3), Deliver(0), Tick(7), Resend(Dialler)])
      == Some(State(20, [Message(Dialler, 20, Payload(3, 30))], map[], Some(40), Open, None, 3, 2, 20))
  {
    hide Run, Do, Enabled, Wired, HalfWay;
    FirstHalf();
    HopBack();
    HoldAndSendAgain();
    FourSteps(EXAMPLE, [] + [Tick(3), Deliver(0), Tick(7), Resend(Acceptor)],
      Tick(3), Deliver(0), Tick(7), Resend(Dialler));
  }

  // ----- The code of the two sides -----

  /** One side of the connection: whether it has closed it and, on the dialling side, when its
      timer fires. What its methods do is what the steps above do. */
  class Side {
    const c: Config
    const p: Peer
    var open: bool
    var timer: Option<int>

    ghost predicate Shows(s: State)
      reads this
    {
      if p == Dialler then open == s.status.Open? && timer == s.timer
      else open == s.farExpired.None? && timer == None
    }

    /** The end of `Wire` on the dialling side, with the message that it has sent; the other
        side starts with an open connection and no timer. */
    constructor (c: Config, p: Peer)
      ensures this.c == c && this.p == p && Shows(Wired(c))
    {
      this.c, this.p, open := c, p, true;
      timer := if p == Dialler then Some(2 * c.ttl) else None;
    }

    /** `HandleHeartbeat` up to its wait: the expiry check, then the timer is stopped. */
    method Receive(pl: Payload, now: int, ghost s: State, ghost i: nat) returns (ok: bool)
      requires Shows(s) && Enabled(c, s, Deliver(i)) && Other(s.wire[i].from) == p
      requires s.now == now && s.wire[i].payload == pl
      modifies this
      ensures Shows(Do(c, s, Deliver(i)))
      ensures ok ==> p in Do(c, s, Deliver(i)).held && Do(c, s, Deliver(i)).held[p] == pl
      ensures ok <==> open
    {
      if pl.deadline < Clock(c, p, now) {
        open := false;
        return false;
      }
      if p == Dialler {
        timer := None;
      }
      ok := true;
    }

    /** `HandleHeartbeat` after its wait: the timer is set again and the next message composed. */
    method Resend(pl: Payload, now: int, ghost s: State) returns (out: Payload)
      requires Shows(s) && Enabled(c, s, Step.Resend(p)) && s.now == now && s.held[p] == pl
      modifies this
      ensures Shows(Do(c, s, Step.Resend(p)))
      ensures Do(c, s, Step.Resend(p)).wire == s.wire + [Message(p, now, out)]
    {
      if p == Dialler {
        timer := Some(now + 2 * c.ttl);
      }
      out := Compose(c, p, now, pl.hops);
    }

    /** The function of the timer. */
    method Expire(ghost s: State)
      requires Shows(s) && Enabled(c, s, Fire) && p == Dialler
      modifies this
      ensures Shows(Do(c, s, Fire))
    {
      open, timer := false, None;
    }
  }
}
