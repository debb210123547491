/** Subscriptions to one topic at the same time (pubsub/pubsub.go): `Sub` looks the topic up,
    registers a new one if there is none, and takes a slot of the topic that it has, and others
    can get in between. Topics are numbered in the order of their registration. */
module Registration {
  import opened Streams
  import opened Slots

  /** What a call of `Sub` has got so far: nothing, no topic, a topic, or a slot of it. */
  datatype Phase = Calling | Missing | Has(topic: nat) | Placed(topic: nat, index: nat) | Refused

  /** `registered` counts the topics ever registered; the last one is in the registry. */
  datatype State = State(registered: nat, rows: seq<seq<Option<nat>>>, callers: map<nat, Phase>)

  datatype Step = Call(c: nat) | LookUp(c: nat) | Register(c: nat) | Place(c: nat)

  const Start := State(0, [], map[])

  predicate Enabled(s: State, a: Step) {
    match a
    case Call(c) => c !in s.callers
    case LookUp(c) => c in s.callers && s.callers[c] == Calling
    case Register(c) => c in s.callers && s.callers[c] == Missing
    case Place(c) => c in s.callers && s.callers[c].Has? && s.callers[c].topic < |s.rows|
  }

  function Do(s: State, max: nat, a: Step): State
    requires Enabled(s, a)
  {
    match a
    case Call(c) => s.(callers := s.callers[c := Calling])
    case LookUp(c) =>
      s.(callers := s.callers[c := if s.registered == 0 then Missing else Has(s.registered - 1)])
    case Register(c) =>
      State(s.registered + 1, s.rows + [EmptyRow(max)], s.callers[c := Has(s.registered)])
    case Place(c) =>
      var t := s.callers[c].topic;
      var i := FirstFree(s.rows[t]);
      if i < |s.rows[t]| then
        s.(rows := s.rows[t := s.rows[t][i := Some(c)]], callers := s.callers[c := Placed(t, i)])
      else s.(callers := s.callers[c := Refused])
  }

  ghost predicate Runs(s: State, max: nat, run: seq<Step>)
    decreases run
  {
    run == [] || (Enabled(s, run[0]) && Runs(Do(s, max, run[0]), max, run[1..]))
  }

  function After(s: State, max: nat, run: seq<Step>): State
    requires Runs(s, max, run)
    decreases run
  {
    if run == [] then s else After(Do(s, max, run[0]), max, run[1..])
  }

  /** A publication goes to the registered topic: it finds the caller's channel there. */
  predicate Reached(s: State, c: nat) {
    0 < s.registered <= |s.rows| && Some(c) in s.rows[s.registered - 1]
  }

  /** Every topic was registered, and whoever was placed, and nobody else, has a slot. */
  ghost predicate Ok(s: State, max: nat) {
    && |s.rows| == s.registered && (forall t :: 0 <= t < |s.rows| ==> |s.rows[t]| == max)
    && (forall c :: c in s.callers && s.callers[c].Has? ==> s.callers[c].topic < s.registered)
    && (forall c :: c in s.callers && s.callers[c].Placed? ==> Sits(s, c, s.callers[c].topic, s.callers[c].index))
    && (forall t, i :: 0 <= t < |s.rows| && 0 <= i < |s.rows[t]| && s.rows[t][i].Some? ==>
          var c := s.rows[t][i].value; c in s.callers && s.callers[c] == Placed(t, i))
  }

  predicate Sits(s: State, c: nat, t: nat, i: nat) {
    t < |s.rows| && i < |s.rows[t]| && s.rows[t][i] == Some(c)
  }

  lemma StartOk(max: nat)
    ensures Ok(Start, max)
  {
  }

  lemma StepKeepsOk(s: State, max: nat, a: Step)
    requires Ok(s, max) && Enabled(s, a)
    ensures Ok(Do(s, max, a), max)
  {
    hide FirstFree;
    if a.Place? {
      PlaceKeepsOk(s, max, a.c);
    }
  }

  lemma PlaceKeepsOk(s: State, max: nat, c: nat)
    requires Ok(s, max) && Enabled(s, Place(c))
    ensures Ok(Do(s, max, Place(c)), max)
  {
    hide FirstFree;
    var s' := Do(s, max, Place(c));
    var t := s.callers[c].topic;
    var i := FirstFree(s.rows[t]);
    forall d | d in s'.callers && s'.callers[d].Placed?
      ensures Sits(s', d, s'.callers[d].topic, s'.callers[d].index)
    {
      assert d != c ==> Sits(s, d, s.callers[d].topic, s.callers[d].index);
    }
  }

  lemma {:induction false} RunKeepsOk(s: State, max: nat, run: seq<Step>)
    requires Ok(s, max) && Runs(s, max, run)
    ensures Ok(After(s, max, run), max)
    decreases run
  {
    hide Ok, Do, Enabled;
    if run != [] {
      StepKeepsOk(s, max, run[0]);
      RunKeepsOk(Do(s, max, run[0]), max, run[1..]);
    }
  }

  /** A placed subscriber is reached exactly if no topic was registered after its own. */
  lemma ReachedExactly(max: nat, run: seq<Step>, c: nat)
    requires Runs(Start, max, run)
    ensures var s := After(Start, max, run);
            Reached(s, c) <==> c in s.callers && s.callers[c].Placed? && s.callers[c].topic + 1 == s.registered
  {
    RunKeepsOk(Start, max, run);
    var s := After(Start, max, run);
    if c in s.callers && s.callers[c].Placed? {
      assert Sits(s, c, s.callers[c].topic, s.callers[c].index);
    }
  }

  /** A look-up finds the topic that is registered at that moment, so whoever then gets a slot of
      it, with no registration in between, is reached. */
  lemma LookUpFindsTheRegistered(max: nat, run: seq<Step>, c: nat)
    requires Runs(Start, max, run) && Enabled(After(Start, max, run), LookUp(c))
    ensures var s := After(Start, max, run);
            var t := Do(s, max, LookUp(c));
            && (s.registered == 0 <==> t.callers[c] == Missing)
            && (s.registered > 0 ==> t.callers[c] == Has(s.registered - 1) && Enabled(t, Place(c)))
            && (s.registered > 0 && None in s.rows[s.registered - 1] ==>
                  Do(t, max, Place(c)).callers[c].Placed? && Reached(Do(t, max, Place(c)), c))
  {
    StartOk(max);
    RunKeepsOk(Start, max, run);
    var s := After(Start, max, run);
    var t := Do(s, max, LookUp(c));
    StepKeepsOk(s, max, LookUp(c));
    if s.registered > 0 {
      var row := s.rows[s.registered - 1];
      StepKeepsOk(t, max, Place(c));
      if None in row {
        var i := FirstFree(row);
        assert i < |row|;
        ReachedWhere(Do(t, max, Place(c)), max, c);
      }
    }
  }

  /** Nobody is about to register a topic. */
  predicate Quiet(s: State) {
    forall c :: c in s.callers ==> s.callers[c] != Missing
  }

  lemma QuietStep(s: State, max: nat, a: Step)
    requires Quiet(s) && s.registered > 0 && Enabled(s, a)
    ensures Quiet(Do(s, max, a)) && Do(s, max, a).registered == s.registered
  {
  }

  lemma PlacedStays(s: State, max: nat, a: Step, c: nat)
    requires Enabled(s, a) && c in s.callers && s.callers[c].Placed?
    ensures c in Do(s, max, a).callers && Do(s, max, a).callers[c] == s.callers[c]
  {
  }

  lemma {:induction false} QuietRun(s: State, max: nat, more: seq<Step>, c: nat)
    requires Quiet(s) && s.registered > 0 && Runs(s, max, more)
    requires c in s.callers && s.callers[c].Placed?
    ensures var s' := After(s, max, more);
            s'.registered == s.registered && c in s'.callers && s'.callers[c] == s.callers[c]
    decreases more
  {
    hide Quiet, Do, Enabled;
    if more != [] {
      QuietStep(s, max, more[0]);
      PlacedStays(s, max, more[0], c);
      QuietRun(Do(s, max, more[0]), max, more[1..], c);
    }
  }

  lemma ReachedWhere(s: State, max: nat, c: nat)
    requires Ok(s, max)
    ensures Reached(s, c) <==> c in s.callers && s.callers[c].Placed? && s.callers[c].topic + 1 == s.registered
  {
    if c in s.callers && s.callers[c].Placed? {
      assert Sits(s, c, s.callers[c].topic, s.callers[c].index);
    }
  }

  ghost predicate Lasts(s: State, max: nat, c: nat) {
    forall more :: Runs(s, max, more) ==> Reached(After(s, max, more), c)
  }

  /** A subscription that is placed is good for every continuation if and only if no topic was
      registered after its own and nobody who found none is about to register another one. */
  lemma SurvivesExactly(max: nat, run: seq<Step>, c: nat)
    requires Runs(Start, max, run)
    requires var s := After(Start, max, run); c in s.callers && s.callers[c].Placed?
    ensures var s := After(Start, max, run);
            Lasts(s, max, c) <==> s.callers[c].topic + 1 == s.registered && Quiet(s)
  {
    hide Ok, Quiet, Reached;
    StartOk(max);
    RunKeepsOk(Start, max, run);
    var s := After(Start, max, run);
    ReachedWhere(s, max, c);
    assert After(s, max, []) == s;
    if !Reached(s, c) {
      assert Runs(s, max, []);
    } else if Quiet(s) {
      forall more | Runs(s, max, more)
        ensures Reached(After(s, max, more), c)
      {
        RunKeepsOk(s, max, more);
        QuietRun(s, max, more, c);
        ReachedWhere(After(s, max, more), max, c);
      }
    } else {
      LaterRegistrationLoses(s, max, c);
    }
  }

  lemma LaterRegistrationLoses(s: State, max: nat, c: nat)
    requires Ok(s, max) && Reached(s, c) && !Quiet(s)
    ensures !Lasts(s, max, c)
  {
    hide Ok, Reached;
    var d :| d in s.callers && s.callers[d] == Missing;
    var more := [Register(d)];
    var s' := Do(s, max, more[0]);
    assert more[1..] == [] && Runs(s', max, []) && Runs(s, max, more) && After(s, max, more) == s';
    StepKeepsOk(s, max, more[0]);
    ReachedWhere(s, max, c);
    ReachedWhere(s', max, c);
  }

  lemma FourSteps(s: State, max: nat, run: seq<Step>)
    requires |run| == 4 && Enabled(s, run[0])
    requires var s1 := Do(s, max, run[0]);
             Enabled(s1, run[1]) && var s2 := Do(s1, max, run[1]);
             Enabled(s2, run[2]) && Enabled(Do(s2, max, run[2]), run[3])
    ensures var s2 := Do(Do(s, max, run[0]), max, run[1]);
            Runs(s, max, run) && After(s, max, run) == Do(Do(s2, max, run[2]), max, run[3])
  {
    hide Do, Enabled;
    var s1 := Do(s, max, run[0]);
    var s2 := Do(s1, max, run[1]);
    var s3 := Do(s2, max, run[2]);
    var s4 := Do(s3, max, run[3]);
    var r1, r2, r3 := run[1..], run[2..], run[3..];
    assert r1[0] == run[1] && r1[1..] == r2 && r2[0] == run[2] && r2[1..] == r3 && r3[0] == run[3] && r3[1..] == [];
    assert Runs(s4, max, []) && After(s4, max, []) == s4;
    assert Runs(s3, max, r3) && After(s3, max, r3) == s4;
    assert Runs(s2, max, r2) && After(s2, max, r2) == s4;
    assert Runs(s1, max, r1) && After(s1, max, r1) == s4;
  }

  lemma {:induction false} RunOn(s: State, max: nat, a: seq<Step>, b: seq<Step>)
    requires Runs(s, max, a) && Runs(After(s, max, a), max, b)
    ensures Runs(s, max, a + b) && After(s, max, a + b) == After(After(s, max, a), max, b)
    decreases a
  {
    hide Do, Enabled;
    if a == [] {
      assert a + b == b;
    } else {
      assert (a + b)[0] == a[0] && (a + b)[1..] == a[1..] + b;
      RunOn(Do(s, max, a[0]), max, a[1..], b);
    }
  }

  /** Two first subscriptions that both find no topic: the one that registers first is lost. */
  lemma FirstOfTwoIsLost(max: nat)
    requires max > 0
    ensures var run := [Call(1), Call(2), LookUp(1), LookUp(2)] + [Register(1), Place(1), Register(2), Place(2)];
            Runs(Start, max, run) && var s := After(Start, max, run);
            && s.callers == map[1 := Placed(0, 0), 2 := Placed(1, 0)]
            && Reached(s, 2) && !Reached(s, 1)
  {
    var first := [Call(1), Call(2), LookUp(1), LookUp(2)];
    var second := [Register(1), Place(1), Register(2), Place(2)];
    FourSteps(Start, max, first);
    var s := State(0, [], map[1 := Missing, 2 := Missing]);
    assert After(Start, max, first) == s;
    var row := EmptyRow<nat>(max);
    assert FirstFree(row) == 0 && |row| == max;
    hide FirstFree, EmptyRow;
    var s1 := Do(s, max, second[0]);
    var s2 := Do(s1, max, second[1]);
    assert s2 == State(1, [row[0 := Some(1)]], map[1 := Placed(0, 0), 2 := Missing]);
    var s3 := Do(s2, max, second[2]);
    var s4 := Do(s3, max, second[3]);
    assert s4 == State(2, [row[0 := Some(1)], row[0 := Some(2)]], map[1 := Placed(0, 0), 2 := Placed(1, 0)]);
    FourSteps(s, max, second);
    RunOn(Start, max, first, second);
    StartOk(max);
    RunKeepsOk(Start, max, first + second);
    ReachedWhere(s4, max, 1);
    ReachedWhere(s4, max, 2);
  }
}
