/** Runs of a `PubSub` seen through the handles it gives out. A cancel function is nothing but
    a topic name and an index (pubsub/pubsub.go:138-140): the table cannot tell whose it is. */
module Handles {
  import opened Streams
  import opened Slots

  /** `owner` is the subscriber the handle was given to; the code does not store it. */
  datatype Handle<!S(==)> = Handle(topic: string, index: nat, owner: S)

  /** `live` are the handles given out, not yet used, whose topic was not closed since; `late`
      are the subscribers whose channel was stopped because a message timed out; `got` has,
      for every subscriber so far, the messages that its channel took. */
  datatype State<!S(==)> = State(
    table: Table<S>,
    live: set<Handle<S>>,
    late: set<S>,
    got: map<S, seq<Message>>)

  datatype Step<!S(==)> =
    | Sub(topic: string, s: S)
    | Cancel(h: Handle<S>)
    | Close(topic: string)
    | Pub(topic: string, m: Message)
    | TimeOut(s: S)

  function Start<S(==)>(): State<S> {
    State(map[], {}, {}, map[])
  }

  function LiveOf<S>(st: State<S>, topic: string): set<Handle<S>> {
    set h | h in st.live && h.topic == topic
  }

  /** A timeout stops the channel but does not give its slot back. */
  function Do<S>(st: State<S>, max: nat, a: Step<S>): State<S> {
    match a
    case Sub(topic, s) =>
      var (table, i) := Subscribed(st.table, max, topic, s);
      State(table, if i.Some? then st.live + {Handle(topic, i.value, s)} else st.live, st.late, st.got[s := []])
    case Cancel(h) => st.(table := Unsubscribed(st.table, h.topic, h.index).0, live := st.live - {h})
    case Close(topic) => st.(table := st.table - {topic}, live := st.live - LiveOf(st, topic))
    case Pub(topic, m) =>
      st.(got := map s | s in st.got ::
            if s in Holders(st.table, topic) && s !in st.late then st.got[s] + [m] else st.got[s])
    case TimeOut(s) => if s in st.got then st.(late := st.late + {s}) else st
  }

  function Run<S>(st: State<S>, max: nat, run: seq<Step<S>>): State<S>
    decreases run
  {
    if run == [] then st else Run(Do(st, max, run[0]), max, run[1..])
  }

  predicate New<S>(st: State<S>, a: Step<S>) {
    a.Sub? ==> a.s !in st.got
  }

  /** Every subscriber is a new one, and every handle is used at most once and not after its
      topic closed. */
  predicate Fair<S>(st: State<S>, a: Step<S>) {
    New(st, a) && (a.Cancel? ==> a.h in st.live)
  }

  predicate Proper<S>(st: State<S>, max: nat, run: seq<Step<S>>)
    decreases run
  {
    run == [] || (Fair(st, run[0]) && Proper(Do(st, max, run[0]), max, run[1..]))
  }

  predicate Holds<S>(st: State<S>, h: Handle<S>) {
    h.topic in st.table && h.index < |st.table[h.topic]| && st.table[h.topic][h.index] == Some(h.owner)
  }

  /** The live handles are exactly the taken slots, and no subscriber has two of them. */
  ghost predicate Linked<S>(st: State<S>, max: nat) {
    && (forall n :: n in st.table ==> |st.table[n]| == max)
    && (forall h :: h in st.live ==> Holds(st, h))
    && (forall n, i: nat :: n in st.table && i < |st.table[n]| && st.table[n][i].Some? ==>
          Handle(n, i, st.table[n][i].value) in st.live)
    && (forall h :: h in st.live ==> h.owner in st.got)
    && (forall h, k :: h in st.live && k in st.live && h.owner == k.owner ==> h == k)
  }

  lemma LiveIffHolds<S>(st: State<S>, max: nat, h: Handle<S>)
    requires Linked(st, max)
    ensures h in st.live <==> Holds(st, h)
  {
  }

  // ----- What a handle can do -----

  /** No other subscriber holds the slot the handle names. Whoever is about to cancel can look. */
  predicate NobodyElses<S>(st: State<S>, h: Handle<S>) {
    h.topic !in st.table || h.index >= |st.table[h.topic]| || st.table[h.topic][h.index] in {None, Some(h.owner)}
  }

  lemma SubKeeps<S>(st: State<S>, max: nat, topic: string, s: S)
    requires Linked(st, max) && s !in st.got
    ensures Linked(Do(st, max, Sub(topic, s)), max)
  {
    hide FirstFree;
  }

  lemma OthersKeep<S>(st: State<S>, max: nat, a: Step<S>)
    requires Linked(st, max) && (a.Pub? || a.TimeOut?)
    ensures Linked(Do(st, max, a), max)
  {
  }

  lemma CloseKeeps<S>(st: State<S>, max: nat, topic: string)
    requires Linked(st, max)
    ensures Linked(Do(st, max, Close(topic)), max)
  {
  }

  /** A cancel, by any handle at any time, keeps live handles and taken slots together exactly
      when nobody else holds the slot that the handle names. */
  lemma CancelKeepsExactly<S>(st: State<S>, max: nat, h: Handle<S>)
    requires Linked(st, max)
    ensures Linked(Do(st, max, Cancel(h)), max) <==> NobodyElses(st, h)
  {
    var t := Do(st, max, Cancel(h));
    if !NobodyElses(st, h) {
      var k := Handle(h.topic, h.index, st.table[h.topic][h.index].value);
      assert k in t.live && !Holds(t, k);
    }
  }

  /** A live handle succeeds and takes its own subscriber out, and nobody else. */
  lemma LiveHandleCancelsItsOwn<S>(st: State<S>, max: nat, h: Handle<S>, k: Handle<S>)
    requires Linked(st, max) && h in st.live
    ensures NobodyElses(st, h) && Unsubscribed(st.table, h.topic, h.index).1 == Done
    ensures Holds(Do(st, max, Cancel(h)), k) <==> Holds(st, k) && k.owner != h.owner
  {
    assert Holds(st, h);
    LiveIffHolds(st, max, k);
    CancelKeepsExactly(st, max, h);
    LiveIffHolds(Do(st, max, Cancel(h)), max, k);
  }

  // ----- Every run -----

  lemma {:induction false} RunLinked<S>(st: State<S>, max: nat, run: seq<Step<S>>)
    requires Linked(st, max) && Proper(st, max, run)
    ensures Linked(Run(st, max, run), max)
    decreases run
  {
    hide Linked, NobodyElses;
    if run != [] {
      match run[0] {
        case Sub(topic, s) => SubKeeps(st, max, topic, s);
        case Cancel(h) =>
          LiveHandleCancelsItsOwn(st, max, h, h);
          CancelKeepsExactly(st, max, h);
        case Close(topic) => CloseKeeps(st, max, topic);
        case _ => OthersKeep(st, max, run[0]);
      }
      RunLinked(Do(st, max, run[0]), max, run[1..]);
    }
  }

  /** In every run in which each handle is used at most once and not after its topic closed,
      whatever times out, the live handles are the taken slots. */
  lemma LiveExactlyTaken<S>(max: nat, run: seq<Step<S>>, h: Handle<S>)
    requires Proper(Start(), max, run)
    ensures h in Run(Start(), max, run).live <==> Holds(Run(Start(), max, run), h)
  {
    RunLinked(Start(), max, run);
  }

  /** The subscriber has a live handle of the topic and was never stopped by a timeout. */
  predicate Reached<S>(st: State<S>, topic: string, s: S) {
    (exists h :: h in LiveOf(st, topic) && h.owner == s) && s !in st.late
  }

  lemma HoldersAreLive<S>(st: State<S>, max: nat, topic: string, s: S)
    requires Linked(st, max)
    ensures s in Holders(st.table, topic) <==> exists h :: h in LiveOf(st, topic) && h.owner == s
  {
    if s in Holders(st.table, topic) {
      var i: nat :| i < |st.table[topic]| && st.table[topic][i] == Some(s);
      assert Handle(topic, i, s) in LiveOf(st, topic);
    }
    if h :| h in LiveOf(st, topic) && h.owner == s {
      assert Holds(st, h);
    }
  }

  /** What a step of such a run does to what a subscriber has: a publication reaches it if and
      only if it has a live handle of the topic and was never stopped by a timeout; nothing
      else reaches it. */
  lemma ReachedExactly<S>(max: nat, run: seq<Step<S>>, a: Step<S>, s: S)
    requires Proper(Start(), max, run)
    requires Fair(Run(Start(), max, run), a) && s in Run(Start(), max, run).got
    ensures var st := Run(Start(), max, run);
            s in Do(st, max, a).got
            && Do(st, max, a).got[s] == st.got[s] +
                 if a.Pub? && Reached(st, a.topic, s) then [a.m] else []
  {
    RunLinked(Start(), max, run);
    if a.Pub? {
      HoldersAreLive(Run(Start(), max, run), max, a.topic, s);
    }
  }

  // ----- Any use of handles -----

  /** Rows have `max` slots, and every holder is a subscriber and holds one. */
  ghost predicate Placed<S>(st: State<S>, max: nat) {
    && (forall n :: n in st.table ==> |st.table[n]| == max)
    && (forall n, i :: n in st.table && 0 <= i < |st.table[n]| && st.table[n][i].Some? ==>
          st.table[n][i].value in st.got)
    && Once(st.table)
    && st.late <= st.got.Keys
  }

  /** This holds in every run of new subscribers, however handles are used. */
  lemma StepKeepsPlaced<S>(st: State<S>, max: nat, a: Step<S>)
    requires Placed(st, max) && New(st, a)
    ensures Placed(Do(st, max, a), max)
  {
    hide FirstFree, Once;
    match a
    case Sub(topic, s) =>
      assert Unused(st.table, s);
      SubscribedOnce(st.table, max, topic, s);
    case Cancel(h) => UnsubscribedOnce(st.table, h.topic, h.index);
    case Close(topic) => UnsubscribedOnce(st.table, topic, 0);
    case _ =>
  }

  /** Live handles of one topic name different slots, all below `max`. */
  lemma LiveSlotsDistinct<S>(max: nat, run: seq<Step<S>>, h: Handle<S>, k: Handle<S>)
    requires Proper(Start(), max, run)
    requires h in Run(Start(), max, run).live && k in Run(Start(), max, run).live
    ensures h.index < max && (h != k && h.topic == k.topic ==> h.index != k.index)
    ensures h != k ==> h.owner != k.owner
  {
    var st := Run(Start(), max, run);
    RunLinked(Start(), max, run);
    assert Holds(st, h) && Holds(st, k);
  }

  // ----- Counting -----

  function Taken<S>(row: seq<Option<S>>): (n: nat)
    ensures n <= |row|
    ensures n == |row| <==> forall i :: 0 <= i < |row| ==> row[i].Some?
  {
    if row == [] then 0
    else
      var rest := row[..|row| - 1];
      assert forall i :: 0 <= i < |rest| ==> rest[i] == row[i];
      assert row[|row| - 1].Some? <==> !row[|row| - 1].None?;
      Taken(rest) + if row[|row| - 1].Some? then 1 else 0
  }

  function HandlesOf<S>(topic: string, row: seq<Option<S>>): set<Handle<S>> {
    set i: nat | i < |row| && row[i].Some? :: Handle(topic, i, row[i].value)
  }

  lemma {:induction false} HandlesCounted<S>(topic: string, row: seq<Option<S>>)
    ensures |HandlesOf(topic, row)| == Taken(row)
  {
    if row != [] {
      var n := |row| - 1;
      HandlesCounted(topic, row[..n]);
      var rest := HandlesOf(topic, row[..n]);
      if row[n].Some? {
        var last := Handle(topic, n, row[n].value);
        assert HandlesOf(topic, row) == rest + {last};
        assert last !in rest;
      } else {
        assert HandlesOf(topic, row) == rest;
      }
    }
  }

  lemma LiveCounted<S>(st: State<S>, max: nat, topic: string)
    requires Linked(st, max)
    ensures |LiveOf(st, topic)| == Taken(RowOf(st.table, max, topic)) <= max
  {
    var row := RowOf(st.table, max, topic);
    HandlesCounted(topic, row);
    forall h: Handle<S>
      ensures h in LiveOf(st, topic) <==> h in HandlesOf(topic, row)
    {
      LiveIffHolds(st, max, h);
    }
    assert LiveOf(st, topic) == HandlesOf(topic, row);
  }

  /** A topic has at most `max` live handles, and a subscription fails exactly when it has them. */
  lemma SubFailsExactlyWhenFull<S>(max: nat, run: seq<Step<S>>, topic: string, s: S)
    requires Proper(Start(), max, run)
    ensures var st := Run(Start(), max, run);
            |LiveOf(st, topic)| <= max
            && (Subscribed(st.table, max, topic, s).1.None? <==> |LiveOf(st, topic)| == max)
  {
    var st := Run(Start(), max, run);
    RunLinked(Start(), max, run);
    LiveCounted(st, max, topic);
    var row := RowOf(st.table, max, topic);
    assert FirstFree(row) == |row| <==> forall i :: 0 <= i < |row| ==> row[i].Some?;
  }

  /** A new subscriber never disturbs an old one: it gets a slot nobody holds. */
  lemma SubAddsOne<S>(max: nat, run: seq<Step<S>>, topic: string, s: S, k: Handle<S>)
    requires Proper(Start(), max, run) && s !in Run(Start(), max, run).got
    ensures var st := Run(Start(), max, run);
            var i := Subscribed(st.table, max, topic, s).1;
            Holds(Do(st, max, Sub(topic, s)), k) <==>
              Holds(st, k) || (i.Some? && k == Handle(topic, i.value, s))
  {
    var st := Run(Start(), max, run);
    RunLinked(Start(), max, run);
    SubKeeps(st, max, topic, s);
    LiveIffHolds(st, max, k);
    LiveIffHolds(Do(st, max, Sub(topic, s)), max, k);
  }

  // ----- What the precondition shuts out -----

  /** Cancelling twice, with a subscription in between, removes the new subscriber, and the
      second cancel reports success. */
  lemma SecondCancelHitsTheNextOwner<S>(max: nat, topic: string, x: S, y: S)
    requires max > 0 && x != y
    ensures var first, second := Handle(topic, 0, x), Handle(topic, 0, y);
            var run := [Sub(topic, x), Cancel(first), Sub(topic, y)];
            var st := Run(Start(), max, run);
            var t := Do(st, max, Cancel(first));
            && Proper(Start(), max, run)
            && st.live == {second} && Holds(st, second)
            && Unsubscribed(st.table, topic, 0).1 == Done
            && second in t.live && !Holds(t, second)
  {
    var first := Handle(topic, 0, x);
    var run := [Sub(topic, x), Cancel(first), Sub(topic, y)];
    ThreeSteps(Start(), max, run);
    assert FirstFree(EmptyRow<S>(max)) == 0;
    var a := Do(Start(), max, run[0]);
    assert a.table[topic] == EmptyRow(max)[0 := Some(x)];
    assert Do(a, max, run[1]).table[topic] == EmptyRow(max);
  }

  lemma ThreeSteps<S>(st: State<S>, max: nat, run: seq<Step<S>>)
    requires |run| == 3
    ensures var a := Do(st, max, run[0]);
            var b := Do(a, max, run[1]);
            && Run(st, max, run) == Do(b, max, run[2])
            && (Proper(st, max, run) <==> Fair(st, run[0]) && Fair(a, run[1]) && Fair(b, run[2]))
  {
    hide Do, Fair;
    var a := Do(st, max, run[0]);
    var b := Do(a, max, run[1]);
    var c := Do(b, max, run[2]);
    var rest := run[1..];
    assert rest[0] == run[1] && rest[1..][0] == run[2] && rest[1..][1..] == [];
    assert Run(b, max, rest[1..]) == Run(c, max, []) && Run(a, max, rest) == Run(b, max, rest[1..]);
    assert Proper(b, max, rest[1..]) <==> Fair(b, run[2]) && Proper(c, max, []);
    assert Proper(a, max, rest) <==> Fair(a, run[1]) && Proper(b, max, rest[1..]);
  }

  /** A handle kept past the close of its topic hits whoever took the slot in the new topic. */
  lemma ClosedHandleHitsTheNewTopic<S>(max: nat, topic: string, x: S, y: S)
    requires max > 0 && x != y
    ensures var first, second := Handle(topic, 0, x), Handle(topic, 0, y);
            var run := [Sub(topic, x), Close(topic), Sub(topic, y)];
            var st := Run(Start(), max, run);
            && Proper(Start(), max, run)
            && st.live == {second} && Holds(st, second) && !NobodyElses(st, first)
  {
    var first := Handle(topic, 0, x);
    var run := [Sub(topic, x), Close(topic), Sub(topic, y)];
    ThreeSteps(Start(), max, run);
    assert FirstFree(EmptyRow<S>(max)) == 0;
    var a := Do(Start(), max, run[0]);
    assert a.live == {first};
    assert Do(a, max, run[1]).live == {};
  }

  /** A subscriber that a timeout stopped keeps its slot and its live handle, and gets nothing. */
  lemma StoppedKeepsItsSlot<S>(max: nat, topic: string, x: S)
    requires max > 0
    ensures var run := [Sub(topic, x), TimeOut(x)];
            var st := Run(Start(), max, run);
            Proper(Start(), max, run) && Handle(topic, 0, x) in LiveOf(st, topic) && !Reached(st, topic, x)
  {
    var run := [Sub(topic, x), TimeOut(x)];
    var a := Do(Start(), max, run[0]);
    var rest := run[1..];
    assert FirstFree(EmptyRow<S>(max)) == 0;
    assert a.live == {Handle(topic, 0, x)};
    assert rest[0] == run[1] && rest[1..] == [];
    assert Run(a, max, rest) == Do(a, max, run[1]) && Proper(a, max, rest);
  }
}
