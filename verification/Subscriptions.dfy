/** Topics and their subscribers (pubsub/pubsub.go). The steps of one channel are the subject
    of `Channels`; here a channel is either active or not and keeps what it took. */
module Subscriptions {
  import opened Streams
  import opened Slots
  import opened Handles

  class Channel {
    var active: bool
    var got: seq<Message>

    constructor ()
      ensures !active && got == []
    {
      active, got := false, [];
    }

    method Run() returns (ok: bool)
      modifies this
      ensures active && got == old(got) && ok == !old(active)
    {
      if active {
        return false;
      }
      active := true;
      ok := true;
    }

    method Send(m: Message)
      modifies this
      ensures active == old(active)
      ensures got == if active then old(got) + [m] else old(got)
    {
      if active {
        got := got + [m];
      }
    }

    method Stop()
      modifies this
      ensures !active && got == old(got)
    {
      active := false;
    }
  }

  class Topic {
    const name: string
    const chs: array<Channel?>

    constructor (name: string, n: nat)
      ensures this.name == name && fresh(chs) && chs.Length == n
      ensures forall i :: 0 <= i < n ==> chs[i] == null
    {
      this.name := name;
      chs := new Channel?[n](_ => null);
    }

    ghost function Row(): (row: seq<Option<Channel>>)
      reads chs
      ensures |row| == chs.Length
    {
      seq(chs.Length, i requires 0 <= i < chs.Length reads chs =>
        if chs[i] == null then None else Some(chs[i]))
    }

    /** Puts the channel into the first free slot. */
    method Place(ch: Channel) returns (index: Option<nat>)
      modifies chs
      ensures var i := FirstFree(old(Row()));
              if i < chs.Length
              then index == Some(i) && Row() == old(Row())[i := Some(ch)]
              else index == None && Row() == old(Row())
    {
      ghost var row := Row();
      var i := 0;
      while i < chs.Length && chs[i] != null
        invariant 0 <= i <= chs.Length
        invariant forall j :: 0 <= j < i ==> row[j].Some?
      {
        i := i + 1;
      }
      FirstFreeIs(row, i);
      if i == chs.Length {
        return None;
      }
      chs[i] := ch;
      assert Row() == row[i := Some(ch)];
      index := Some(i);
    }
  }

  /** Every subscriber has what the run says, and its channel is active, while it holds a slot,
      unless it was stopped by a timeout. */
  ghost predicate Tracking(st: State<Channel>)
    reads st.got.Keys
  {
    Kept(st) && Matches(st, Activity(st))
  }

  ghost predicate Kept(st: State<Channel>)
    reads st.got.Keys
  {
    forall ch :: ch in st.got ==> ch.got == st.got[ch]
  }

  ghost predicate Matches(st: State<Channel>, active: map<Channel, bool>) {
    && active.Keys == st.got.Keys
    && (forall n, i :: n in st.table && 0 <= i < |st.table[n]| && st.table[n][i].Some? ==>
          var ch := st.table[n][i].value; ch in st.got && (active[ch] <==> ch !in st.late))
  }

  lemma SubTracks(st: State<Channel>, max: nat, topic: string, ch: Channel)
    requires Tracking(st) && ch !in st.got && ch !in st.late && ch.got == []
    requires ch.active <==> Subscribed(st.table, max, topic, ch).1.Some?
    ensures Tracking(Do(st, max, Sub(topic, ch)))
  {
    hide FirstFree;
  }

  lemma NoSuchIndex<S>(t: Table<S>, topic: string, i: int)
    ensures i < 0 ==> Unsubscribed(t, topic, i).0 == t
  {
  }

  lemma CancelTable(st: State<Channel>, max: nat, h: Handle<Channel>)
    ensures Do(st, max, Cancel(h)).table == Unsubscribed(st.table, h.topic, h.index).0
  {
  }

  /** What was active before, by channel. */
  ghost function Activity(st: State<Channel>): map<Channel, bool>
    reads st.got.Keys
  {
    map ch | ch in st.got :: ch.active
  }

  /** `gone` is the channel that the slot of `h` had, if it had one. */
  lemma CancelTracks(st: State<Channel>, max: nat, h: Handle<Channel>, gone: set<Channel>, was: map<Channel, bool>)
    requires Kept(st) && Matches(st, was) && Once(st.table)
    requires forall ch :: ch in st.got && ch !in gone ==> ch.active == was[ch]
    requires forall ch :: ch in gone ==> Holds(st, h.(owner := ch))
    ensures Tracking(Do(st, max, Cancel(h)))
    ensures gone == {} ==> Tracking(st)
  {
    var t := Do(st, max, Cancel(h));
    forall n, i | n in t.table && 0 <= i < |t.table[n]| && t.table[n][i].Some?
      ensures t.table[n][i] == st.table[n][i] && t.table[n][i].value !in gone
    {
    }
  }

  lemma CloseTracks(st: State<Channel>, max: nat, topic: string, was: map<Channel, bool>)
    requires Kept(st) && Matches(st, was) && Once(st.table)
    requires forall ch :: ch in st.got && ch !in Holders(st.table, topic) ==> ch.active == was[ch]
    ensures Tracking(Do(st, max, Close(topic)))
  {
    var t := Do(st, max, Close(topic));
    forall n, i | n in t.table && 0 <= i < |t.table[n]| && t.table[n][i].Some?
      ensures t.table[n][i].value !in Holders(st.table, topic)
    {
    }
  }

  lemma PubTracks(st: State<Channel>, max: nat, topic: string, m: Message, was: map<Channel, bool>)
    requires Matches(st, was) && forall ch :: ch in st.got ==> ch.active == was[ch]
    requires forall ch :: ch in st.got ==>
      ch.got == st.got[ch] + if ch in Holders(st.table, topic) && ch.active then [m] else []
    ensures Tracking(Do(st, max, Pub(topic, m)))
  {
  }

  lemma TimeOutTracks(st: State<Channel>, max: nat, late: Channel, was: map<Channel, bool>)
    requires Kept(st) && Matches(st, was) && late in st.got && !late.active
    requires forall ch :: ch in st.got && ch != late ==> ch.active == was[ch]
    ensures Tracking(Do(st, max, TimeOut(late)))
  {
  }

  class PubSub {
    const maxSubs: nat
    var registry: map<string, Topic>
    /** The run so far, as the handles see it. */
    ghost var st: State<Channel>

    ghost function Arrays(): set<object>
      reads this`registry
    {
      set t | t in registry.Values :: t.chs
    }

    ghost predicate Shaped()
      reads this`registry
    {
      && (forall n :: n in registry ==> registry[n].chs.Length == maxSubs)
      && (forall n, k :: n in registry && k in registry && n != k ==> registry[n].chs != registry[k].chs)
    }

    ghost function Slots(): Table<Channel>
      reads this`registry, Arrays()
    {
      map n | n in registry :: registry[n].Row()
    }

    ghost predicate Valid()
      reads this, Arrays(), st.got.Keys
    {
      Shaped() && Slots() == st.table && Placed(st, maxSubs) && Tracking(st)
    }

    constructor (maxSubs: nat)
      ensures this.maxSubs == maxSubs && registry == map[] && st == Start() && Valid()
    {
      this.maxSubs, registry, st := maxSubs, map[], Start();
    }

    /** Finds the topic, or registers it with all its slots free. */
    method Obtain(topic: string) returns (t: Topic)
      requires Shaped()
      modifies this`registry
      ensures Shaped() && registry == old(registry)[topic := t]
      ensures topic in old(registry) ==> t == old(registry)[topic]
      ensures topic !in old(registry) ==> fresh(t.chs)
      ensures t.Row() == RowOf(old(Slots()), maxSubs, topic)
      ensures Slots() == old(Slots())[topic := t.Row()]
    {
      if topic in registry {
        t := registry[topic];
      } else {
        t := new Topic(topic, maxSubs);
        assert t.Row() == EmptyRow(maxSubs);
        registry := registry[topic := t];
      }
    }

    method PlaceIn(topic: string, ch: Channel) returns (index: Option<nat>)
      requires Shaped() && topic in registry
      modifies registry[topic].chs
      ensures var row := old(Slots())[topic];
              var i := FirstFree(row);
              if i < |row|
              then index == Some(i) && Slots() == old(Slots())[topic := row[i := Some(ch)]]
              else index == None && Slots() == old(Slots())
    {
      hide FirstFree;
      ghost var was := Slots();
      index := registry[topic].Place(ch);
      assert forall n :: n in registry && n != topic ==> registry[n].Row() == was[n];
      assert Slots() == was[topic := registry[topic].Row()];
    }

    /** Gives the channel the first free slot of the topic. */
    method Claim(topic: string, ch: Channel) returns (index: Option<nat>)
      requires Shaped()
      modifies this`registry, Arrays()
      ensures Shaped() && (Slots(), index) == Subscribed(old(Slots()), maxSubs, topic, ch)
    {
      hide FirstFree, RowOf, EmptyRow;
      ghost var was := Slots();
      var _ := Obtain(topic);
      index := PlaceIn(topic, ch);
      Overwritten(was, topic, RowOf(was, maxSubs, topic), Slots()[topic]);
    }

    /** Objects of different classes are different. */
    lemma ChannelsApart(ch: Channel)
      ensures (ch as object) !in Arrays()
    {
    }

    /** The run goes on with a step that the objects have just made. */
    ghost method Note(a: Step<Channel>)
      requires Shaped() && Placed(st, maxSubs) && New(st, a)
      requires Slots() == Do(st, maxSubs, a).table && Tracking(Do(st, maxSubs, a))
      modifies this`st
      ensures Valid() && st == Do(old(st), maxSubs, a)
    {
      hide Placed, Tracking, Do, Shaped;
      StepKeepsPlaced(st, maxSubs, a);
      st := Do(st, maxSubs, a);
    }

    /** Subscribes a new, running channel. Without a topic or an action nothing happens. */
    method Sub(topic: string, hasAction: bool) returns (index: Option<nat>, ch: Channel)
      requires Valid()
      modifies this`registry, this`st, Arrays()
      ensures Valid() && fresh(ch) && ch.got == []
      ensures topic == "" || !hasAction ==> index == None && st == old(st)
      ensures topic != "" && hasAction ==>
        && index == Subscribed(old(st.table), maxSubs, topic, ch).1
        && st == Do(old(st), maxSubs, Step.Sub(topic, ch))
      ensures ch.active == index.Some?
    {
      hide Tracking, Once, Subscribed, Placed, Shaped, Slots;
      index := None;
      ch := new Channel();
      if topic != "" && hasAction {
        index := Claim(topic, ch);
        if index.Some? {
          ChannelsApart(ch);
          var _ := ch.Run();
        }
        SubTracks(st, maxSubs, topic, ch);
        Note(Step.Sub(topic, ch));
      }
    }

    /** The channel that holds the slot, if one does. */
    ghost function SlotAt(topic: string, index: int): (s: set<Channel>)
      reads this`registry, Arrays()
    {
      if topic in registry && 0 <= index < registry[topic].chs.Length && registry[topic].chs[index] != null
      then {registry[topic].chs[index]}
      else {}
    }

    /** Frees slot `index` and stops its channel. */
    method Free(index: int, topic: string) returns (r: Unsubscription)
      requires Shaped()
      modifies Arrays(), SlotAt(topic, index)
      ensures Shaped() && (Slots(), r) == Unsubscribed(old(Slots()), topic, index)
      ensures r == Done <==> old(SlotAt(topic, index)) != {}
      ensures r == NoTopic <==> topic !in registry
      ensures r == OutOfRange <==> topic in registry && (index < 0 || index > maxSubs)
      ensures r == IndexPanic <==> topic in registry && index == maxSubs
      ensures r == Done ==> |old(SlotAt(topic, index))| == 1
      ensures forall ch :: ch in old(SlotAt(topic, index)) ==>
        !ch.active && ch.got == old(ch.got) && old(Slots())[topic][index] == Some(ch)
      ensures forall ch :: ch in st.got && ch !in old(SlotAt(topic, index)) ==>
        ch.got == old(ch.got) && ch.active == old(ch.active)
    {
      ghost var was := Slots();
      if topic !in registry {
        return NoTopic;
      }
      var t := registry[topic];
      if index < 0 || index > t.chs.Length {
        return OutOfRange;
      }
      if index == t.chs.Length {
        return IndexPanic;
      }
      var ch := t.chs[index];
      if ch == null {
        return FreeSlot;
      }
      ch.Stop();
      ghost var row := t.Row();
      t.chs[index] := null;
      assert t.Row() == row[index := None];
      assert Slots() == was[topic := row[index := None]];
      r := Done;
    }

    /** What a cancel function does, `h` being the handle that it stands for. The slot is freed
        and its channel stopped whoever it belongs to. */
    method Unsub(index: int, topic: string, ghost h: Handle<Channel>) returns (r: Unsubscription)
      requires Valid() && (index >= 0 ==> h.topic == topic && h.index == index)
      modifies Arrays(), this`st, SlotAt(topic, index)
      ensures Valid() && (st.table, r) == Unsubscribed(old(st.table), topic, index)
      ensures r == NoTopic <==> topic !in registry
      ensures r == OutOfRange <==> topic in registry && (index < 0 || index > maxSubs)
      ensures r == IndexPanic <==> topic in registry && index == maxSubs
      ensures r == FreeSlot <==> topic in registry && 0 <= index < maxSubs && old(SlotAt(topic, index)) == {}
      ensures st == if index < 0 then old(st) else Do(old(st), maxSubs, Cancel(h))
      ensures r == Done ==> |old(SlotAt(topic, index))| == 1
      ensures forall ch :: ch in old(SlotAt(topic, index)) ==> !ch.active && ch.got == old(ch.got)
    {
      hide Unsubscribed, Once, Shaped, Do, Matches;
      ghost var gone, was := SlotAt(topic, index), Activity(st);
      r := Free(index, topic);
      CancelTracks(st, maxSubs, h, gone, was);
      if index >= 0 {
        CancelTable(st, maxSubs, h);
        Note(Cancel(h));
      } else {
        NoSuchIndex(st.table, topic, index);
      }
    }

    /** The channels that hold a slot of the topic. */
    ghost function Members(topic: string): set<Channel>
      reads this`registry, Arrays()
    {
      Holders(Slots(), topic)
    }

    method StopAll(topic: string)
      requires topic in registry
      modifies Members(topic)
      ensures Slots() == old(Slots())
      ensures forall ch :: ch in Members(topic) ==> !ch.active && ch.got == old(ch.got)
      ensures forall ch :: ch in st.got && ch !in Members(topic) ==>
        ch.got == old(ch.got) && ch.active == old(ch.active)
    {
      hide Holders;
      var t := registry[topic];
      ghost var table: Table<Channel>, members := Slots(), Members(topic);
      for i := 0 to t.chs.Length
        invariant Slots() == table
        invariant forall j :: 0 <= j < t.chs.Length && table[topic][j].Some? ==>
          table[topic][j].value.got == old(table[topic][j].value.got)
        invariant forall j :: 0 <= j < i && table[topic][j].Some? ==> !table[topic][j].value.active
        invariant forall ch :: ch in st.got && ch !in members ==>
          ch.got == old(ch.got) && ch.active == old(ch.active)
      {
        if t.chs[i] != null {
          HolderAt(table, topic, i);
          ChannelsApart(t.chs[i]);
          t.chs[i].Stop();
        }
      }
      HoldersHave(table, topic);
    }

    method Drop(topic: string)
      requires Shaped()
      modifies this`registry
      ensures Shaped() && registry == old(registry) - {topic} && Slots() == old(Slots()) - {topic}
    {
      ghost var was := Slots();
      registry := registry - {topic};
      assert Slots() == was - {topic};
    }

    /** Removes the topic and stops the channels that held its slots. */
    method Close(topic: string) returns (ok: bool)
      requires Valid()
      modifies this`registry, this`st, Members(topic)
      ensures Valid() && ok == (topic in old(registry))
      ensures registry == old(registry) - {topic} && st == Do(old(st), maxSubs, Step.Close(topic))
      ensures forall ch :: ch in old(Members(topic)) ==> !ch.active && ch.got == old(ch.got)
    {
      hide Shaped, Once, Matches, Holders;
      ghost var was, members := Activity(st), Members(topic);
      HoldersHave(Slots(), topic);
      ok := topic in registry;
      if ok {
        StopAll(topic);
      }
      assert forall ch :: ch in members ==> !ch.active && ch.got == old(ch.got);
      Drop(topic);
      CloseTracks(st, maxSubs, topic, was);
      Note(Step.Close(topic));
    }

    /** Sends `m` once to every active channel that holds a slot of the topic. */
    method Broadcast(m: Message, topic: string)
      requires Shaped() && Once(Slots())
      modifies Members(topic)
      ensures Slots() == old(Slots())
      ensures forall ch :: ch in Members(topic) ==>
        ch.active == old(ch.active) && ch.got == old(ch.got) + if ch.active then [m] else []
      ensures forall ch :: ch in st.got && ch !in Members(topic) ==>
        ch.got == old(ch.got) && ch.active == old(ch.active)
    {
      hide Holders, Shaped, Once;
      ghost var table: Table<Channel>, members := Slots(), Members(topic);
      HoldersHave(table, topic);
      OnceInRow(table, topic);
      if topic !in registry {
        return;
      }
      var t := registry[topic];
      for i := 0 to t.chs.Length
        invariant Slots() == table
        invariant forall j :: 0 <= j < t.chs.Length && table[topic][j].Some? ==>
          var ch := table[topic][j].value;
          && ch.active == old(ch.active)
          && ch.got == old(ch.got) + if j < i && ch.active then [m] else []
        invariant forall ch :: ch in st.got && ch !in members ==>
          ch.got == old(ch.got) && ch.active == old(ch.active)
      {
        if t.chs[i] != null {
          HolderAt(table, topic, i);
          ChannelsApart(t.chs[i]);
          t.chs[i].Send(m);
        }
      }
    }

    /** Reaches exactly the subscribers that the run says it does; where handles were used as
        they should be, these are the owners of live handles that no timeout stopped. No other
        channel changes. */
    method Pub(m: Message, topic: string)
      requires Valid()
      modifies this`st, Members(topic)
      ensures Valid() && st == Do(old(st), maxSubs, Step.Pub(topic, m))
      ensures Linked(old(st), maxSubs) ==> forall ch :: ch in old(st.got) ==>
        ch.got == old(ch.got) + if Reached(old(st), topic, ch) then [m] else []
    {
      hide Shaped, Slots, Once, Matches, Holders, Linked;
      ghost var was := Activity(st);
      Broadcast(m, topic);
      PubTracks(st, maxSubs, topic, m, was);
      if Linked(st, maxSubs) {
        forall ch | ch in st.got
          ensures ch in Holders(st.table, topic) && ch !in st.late <==> Reached(st, topic, ch)
        {
          HoldersAreLive(st, maxSubs, topic, ch);
        }
      }
      Note(Step.Pub(topic, m));
    }

    /** A message for the channel timed out: the channel stops, its slot stays taken. */
    method TimeOut(ch: Channel)
      requires Valid() && ch in st.got
      modifies ch, this`st
      ensures Valid() && st == Do(old(st), maxSubs, Step.TimeOut(ch))
    {
      hide Shaped, Slots, Once, Matches;
      ghost var was := Activity(st);
      ChannelsApart(ch);
      ch.Stop();
      TimeOutTracks(st, maxSubs, ch, was);
      Note(Step.TimeOut(ch));
    }
  }
}
