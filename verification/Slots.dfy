/** The slots of the topics (pubsub/pubsub.go), as a table. */
module Slots {
  import opened Streams

  datatype Message = Message(number: nat)

  /** For every topic its row of slots, each free or taken by a subscriber. */
  type Table<S> = map<string, seq<Option<S>>>

  function FirstFree<S>(row: seq<Option<S>>): (i: nat)
    ensures i <= |row| && (forall j :: 0 <= j < i ==> row[j].Some?) && (i < |row| ==> row[i].None?)
  {
    if row == [] || row[0].None? then 0 else 1 + FirstFree(row[1..])
  }

  lemma FirstFreeIs<S>(row: seq<Option<S>>, i: nat)
    requires i <= |row| && (forall j :: 0 <= j < i ==> row[j].Some?) && (i < |row| ==> row[i].None?)
    ensures FirstFree(row) == i
  {
  }

  function EmptyRow<S>(n: nat): seq<Option<S>> {
    seq(n, _ => None)
  }

  function RowOf<S>(t: Table<S>, max: nat, topic: string): seq<Option<S>> {
    if topic in t then t[topic] else EmptyRow(max)
  }

  /** The subscriber gets the first free slot of the topic, which is created if needed. */
  function Subscribed<S>(t: Table<S>, max: nat, topic: string, s: S): (Table<S>, Option<nat>) {
    var row := RowOf(t, max, topic);
    var i := FirstFree(row);
    if i < |row| then (t[topic := row[i := Some(s)]], Some(i)) else (t[topic := row], None)
  }

  /** `IndexPanic` is the access one past the end that the range check lets through. */
  datatype Unsubscription = Done | NoTopic | OutOfRange | IndexPanic | FreeSlot

  function Unsubscribed<S>(t: Table<S>, topic: string, i: int): (Table<S>, Unsubscription) {
    if topic !in t then (t, NoTopic)
    else if i < 0 || i > |t[topic]| then (t, OutOfRange)
    else if i == |t[topic]| then (t, IndexPanic)
    else if t[topic][i].None? then (t, FreeSlot)
    else (t[topic := t[topic][i := None]], Done)
  }

  lemma Overwritten<S>(t: Table<S>, topic: string, a: seq<Option<S>>, b: seq<Option<S>>)
    ensures t[topic := a][topic := b] == t[topic := b]
  {
  }

  /** Who holds a slot of the topic. */
  function Holders<S(==)>(t: Table<S>, topic: string): set<S> {
    if topic !in t then {} else set i: nat | i < |t[topic]| && t[topic][i].Some? :: t[topic][i].value
  }

  lemma HolderAt<S>(t: Table<S>, topic: string, i: nat)
    requires topic in t && i < |t[topic]| && t[topic][i].Some?
    ensures t[topic][i].value in Holders(t, topic)
  {
  }

  lemma HoldersHave<S>(t: Table<S>, topic: string)
    ensures topic !in t ==> Holders(t, topic) == {}
    ensures forall s :: s in Holders(t, topic) ==> exists i: nat :: i < |t[topic]| && t[topic][i] == Some(s)
  {
  }

  /** Nobody holds two slots, of one topic or of two. */
  ghost predicate Once<S>(t: Table<S>) {
    forall n, i, k, j ::
      n in t && k in t && 0 <= i < |t[n]| && 0 <= j < |t[k]| && t[n][i].Some? && t[n][i] == t[k][j] ==>
        n == k && i == j
  }

  lemma OnceInRow<S>(t: Table<S>, topic: string)
    requires Once(t)
    ensures topic in t ==> forall i, j ::
      0 <= i < |t[topic]| && 0 <= j < |t[topic]| && i != j && t[topic][i].Some? ==> t[topic][i] != t[topic][j]
  {
  }

  ghost predicate Unused<S>(t: Table<S>, s: S) {
    forall n, i :: n in t && 0 <= i < |t[n]| ==> t[n][i] != Some(s)
  }

  lemma SubscribedOnce<S>(t: Table<S>, max: nat, topic: string, s: S)
    requires Once(t) && Unused(t, s)
    ensures Once(Subscribed(t, max, topic, s).0)
  {
    hide FirstFree;
  }

  lemma UnsubscribedOnce<S>(t: Table<S>, topic: string, i: int)
    requires Once(t)
    ensures Once(Unsubscribed(t, topic, i).0) && Once(t - {topic})
  {
  }
}
