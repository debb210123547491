/** The order in which nodes are tried when every attempt fails and the network does not
    change meanwhile (node/dispatcher.go). */
module RetryOrder {
  import opened Nodes
  import opened Dispatch

  /** The identifiers of the root and of the active remotes are different. */
  ghost predicate Distinct(s: Snapshot) {
    forall p, q :: Offered(s, p) && Offered(s, q) && p != q ==> IdOf(s, p) != IdOf(s, q)
  }

  /** Every node of the snapshot was tried: `DialContext` ended with a failure. */
  ghost predicate TriedAll(s: Snapshot, ps: seq<Pick>) {
    TriesBalanced(_ => s, ps) && Exhausted(s, IdsOf(_ => s, ps))
  }

  /** `DialContext` over a fixed network in which every dial fails tries every node. */
  method DialFailing(s: Snapshot, code: nat) returns (r: Dialed, ps: seq<Pick>)
    ensures r == Failed(code) && TriedAll(s, ps)
  {
    ghost var universe := {s.root.id} + set i | 0 <= i < |s.remotes| :: s.remotes[i].id;
    var net: nat -> Snapshot := _ => s;
    assert forall k :: net(k) == s;
    r, ps := DialContext(net, _ => DialError(code), universe);
  }

  /** The picks in the order tried are a permutation of the root and the active remotes. */
  lemma TriedIsPermutation(s: Snapshot, ps: seq<Pick>)
    requires Distinct(s) && TriedAll(s, ps)
    ensures forall i, j :: 0 <= i < j < |ps| ==> ps[i] != ps[j]
    ensures forall p :: p in ps <==> Offered(s, p)
  {
    var ids := IdsOf(_ => s, ps);
    forall i, j | 0 <= i < j < |ps|
      ensures ps[i] != ps[j]
    {
      assert ids[..j][i] == ids[i];
    }
    forall p
      ensures p in ps <==> Offered(s, p)
    {
      if Offered(s, p) {
        assert !Eligible(s, ids, p);
        var j :| 0 <= j < |ids| && ids[j] == IdOf(s, p);
        assert ps[j] == p;
      }
    }
  }

  /** Loads never decrease along the attempts, and on equal load no remote is tried after
      the root. */
  lemma TriedInLoadOrder(s: Snapshot, ps: seq<Pick>, i: nat, j: nat)
    requires Distinct(s) && TriedAll(s, ps) && i < j < |ps|
    ensures Load(s, ps[i]) <= Load(s, ps[j])
    ensures ps[i] == Root ==> Load(s, ps[i]) < Load(s, ps[j])
  {
    var ids := IdsOf(_ => s, ps);
    TriedIsPermutation(s, ps);
    assert IdOf(s, ps[j]) !in ids[..i] by {
      assert forall k :: 0 <= k < i ==> ids[..j][k] == ids[..i][k];
    }
    assert Eligible(s, ids[..i], ps[j]);
  }

  // ----- The sequence of loads does not depend on the order of the list -----

  function Loads(s: Snapshot, ps: seq<Pick>): (ls: seq<int>)
    ensures |ls| == |ps|
  {
    seq(|ps|, i requires 0 <= i < |ps| => Load(s, ps[i]))
  }

  /** The images of the elements of `xs`, one after the other. */
  function Collect<A, B>(xs: seq<A>, f: A -> seq<B>): seq<B> {
    if xs == [] then [] else f(xs[0]) + Collect(xs[1..], f)
  }

  lemma CollectHead<A, B>(xs: seq<A>, f: A -> seq<B>)
    ensures Collect(xs, f) == if xs == [] then [] else f(xs[0]) + Collect(xs[1..], f)
  {
  }

  lemma Associates<B>(a: seq<B>, b: seq<B>, c: seq<B>)
    ensures a + (b + c) == (a + b) + c
  {
  }

  lemma {:induction false} CollectSplits<A, B>(xs: seq<A>, ys: seq<A>, f: A -> seq<B>)
    ensures Collect(xs + ys, f) == Collect(xs, f) + Collect(ys, f)
  {
    hide Collect;
    CollectHead(xs, f);
    CollectHead(xs + ys, f);
    if xs == [] {
      assert xs + ys == ys;
    } else {
      CollectSplits(xs[1..], ys, f);
      assert (xs + ys)[0] == xs[0] && (xs + ys)[1..] == xs[1..] + ys;
      Associates(f(xs[0]), Collect(xs[1..], f), Collect(ys, f));
    }
  }

  function Without<A>(ys: seq<A>, k: nat): seq<A>
    requires k < |ys|
  {
    ys[..k] + ys[k + 1..]
  }

  lemma RemoveOne<A>(ys: seq<A>, k: nat)
    requires k < |ys|
    ensures multiset(ys) == multiset{ys[k]} + multiset(Without(ys, k))
  {
    assert ys == ys[..k] + ([ys[k]] + ys[k + 1..]);
  }

  lemma CollectRemoves<A, B>(ys: seq<A>, k: nat, f: A -> seq<B>)
    requires k < |ys|
    ensures multiset(Collect(ys, f)) == multiset(f(ys[k])) + multiset(Collect(Without(ys, k), f))
  {
    var before, after := ys[..k], ys[k + 1..];
    assert ys == before + ([ys[k]] + after);
    CollectSplits(before, after, f);
    CollectSplits(before, [ys[k]] + after, f);
    assert Collect([ys[k]] + after, f) == f(ys[k]) + Collect(after, f);
  }

  lemma {:induction false} CollectPermutes<A, B>(xs: seq<A>, ys: seq<A>, f: A -> seq<B>)
    requires multiset(xs) == multiset(ys)
    ensures multiset(Collect(xs, f)) == multiset(Collect(ys, f))
    decreases |xs|
  {
    hide Collect, Without;
    if xs == [] {
      assert |multiset(ys)| == 0;
    } else {
      assert xs[0] in multiset(ys);
      var k :| 0 <= k < |ys| && ys[k] == xs[0];
      RemoveOne(xs, 0);
      RemoveOne(ys, k);
      CollectRemoves(xs, 0, f);
      CollectRemoves(ys, k, f);
      assert multiset(Without(xs, 0)) == multiset(xs) - multiset{xs[0]} == multiset(Without(ys, k));
      assert |multiset(Without(xs, 0))| == |xs| - 1;
      CollectPermutes(Without(xs, 0), Without(ys, k), f);
    }
  }

  function ActiveLoad(v: View): seq<int> {
    if v.active then [v.load] else []
  }

  function UnaryLoad(v: View): seq<int> {
    if v.active then seq(v.load, _ => 0) else []
  }

  lemma {:induction false} TotalLoadInUnary(vs: seq<View>)
    ensures TotalLoad(vs) == |Collect(vs, UnaryLoad)|
  {
    if vs != [] {
      var init, v := vs[..|vs| - 1], vs[|vs| - 1];
      TotalLoadInUnary(init);
      CollectSplits(init, [v], UnaryLoad);
      assert vs == init + [v] && Collect([v], UnaryLoad) == UnaryLoad(v) + [];
    }
  }

  /** The total does not depend on the order of the list. */
  lemma TotalLoadPermutes(vs: seq<View>, ws: seq<View>)
    requires multiset(vs) == multiset(ws)
    ensures TotalLoad(vs) == TotalLoad(ws)
  {
    TotalLoadInUnary(vs);
    TotalLoadInUnary(ws);
    CollectPermutes(vs, ws, UnaryLoad);
    var xs, ys := Collect(vs, UnaryLoad), Collect(ws, UnaryLoad);
    assert |multiset(xs)| == |xs| && |multiset(ys)| == |ys|;
  }

  /** The active ones among the first `n` remotes. */
  function ActivePicks(s: Snapshot, n: nat): seq<Pick>
    requires n <= |s.remotes|
  {
    if n == 0 then []
    else ActivePicks(s, n - 1) + if s.remotes[n - 1].active then [Remote(n - 1)] else []
  }

  function PickCount(s: Snapshot, n: nat, p: Pick): nat
    requires n <= |s.remotes|
  {
    multiset(ActivePicks(s, n))[p]
  }

  lemma OneMorePick(s: Snapshot, n: nat, p: Pick)
    requires 0 < n <= |s.remotes|
    ensures PickCount(s, n, p) ==
      PickCount(s, n - 1, p) + if p == Remote(n - 1) && s.remotes[n - 1].active then 1 else 0
  {
    var init := ActivePicks(s, n - 1);
    if s.remotes[n - 1].active {
      assert ActivePicks(s, n) == init + [Remote(n - 1)];
    } else {
      assert ActivePicks(s, n) == init;
    }
    hide ActivePicks;
  }

  lemma NoPick(s: Snapshot, p: Pick)
    ensures PickCount(s, 0, p) == 0
  {
  }

  lemma {:induction false} ActivePickOnce(s: Snapshot, n: nat, p: Pick)
    requires n <= |s.remotes|
    ensures PickCount(s, n, p) == if p.Remote? && p.index < n && s.remotes[p.index].active then 1 else 0
  {
    hide PickCount, ActivePicks;
    if n == 0 {
      NoPick(s, p);
    } else {
      ActivePickOnce(s, n - 1, p);
      OneMorePick(s, n, p);
    }
  }

  lemma ActivePicksOnce(s: Snapshot, n: nat)
    requires n <= |s.remotes|
    ensures forall p :: multiset(ActivePicks(s, n))[p] ==
                        if p.Remote? && p.index < n && s.remotes[p.index].active then 1 else 0
  {
    hide ActivePicks;
    forall p
      ensures PickCount(s, n, p) == if p.Remote? && p.index < n && s.remotes[p.index].active then 1 else 0
    {
      ActivePickOnce(s, n, p);
    }
  }

  function LoadOf(s: Snapshot): Pick -> seq<int> {
    p => [Load(s, p)]
  }

  lemma CollectOne<A, B>(x: A, f: A -> seq<B>)
    ensures Collect([x], f) == f(x)
  {
    assert [x][1..] == [] && Collect([], f) == [];
  }

  lemma LastLoads(s: Snapshot, n: nat)
    requires 0 < n <= |s.remotes|
    ensures var v := s.remotes[n - 1];
            Collect(if v.active then [Remote(n - 1)] else [], LoadOf(s)) == Collect([v], ActiveLoad)
  {
    CollectOne(Remote(n - 1), LoadOf(s));
    CollectOne(s.remotes[n - 1], ActiveLoad);
  }

  lemma {:induction false} ActivePicksLoads(s: Snapshot, n: nat)
    requires n <= |s.remotes|
    ensures Collect(ActivePicks(s, n), LoadOf(s)) == Collect(s.remotes[..n], ActiveLoad)
  {
    if n > 0 {
      var v := s.remotes[n - 1];
      var p := if v.active then [Remote(n - 1)] else [];
      ActivePicksLoads(s, n - 1);
      CollectSplits(ActivePicks(s, n - 1), p, LoadOf(s));
      CollectSplits(s.remotes[..n - 1], [v], ActiveLoad);
      LastLoads(s, n);
      hide Collect, LoadOf, ActiveLoad;
      assert s.remotes[..n] == s.remotes[..n - 1] + [v];
    }
  }

  lemma {:induction false} LoadsCollect(s: Snapshot, ps: seq<Pick>)
    ensures Collect(ps, LoadOf(s)) == Loads(s, ps)
  {
    if ps != [] {
      LoadsCollect(s, ps[1..]);
      assert Loads(s, ps) == [Load(s, ps[0])] + Loads(s, ps[1..]);
    }
  }

  lemma {:induction false} CountOnce<A>(xs: seq<A>, x: A)
    requires forall i, j :: 0 <= i < j < |xs| ==> xs[i] != xs[j]
    ensures multiset(xs)[x] == if x in xs then 1 else 0
  {
    if xs != [] {
      var init, last := xs[..|xs| - 1], xs[|xs| - 1];
      assert xs == init + [last];
      CountOnce(init, x);
    }
  }

  lemma TriedOnceEach(s: Snapshot, ps: seq<Pick>)
    requires Distinct(s) && TriedAll(s, ps)
    ensures multiset(ps) == multiset([Root] + ActivePicks(s, |s.remotes|))
  {
    var active := ActivePicks(s, |s.remotes|);
    TriedIsPermutation(s, ps);
    ActivePicksOnce(s, |s.remotes|);
    assert multiset([Root] + active) == multiset{Root} + multiset(active);
    hide TriedAll, ActivePicks;
    forall p
      ensures multiset(ps)[p] == multiset([Root] + active)[p]
    {
      CountOnce(ps, p);
    }
  }

  lemma AllLoads(s: Snapshot)
    ensures Collect([Root] + ActivePicks(s, |s.remotes|), LoadOf(s)) ==
      [s.root.load - TotalLoad(s.remotes)] + Collect(s.remotes, ActiveLoad)
  {
    var n := |s.remotes|;
    CollectSplits([Root], ActivePicks(s, n), LoadOf(s));
    ActivePicksLoads(s, n);
    assert s.remotes[..n] == s.remotes;
    assert Collect([Root], LoadOf(s)) == [Load(s, Root)];
  }

  /** The bag of loads along the attempts, read off the list of remotes. */
  lemma LoadBag(s: Snapshot, ps: seq<Pick>)
    requires Distinct(s) && TriedAll(s, ps)
    ensures multiset(Loads(s, ps)) ==
      multiset{s.root.load - TotalLoad(s.remotes)} + multiset(Collect(s.remotes, ActiveLoad))
  {
    hide TriedAll, Distinct, ActivePicks, TotalLoad, Loads, Collect, LoadOf;
    TriedOnceEach(s, ps);
    CollectPermutes(ps, [Root] + ActivePicks(s, |s.remotes|), LoadOf(s));
    LoadsCollect(s, ps);
    AllLoads(s);
  }

  ghost predicate Sorted(ls: seq<int>) {
    forall i, j :: 0 <= i < j < |ls| ==> ls[i] <= ls[j]
  }

  lemma SameHead(xs: seq<int>, ys: seq<int>)
    requires Sorted(xs) && Sorted(ys) && multiset(xs) == multiset(ys) && xs != [] && ys != []
    ensures xs[0] == ys[0]
  {
    assert xs[0] in multiset(ys) && ys[0] in multiset(xs);
  }

  lemma TailBag(xs: seq<int>)
    requires xs != []
    ensures multiset(xs[1..]) == multiset(xs) - multiset{xs[0]}
  {
    assert xs == [xs[0]] + xs[1..];
  }

  lemma {:induction false} SortedUnique(xs: seq<int>, ys: seq<int>)
    requires Sorted(xs) && Sorted(ys) && multiset(xs) == multiset(ys)
    ensures xs == ys
  {
    assert |multiset(xs)| == |xs| && |multiset(ys)| == |ys|;
    if xs != [] {
      SameHead(xs, ys);
      TailBag(xs);
      TailBag(ys);
      SortedUnique(xs[1..], ys[1..]);
      assert xs == [xs[0]] + xs[1..] && ys == [ys[0]] + ys[1..];
    }
  }

  lemma LoadsSorted(s: Snapshot, ps: seq<Pick>)
    requires Distinct(s) && TriedAll(s, ps)
    ensures Sorted(Loads(s, ps))
  {
    forall i, j | 0 <= i < j < |ps|
      ensures Loads(s, ps)[i] <= Loads(s, ps)[j]
    {
      TriedInLoadOrder(s, ps, i, j);
    }
  }

  /** Listing the remotes in another order leads to the same sequence of loads. */
  lemma LoadsIndependentOfList(s: Snapshot, ps: seq<Pick>, s': Snapshot, ps': seq<Pick>)
    requires s.root == s'.root && multiset(s.remotes) == multiset(s'.remotes)
    requires Distinct(s) && TriedAll(s, ps)
    requires Distinct(s') && TriedAll(s', ps')
    ensures Loads(s, ps) == Loads(s', ps')
  {
    hide TriedAll, Distinct, Loads, Collect, TotalLoad, Sorted;
    LoadBag(s, ps);
    LoadBag(s', ps');
    TotalLoadPermutes(s.remotes, s'.remotes);
    CollectPermutes(s.remotes, s'.remotes, ActiveLoad);
    LoadsSorted(s, ps);
    LoadsSorted(s', ps');
    SortedUnique(Loads(s, ps), Loads(s', ps'));
  }
}
