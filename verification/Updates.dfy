/** Sequences of tunnel updates (booster/network.go, booster/handlers.go). A publication is
    forwarded by a goroutine of its own, so the updates of a node can arrive in any order
    and a removal can overtake the addition it belongs to. */
module Updates {
  import opened Nodes

  /** The table after the updates, and the targets whose removal failed. */
  function Run(bag: multiset<Target>, us: seq<Update>): (multiset<Target>, multiset<Target>) {
    if us == [] then (bag, multiset{})
    else
      var (b, failed) := Run(bag, us[..|us| - 1]);
      var u := us[|us| - 1];
      var (b', ok) := Apply(b, u);
      (b', if ok then failed else failed + multiset{u.target})
  }

  /** What the table would hold if every removal counted. */
  function Net(bag: multiset<Target>, us: seq<Update>, t: Target): int {
    bag[t] as int + multiset(us)[Update(t, Added)] as int - multiset(us)[Update(t, Removed)] as int
  }

  /** How far some prefix of the updates removes more than there is. */
  function Shortfall(bag: multiset<Target>, us: seq<Update>, t: Target): nat {
    if us == [] then 0
    else
      var s := Shortfall(bag, us[..|us| - 1], t);
      if s < -Net(bag, us, t) then -Net(bag, us, t) else s
  }

  /** The removals that fail are exactly the deepest shortfall of any prefix, and the table
      is too large by just that much. */
  lemma {:induction false} RunExact(bag: multiset<Target>, us: seq<Update>, t: Target)
    ensures Run(bag, us).1[t] == Shortfall(bag, us, t)
    ensures Run(bag, us).0[t] == Net(bag, us, t) + Shortfall(bag, us, t)
  {
    if us != [] {
      var init, u := us[..|us| - 1], us[|us| - 1];
      RunExact(bag, init, t);
      assert us == init + [u];
      assert Net(bag, us, t) == Net(bag, init, t)
        + if u.target != t then 0 else if u.operation == Added then 1 else -1;
    }
  }

  /** No prefix removes target `t` more often than it is there to remove. */
  ghost predicate Covered(bag: multiset<Target>, us: seq<Update>, t: Target) {
    forall k :: 0 <= k <= |us| ==> Net(bag, us[..k], t) >= 0
  }

  ghost predicate NoOverdraft(bag: multiset<Target>, us: seq<Update>) {
    forall t :: Covered(bag, us, t)
  }

  lemma {:induction false} ShortfallIsWorst(bag: multiset<Target>, us: seq<Update>, t: Target)
    ensures Shortfall(bag, us, t) == 0 <==> Covered(bag, us, t)
  {
    if us == [] {
      assert us[..0] == [];
    } else {
      var init := us[..|us| - 1];
      ShortfallIsWorst(bag, init, t);
      assert us[..|us|] == us;
      assert forall k :: 0 <= k <= |init| ==> us[..k] == init[..k];
    }
  }

  /** No removal fails exactly when no prefix overdraws the table; the table then holds the
      additions less the removals. */
  lemma NoFailureIff(bag: multiset<Target>, us: seq<Update>)
    ensures Run(bag, us).1 == multiset{} <==> NoOverdraft(bag, us)
    ensures NoOverdraft(bag, us) ==> forall t :: Run(bag, us).0[t] == Net(bag, us, t)
  {
    hide Run, Covered, Net, Shortfall;
    var failed := Run(bag, us).1;
    forall t
      ensures failed[t] == 0 <==> Covered(bag, us, t)
      ensures failed[t] == 0 ==> Run(bag, us).0[t] == Net(bag, us, t)
    {
      RunExact(bag, us, t);
      ShortfallIsWorst(bag, us, t);
    }
    if NoOverdraft(bag, us) {
      assert forall t :: failed[t] == 0;
      assert failed == multiset{};
    }
  }

  /** Two orders of the same updates end in the same table exactly when they make the same
      removals fail. */
  lemma OrderIndependence(bag: multiset<Target>, us: seq<Update>, vs: seq<Update>)
    requires multiset(us) == multiset(vs)
    ensures Run(bag, us).0 == Run(bag, vs).0 <==> Run(bag, us).1 == Run(bag, vs).1
    ensures NoOverdraft(bag, us) && NoOverdraft(bag, vs) ==> Run(bag, us) == Run(bag, vs)
  {
    hide Run, NoOverdraft, Shortfall;
    NoFailureIff(bag, us);
    NoFailureIff(bag, vs);
    var r, q := Run(bag, us), Run(bag, vs);
    forall t
      ensures r.0[t] + q.1[t] == q.0[t] + r.1[t]
    {
      RunExact(bag, us, t);
      RunExact(bag, vs, t);
    }
    if r.0 == q.0 {
      assert forall t :: r.1[t] == q.1[t];
      assert r.1 == q.1;
    }
    if r.1 == q.1 {
      assert forall t :: r.0[t] == q.0[t];
      assert r.0 == q.0;
    }
  }

  function Targets(us: seq<Update>, op: Operation): multiset<Target> {
    if us == [] then multiset{}
    else
      var u := us[|us| - 1];
      Targets(us[..|us| - 1], op) + if u.operation == op then multiset{u.target} else multiset{}
  }

  lemma ApplyBalance(bag: multiset<Target>, u: Update)
    ensures var (b, ok) := Apply(bag, u);
      if u.operation == Added then ok && b == bag + multiset{u.target}
      else if ok then b + multiset{u.target} == bag
      else b == bag
  {
  }

  lemma Ledger(bag: multiset<Target>, c: multiset<Target>, adds: multiset<Target>,
    removes: multiset<Target>, f: multiset<Target>, one: multiset<Target>)
    requires c + removes == bag + adds + f
    ensures (c + one) + removes == bag + (adds + one) + f
    ensures c + (removes + one) == bag + adds + (f + one)
    ensures one <= c ==> (c - one) + (removes + one) == bag + adds + f
  {
    forall t: Target
      ensures c[t] + removes[t] == bag[t] + adds[t] + f[t]
    {
      assert (c + removes)[t] == (bag + adds + f)[t];
    }
  }

  lemma {:induction false} NothingLost(bag: multiset<Target>, us: seq<Update>)
    ensures var (b, failed) := Run(bag, us);
      b + Targets(us, Removed) == bag + Targets(us, Added) + failed
  {
    hide Apply;
    if us != [] {
      var init, u := us[..|us| - 1], us[|us| - 1];
      NothingLost(bag, init);
      var (c, f) := Run(bag, init);
      var adds, removes, one := Targets(init, Added), Targets(init, Removed), multiset{u.target};
      ApplyBalance(c, u);
      Ledger(bag, c, adds, removes, f, one);
      assert adds + multiset{} == adds && removes + multiset{} == removes;
      if u.operation == Removed && Apply(c, u).1 {
        assert c - one == Apply(c, u).0;
      }
    }
  }

  /** What was there, what was added and what could not be removed is what is there and
      what was to be removed; so the workload is off by the removals that failed. */
  lemma WorkloadBalance(bag: multiset<Target>, us: seq<Update>)
    ensures var (b, failed) := Run(bag, us);
      && b + Targets(us, Removed) == bag + Targets(us, Added) + failed
      && |b| == |bag| + |Targets(us, Added)| - |Targets(us, Removed)| + |failed|
  {
    hide Run, Targets;
    NothingLost(bag, us);
    var (b, failed) := Run(bag, us);
    assert |b + Targets(us, Removed)| == |bag + Targets(us, Added) + failed|;
  }

  /** What a node makes of the updates that its connection delivers: a failed removal is
      logged and otherwise ignored. */
  method Deliver(n: Node, us: seq<Update>) returns (failures: nat)
    requires n.Valid()
    modifies n, n.tunnels.Values
    ensures n.Valid()
    ensures n.Bag() == Run(old(n.Bag()), us).0
    ensures failures == |Run(old(n.Bag()), us).1|
  {
    hide Apply;
    failures := 0;
    ghost var was := n.Bag();
    assert us[..|us|] == us;
    for i := 0 to |us|
      invariant n.Valid()
      invariant n.Bag() == Run(was, us[..i]).0
      invariant failures == |Run(was, us[..i]).1|
      invariant forall t :: t in n.tunnels.Values ==> t in old(n.tunnels.Values) || fresh(t)
    {
      assert us[..i + 1][..i] == us[..i];
      var ok := n.UpdateNode(us[i]);
      failures := if ok then failures else failures + 1;
    }
  }
}
