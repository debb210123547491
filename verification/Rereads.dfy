/** The balancer's scan as it reads the loads (node/dispatcher.go): the load of the candidate is
    read again for every comparison and once more at the end, and may have changed. */
module Rereads {
  import opened Nodes
  import opened Dispatch

  /** The load that the k-th read of a node shows. */
  type Reading = (nat, Pick) -> nat

  function Low(low: Snapshot, p: Pick): nat {
    if p.Remote? && p.index < |low.remotes| then low.remotes[p.index].load else low.root.load
  }

  /** No read of a node shows less than the snapshot `low`, or more than `d` above it. */
  ghost predicate Steady(low: Snapshot, d: nat, read: Reading) {
    forall k: nat, p: Pick :: Low(low, p) <= read(k, p) <= Low(low, p) + d
  }

  /** How far the candidate can get above a node that was passed over, among the first `m`: it
      can be passed over wrongly once, by `d`, and then every change of the candidate can lose
      one less. */
  function Drift(m: nat, d: nat): (r: nat)
    ensures m >= 2 ==> r >= d
  {
    if m <= 1 || d == 0 then 0 else if m == 2 then d else Drift(m - 1, d) + d - 1
  }

  lemma DriftGrows(m: nat, d: nat)
    ensures Drift(m, d) <= Drift(m + 1, d)
    ensures m >= 1 && d > 0 ==> Drift(m, d) + d - 1 <= Drift(m + 1, d) && d <= Drift(m + 1, d)
  {
  }

  lemma {:induction false} DriftIs(m: nat, d: nat)
    requires m >= 2 && d > 0
    ensures Drift(m, d) == d + (m - 2) * (d - 1)
  {
    if m > 2 {
      DriftIs(m - 1, d);
      assert (m - 2) * (d - 1) == (m - 3) * (d - 1) + (d - 1);
    }
  }

  /** `c` is the candidate after `m` remotes. */
  ghost predicate Candidate(low: Snapshot, exp: seq<NodeId>, d: nat, m: nat, c: nat) {
    c < m && Eligible(low, exp, Remote(c)) &&
    forall j :: 0 <= j < m && Eligible(low, exp, Remote(j)) ==>
      low.remotes[c].load <= low.remotes[j].load + Drift(m, d) && (d == 0 ==> Before(low, Remote(c), Remote(j)))
  }

  /** The load of the root, as the scan of the first `m` remotes sees it, is this far off. */
  ghost predicate TotalSeen(low: Snapshot, d: nat, m: nat, twl: nat)
    requires m <= |low.remotes|
  {
    TotalLoad(low.remotes[..m]) <= twl <= TotalLoad(low.remotes[..m]) + m * d
  }

  lemma NextCandidate(low: Snapshot, exp: seq<NodeId>, d: nat, m: nat, c: nat, ewl: nat, cwl: nat)
    requires m < |low.remotes| && Candidate(low, exp, d, m, c) && Eligible(low, exp, Remote(m))
    requires low.remotes[m].load <= ewl <= low.remotes[m].load + d
    requires low.remotes[c].load <= cwl <= low.remotes[c].load + d
    ensures Candidate(low, exp, d, m + 1, if ewl < cwl then m else c)
  {
    DriftGrows(m, d);
    hide Drift;
  }

  lemma SkippedCandidate(low: Snapshot, exp: seq<NodeId>, d: nat, m: nat, c: nat)
    requires m < |low.remotes| && Candidate(low, exp, d, m, c) && !Eligible(low, exp, Remote(m))
    ensures Candidate(low, exp, d, m + 1, c)
  {
    DriftGrows(m, d);
    hide Drift;
  }

  lemma FirstCandidate(low: Snapshot, exp: seq<NodeId>, d: nat, m: nat)
    requires m < |low.remotes| && Eligible(low, exp, Remote(m))
    requires forall j :: 0 <= j < m ==> !Eligible(low, exp, Remote(j))
    ensures Candidate(low, exp, d, m + 1, m)
  {
  }

  lemma NextTotal(low: Snapshot, d: nat, m: nat, twl: nat, ewl: nat)
    requires m < |low.remotes| && TotalSeen(low, d, m, twl)
    requires low.remotes[m].load <= ewl <= low.remotes[m].load + d
    ensures TotalSeen(low, d, m + 1, if low.remotes[m].active then twl + ewl else twl)
  {
    assert low.remotes[..m + 1][..m] == low.remotes[..m];
    assert (m + 1) * d == m * d + d;
  }

  /** The loop over the remotes; `k` counts the reads. */
  method Scan(low: Snapshot, exp: seq<NodeId>, d: nat, read: Reading, start: nat)
    returns (found: bool, c: nat, twl: nat, k: nat)
    requires Steady(low, d, read)
    ensures TotalLoad(low.remotes) <= twl <= TotalLoad(low.remotes) + |low.remotes| * d
    ensures found ==> Candidate(low, exp, d, |low.remotes|, c)
    ensures !found ==> forall j :: 0 <= j < |low.remotes| ==> !Eligible(low, exp, Remote(j))
  {
    hide TotalSeen, Candidate, Drift;
    found, c, twl, k := false, 0, 0, start;
    NothingSeen(low, d);
    for i := 0 to |low.remotes|
      invariant TotalSeen(low, d, i, twl)
      invariant found ==> Candidate(low, exp, d, i, c) && c < i
      invariant !found ==> forall j :: 0 <= j < i ==> !Eligible(low, exp, Remote(j))
    {
      var e := low.remotes[i];
      if !e.active {
        NextTotal(low, d, i, twl, e.load);
        if found {
          SkippedCandidate(low, exp, d, i, c);
        }
        continue;
      }
      var ewl := read(k, Remote(i));
      k := k + 1;
      NextTotal(low, d, i, twl, ewl);
      twl := twl + ewl;
      if e.id in exp {
        if found {
          SkippedCandidate(low, exp, d, i, c);
        }
        continue;
      }
      ghost var first := !found;
      if !found {
        found, c := true, i;
      }
      var cwl := read(k, Remote(c));
      k := k + 1;
      if first {
        FirstCandidate(low, exp, d, i);
      } else {
        NextCandidate(low, exp, d, i, c, ewl, cwl);
      }
      if ewl < cwl {
        c := i;
      }
    }
    AllSeen(low, d, twl);
  }

  lemma NothingSeen(low: Snapshot, d: nat)
    ensures TotalSeen(low, d, 0, 0)
  {
    assert low.remotes[..0] == [];
  }

  lemma AllSeen(low: Snapshot, d: nat, twl: nat)
    requires TotalSeen(low, d, |low.remotes|, twl)
    ensures TotalLoad(low.remotes) <= twl <= TotalLoad(low.remotes) + |low.remotes| * d
  {
    assert low.remotes[..|low.remotes|] == low.remotes;
  }

  /** If no load changes by more than `d` during the scan: it fails exactly when nothing is left;
      a remote that is picked is at most `Drift` above any other remote that is left, and at
      most `d` above the root if that is left; the root is picked within these bounds and the
      changes of all remotes; and without changes the pick is the balanced one. */
  method GetNodeReading(low: Snapshot, exp: seq<NodeId>, d: nat, read: Reading) returns (p: Pick, ok: bool)
    requires Steady(low, d, read)
    ensures if ok then Eligible(low, exp, p) else p == Root && Exhausted(low, exp)
    ensures ok && p.Remote? ==> forall q: Pick :: q.Remote? && Eligible(low, exp, q) ==>
      Load(low, p) <= Load(low, q) + Drift(|low.remotes|, d)
    ensures ok && p.Remote? && Eligible(low, exp, Root) ==> Load(low, p) <= Load(low, Root) + d
    ensures ok && p == Root ==> forall q: Pick :: q.Remote? && Eligible(low, exp, q) ==>
      Load(low, Root) < Load(low, q) + Drift(|low.remotes|, d) + d + |low.remotes| * d
    ensures ok && d == 0 ==> Balanced(low, exp, p)
  {
    hide Drift;
    var tr: int := read(0, Root);
    var found, c, twl, k := Scan(low, exp, d, read, 1);
    if !found {
      return Root, low.root.id !in exp;
    }
    var cwl := read(k, Remote(c));
    if cwl > tr - twl {
      if low.root.id in exp {
        return Remote(c), true;
      }
      return Root, true;
    }
    return Remote(c), true;
  }
}
