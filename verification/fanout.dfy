/** Asking all peers at once, with a pace set by the primary (fanOut in internal/sync/peers.go). */
module FanOuts {
  import opened Basics

  /** How long stragglers get at least, in seconds. */
  const STRAGGLER_GRACE := 5

  /** The outcome of one peer's request: its place in the list, whether it
      succeeded, and when it came in since the start. */
  datatype Outcome = Outcome(index: nat, ok: bool, at: int)

  /** Every peer's request ends once, in the order of time. */
  ghost predicate Complete(n: nat, outcomes: seq<Outcome>) {
    && (forall i, j :: 0 <= i < j < |outcomes| ==> outcomes[i].index != outcomes[j].index && outcomes[i].at <= outcomes[j].at)
    && (forall j :: 0 <= j < |outcomes| ==> outcomes[j].index < n && outcomes[j].at >= 0)
    && (forall i: nat :: i < n ==> Ends(outcomes, i))
  }

  ghost predicate Ends(outcomes: seq<Outcome>, i: nat) {
    exists j :: 0 <= j < |outcomes| && outcomes[j].index == i
  }

  predicate AnyOk(outcomes: seq<Outcome>) {
    exists j :: 0 <= j < |outcomes| && outcomes[j].ok
  }

  /** The primary's request has ended, and it or another one succeeded. */
  predicate Paced(outcomes: seq<Outcome>) {
    exists j :: 0 <= j < |outcomes| && outcomes[j].index == 0 && (outcomes[j].ok || AnyOk(outcomes))
  }

  /** The outcome that sets the pace. */
  predicate IsPace(outcomes: seq<Outcome>, p: int) {
    0 <= p < |outcomes| && Paced(outcomes[..p + 1]) && !Paced(outcomes[..p])
  }

  function DeadlineOf(pace: int): int { pace + Max(STRAGGLER_GRACE, pace) }

  /** The outcome comes in before the pace is set or by its deadline. */
  ghost predicate InTime(outcomes: seq<Outcome>, j: nat)
    requires j < |outcomes|
  {
    forall p :: p < j && IsPace(outcomes, p) ==> outcomes[j].at <= DeadlineOf(outcomes[p].at)
  }

  lemma PacedStays(outcomes: seq<Outcome>, i: nat, j: nat)
    requires i <= j <= |outcomes| && Paced(outcomes[..i])
    ensures Paced(outcomes[..j])
  {
    var k :| 0 <= k < i && outcomes[..i][k].index == 0 && (outcomes[..i][k].ok || AnyOk(outcomes[..i]));
    assert outcomes[..j][k] == outcomes[..i][k];
    if AnyOk(outcomes[..i]) {
      var m :| 0 <= m < i && outcomes[..i][m].ok;
      assert outcomes[..j][m].ok;
    }
  }

  lemma OnePace(outcomes: seq<Outcome>, p: int, q: int)
    requires IsPace(outcomes, p) && IsPace(outcomes, q)
    ensures p == q
  {
    if p < q {
      PacedStays(outcomes, p + 1, q);
    } else if q < p {
      PacedStays(outcomes, q + 1, p);
    }
  }

  /** The primary is never too slow: nothing sets the pace before it. */
  lemma PrimaryInTime(outcomes: seq<Outcome>, n: nat, j: nat)
    requires Complete(n, outcomes) && j < |outcomes| && outcomes[j].index == 0
    ensures InTime(outcomes, j)
  {
    forall p | 0 <= p < j
      ensures !IsPace(outcomes, p)
    {
      NoPaceWithoutPrimary(outcomes, p + 1);
    }
  }

  /** If the primary succeeds, the others get as long again as it took, and at least five seconds. */
  lemma StragglersGet(outcomes: seq<Outcome>, n: nat, p: nat, j: nat)
    requires Complete(n, outcomes) && p < |outcomes| && outcomes[p].index == 0 && outcomes[p].ok && j < |outcomes|
    ensures InTime(outcomes, j) <==> outcomes[j].at <= 2 * outcomes[p].at || outcomes[j].at <= outcomes[p].at + 5
  {
    NoPaceWithoutPrimary(outcomes, p);
    assert outcomes[..p + 1][p] == outcomes[p];
    assert IsPace(outcomes, p);
    PaceDecides(outcomes, n, p, j);
  }

  /** If it fails, the pace is set by the first success or by its own end, whichever is later. */
  lemma StragglersOfFailed(outcomes: seq<Outcome>, n: nat, p: nat, first: nat, j: nat)
    requires Complete(n, outcomes) && p < |outcomes| && outcomes[p].index == 0 && !outcomes[p].ok && j < |outcomes|
    requires first < |outcomes| && outcomes[first].ok && forall i :: 0 <= i < first ==> !outcomes[i].ok
    ensures var pace := Max(outcomes[p].at, outcomes[first].at);
            InTime(outcomes, j) <==> outcomes[j].at <= 2 * pace || outcomes[j].at <= pace + 5
  {
    var q := if p < first then first else p;
    assert outcomes[..q + 1][p] == outcomes[p] && outcomes[..q + 1][first] == outcomes[first];
    assert Paced(outcomes[..q + 1]);
    if p < first {
      NoSuccess(outcomes, first, p);
    } else {
      NoPaceWithoutPrimary(outcomes, p);
    }
    assert IsPace(outcomes, q);
    assert outcomes[q].at == Max(outcomes[p].at, outcomes[first].at);
    PaceDecides(outcomes, n, q, j);
  }

  lemma NoSuccess(outcomes: seq<Outcome>, first: nat, p: nat)
    requires first <= |outcomes| && forall i :: 0 <= i < first ==> !outcomes[i].ok
    ensures !Paced(outcomes[..first])
  {
  }

  lemma PaceDecides(outcomes: seq<Outcome>, n: nat, p: nat, j: nat)
    requires Complete(n, outcomes) && IsPace(outcomes, p) && j < |outcomes|
    ensures InTime(outcomes, j) <==> outcomes[j].at <= 2 * outcomes[p].at || outcomes[j].at <= outcomes[p].at + 5
  {
    forall q | q < j && IsPace(outcomes, q)
      ensures q == p
    {
      OnePace(outcomes, p, q);
    }
    assert j <= p ==> outcomes[j].at <= outcomes[p].at;
  }

  lemma NoPaceWithoutPrimary(outcomes: seq<Outcome>, k: nat)
    requires k <= |outcomes| && forall i :: 0 <= i < k ==> outcomes[i].index != 0
    ensures !Paced(outcomes[..k])
  {
  }

  lemma StepInTime(outcomes: seq<Outcome>, m: nat, deadline: Option<int>)
    requires m < |outcomes| && (deadline.None? ==> !Paced(outcomes[..m]))
    requires deadline.Some? ==> outcomes[m].at <= deadline.value && exists p :: IsPace(outcomes, p) && p < m && deadline.value == DeadlineOf(outcomes[p].at)
    ensures InTime(outcomes, m)
  {
    forall q | q < m && IsPace(outcomes, q)
      ensures outcomes[m].at <= DeadlineOf(outcomes[q].at)
    {
      if deadline.None? {
        PacedStays(outcomes, q + 1, m);
      } else {
        var p :| IsPace(outcomes, p) && p < m && deadline.value == DeadlineOf(outcomes[p].at);
        OnePace(outcomes, p, q);
      }
    }
  }

  /** Once one outcome is late all after it are. */
  lemma LateAfter(outcomes: seq<Outcome>, m: nat, n: nat, deadline: int)
    requires Complete(n, outcomes) && m < |outcomes| && outcomes[m].at > deadline
    requires exists p :: IsPace(outcomes, p) && p < m && deadline == DeadlineOf(outcomes[p].at)
    ensures forall j :: m <= j < |outcomes| ==> !InTime(outcomes, j)
  {
    var p :| IsPace(outcomes, p) && p < m && deadline == DeadlineOf(outcomes[p].at);
    forall j | m <= j < |outcomes|
      ensures !InTime(outcomes, j)
    {
      assert outcomes[m].at <= outcomes[j].at;
    }
  }

  lemma AnyOkMore(outcomes: seq<Outcome>, m: nat)
    requires m < |outcomes|
    ensures AnyOk(outcomes[..m + 1]) <==> AnyOk(outcomes[..m]) || outcomes[m].ok
  {
    var more := outcomes[..m + 1];
    if AnyOk(outcomes[..m]) {
      var j :| 0 <= j < m && outcomes[..m][j].ok;
      assert more[j].ok;
    }
    if AnyOk(more) {
      var j :| 0 <= j < m + 1 && more[j].ok;
      assert j < m ==> outcomes[..m][j].ok;
    }
    assert more[m] == outcomes[m];
  }

  /** Whether the pace is set can be told from what has come in. */
  lemma PacedNow(outcomes: seq<Outcome>, m: nat, n: nat, results: seq<Option<bool>>, anyOK: bool)
    requires Complete(n, outcomes) && m <= |outcomes| && |results| == n > 0
    requires anyOK <==> AnyOk(outcomes[..m])
    requires forall j :: 0 <= j < |outcomes| ==> results[outcomes[j].index] == if j < m then Some(outcomes[j].ok) else None
    ensures Paced(outcomes[..m]) <==> results[0].Some? && (results[0].value || anyOK)
  {
    assert Ends(outcomes, 0);
    var j :| 0 <= j < |outcomes| && outcomes[j].index == 0;
    if j < m {
      assert outcomes[..m][j] == outcomes[j];
    }
    if Paced(outcomes[..m]) {
      var k :| 0 <= k < m && outcomes[..m][k].index == 0 && (outcomes[..m][k].ok || AnyOk(outcomes[..m]));
      assert k == j;
    }
  }

  /** Collects the outcomes until the deadline the pace sets, if one does. Keeps
      the peers that succeeded in time, in their order, and drops the others. */
  method FanOut(n: nat, outcomes: seq<Outcome>) returns (kept: seq<nat>, dropped: set<nat>)
    requires Complete(n, outcomes)
    ensures forall i, j :: 0 <= i < j < |kept| ==> kept[i] < kept[j]
    ensures forall j :: 0 <= j < |outcomes| ==> (outcomes[j].index in kept <==> outcomes[j].ok && InTime(outcomes, j))
    ensures forall i: nat :: i < n ==> (i in dropped <==> i !in kept)
    ensures forall j :: 0 <= j < |outcomes| && outcomes[j].index == 0 ==> (0 in dropped <==> !outcomes[j].ok)
  {
    var m, results := Collected(n, outcomes);
    kept, dropped := [], {};
    for i := 0 to n
      invariant forall a :: 0 <= a < |kept| ==> kept[a] < i
      invariant forall a, b :: 0 <= a < b < |kept| ==> kept[a] < kept[b]
      invariant forall k :: k in kept <==> 0 <= k < i && results[k] == Some(true)
      invariant forall k :: k in dropped <==> 0 <= k < i && results[k] != Some(true)
    {
      if results[i] == Some(true) {
        kept := kept + [i];
      } else {
        dropped := dropped + {i};
      }
    }
    forall j | 0 <= j < |outcomes|
      ensures results[outcomes[j].index] == if InTime(outcomes, j) then Some(outcomes[j].ok) else None
    {
    }
    forall j | 0 <= j < |outcomes| && outcomes[j].index == 0
      ensures InTime(outcomes, j)
    {
      PrimaryInTime(outcomes, n, j);
    }
  }

  lemma Bounds(n: nat, outcomes: seq<Outcome>)
    requires Complete(n, outcomes)
    ensures forall j :: 0 <= j < |outcomes| ==> outcomes[j].index < n
    ensures forall i, j :: 0 <= i < j < |outcomes| ==> outcomes[i].index != outcomes[j].index
    ensures !AnyOk(outcomes[..0]) && !Paced(outcomes[..0])
  {
  }

  /** The event loop: how many outcomes come in before the deadline, and what they were. */
  method Collected(n: nat, outcomes: seq<Outcome>) returns (m: nat, results: seq<Option<bool>>)
    requires Complete(n, outcomes)
    ensures |results| == n && m <= |outcomes|
    ensures forall j :: 0 <= j < |outcomes| ==> (j < m <==> InTime(outcomes, j))
    ensures forall j :: 0 <= j < |outcomes| ==> results[outcomes[j].index] == if j < m then Some(outcomes[j].ok) else None
  {
    hide Paced, AnyOk, InTime, Complete;
    results := seq(n, _ => None);
    m := 0;
    Bounds(n, outcomes);
    var anyOK, deadline: Option<int> := false, None;
    var late := false;
    while !late && m < |outcomes|
      invariant m <= |outcomes| && |results| == n
      invariant anyOK <==> AnyOk(outcomes[..m])
      invariant deadline.None? <==> !Paced(outcomes[..m])
      invariant deadline.Some? ==> exists p :: IsPace(outcomes, p) && p < m && deadline.value == DeadlineOf(outcomes[p].at)
      invariant forall j :: 0 <= j < m ==> InTime(outcomes, j)
      invariant late ==> m < |outcomes| && deadline.Some? && outcomes[m].at > deadline.value
      invariant forall j :: 0 <= j < |outcomes| ==> results[outcomes[j].index] == if j < m then Some(outcomes[j].ok) else None
      decreases !late, |outcomes| - m
    {
      var a := outcomes[m];
      if deadline.Some? && a.at > deadline.value {
        late := true;
      } else {
        StepInTime(outcomes, m, deadline);
        AnyOkMore(outcomes, m);
        results := results[a.index := Some(a.ok)];
        anyOK := anyOK || a.ok;
        m := m + 1;
        PacedNow(outcomes, m, n, results, anyOK);
        var paced := results[0].Some? && (results[0].value || anyOK);
        if deadline.Some? {
          PacedStays(outcomes, m - 1, m);
        } else if paced {
          assert IsPace(outcomes, m - 1);
          deadline := Some(DeadlineOf(a.at));
        }
      }
    }
    if late {
      LateAfter(outcomes, m, n, deadline.value);
    }
  }
}
