/** When the wallet is shown as synced (syncedLocked and syncLoop in internal/sync/manager.go). */
module SyncStatus {
  import opened Basics

  datatype Activity = Idle | Headers | Filters

  /** The status fields under the lock; seen is the announcement count the
      round under way started from. */
  datatype Status = Status(activity: Activity, height: int, roundOK: bool, announced: nat, syncedThrough: nat, seen: nat)

  /** One locked section: a block announcement, the begin and the end of a sync
      round, or a report of what is under way. */
  datatype Event = Announced | RoundBegins | RoundEnds(ok: bool) | Reported(activity: Activity, height: int)

  const START := Status(Idle, 0, false, 0, 0, 0)

  function Next(s: Status, ev: Event): Status {
    match ev
    case Announced => s.(announced := s.announced + 1)
    case RoundBegins => s.(seen := s.announced)
    case RoundEnds(ok) => s.(roundOK := ok, syncedThrough := if ok then s.seen else s.syncedThrough)
    case Reported(activity, height) => s.(activity := activity, height := height)
  }

  function Run(events: seq<Event>): Status {
    if events == [] then START else Next(Run(events[..|events| - 1]), events[|events| - 1])
  }

  /** Idle after a successful round, nothing announced since it began, and no peer ahead. */
  predicate Synced(s: Status, peerHeights: seq<int>) {
    && s.activity == Idle && s.roundOK && s.announced == s.syncedThrough
    && forall i :: 0 <= i < |peerHeights| ==> peerHeights[i] <= s.height
  }

  method SyncedLocked(s: Status, peerHeights: seq<int>) returns (synced: bool)
    ensures synced == Synced(s, peerHeights)
  {
    if s.activity != Idle || !s.roundOK || s.announced != s.syncedThrough {
      return false;
    }
    for i := 0 to |peerHeights|
      invariant forall k :: 0 <= k < i ==> peerHeights[k] <= s.height
    {
      if peerHeights[i] > s.height {
        return false;
      }
    }
    return true;
  }

  function Announcements(events: seq<Event>): nat {
    if events == [] then 0
    else Announcements(events[..|events| - 1]) + if events[|events| - 1] == Announced then 1 else 0
  }

  lemma {:induction false} AnnouncementsGrow(events: seq<Event>, b: nat)
    requires b <= |events|
    ensures Announcements(events[..b]) <= Announcements(events)
    ensures Announcements(events[..b]) == Announcements(events) ==> forall i :: b <= i < |events| ==> events[i] != Announced
  {
    if b == |events| {
      assert events[..b] == events;
    } else {
      var n := |events| - 1;
      assert events[..n][..b] == events[..b];
      AnnouncementsGrow(events[..n], b);
      assert forall i :: b <= i < n ==> events[..n][i] == events[i];
    }
  }

  /** A round began at b and ended well at e, and no other round began between. */
  ghost predicate GoodRound(events: seq<Event>, b: int, e: int) {
    && 0 <= b < e < |events| && events[b] == RoundBegins && events[e] == RoundEnds(true)
    && forall i :: b < i < e ==> events[i] != RoundBegins
  }

  /** The begin of the last round begun, if one has. */
  ghost predicate LastBegin(events: seq<Event>, b: int) {
    && 0 <= b < |events| && events[b] == RoundBegins
    && forall i :: b < i < |events| ==> events[i] != RoundBegins
  }

  /** What the counters say about the events so far. */
  ghost predicate Counts(events: seq<Event>) {
    var s := Run(events);
    && s.announced == Announcements(events)
    && (forall b :: LastBegin(events, b) ==> s.seen == Announcements(events[..b]))
    && (s.roundOK <==> exists e :: LastEnd(events, e) && events[e] == RoundEnds(true))
    && (forall e, b :: LastGood(events, e) && GoodRound(events, b, e) ==> s.syncedThrough == Announcements(events[..b]))
  }

  ghost predicate LastEnd(events: seq<Event>, e: int) {
    && 0 <= e < |events| && events[e].RoundEnds?
    && forall i :: e < i < |events| ==> !events[i].RoundEnds?
  }

  ghost predicate LastGood(events: seq<Event>, e: int) {
    && 0 <= e < |events| && events[e] == RoundEnds(true)
    && forall i :: e < i < |events| ==> events[i] != RoundEnds(true)
  }

  /** Rounds of the sync loop: an end follows its own begin. */
  ghost predicate Rounds(events: seq<Event>) {
    forall e :: 0 <= e < |events| && events[e].RoundEnds? ==> exists b :: Begun(events, b, e)
  }

  ghost predicate Begun(events: seq<Event>, b: int, e: int) {
    && 0 <= b < e < |events| && events[b] == RoundBegins
    && forall i :: b < i < e ==> events[i] != RoundBegins && !events[i].RoundEnds?
  }

  lemma {:induction false} CountsHold(events: seq<Event>)
    requires Rounds(events)
    ensures Counts(events)
  {
    if events != [] {
      var n := |events| - 1;
      var before := events[..n];
      RoundsBefore(events);
      CountsHold(before);
      CountsNext(before, events[n], events);
    }
  }

  lemma RoundsBefore(events: seq<Event>)
    requires events != [] && Rounds(events)
    ensures Rounds(events[..|events| - 1])
  {
    var before := events[..|events| - 1];
    forall e | 0 <= e < |before| && before[e].RoundEnds?
      ensures exists b :: Begun(before, b, e)
    {
      var b :| Begun(events, b, e);
      assert Begun(before, b, e);
    }
  }

  lemma CountsNext(before: seq<Event>, ev: Event, events: seq<Event>)
    requires events == before + [ev] && Counts(before) && Rounds(events)
    ensures Counts(events)
  {
    hide Announcements, Rounds;
    var n := |before|;
    assert events[..n] == before && events[n] == ev;
    assert Announcements(events) == Announcements(before) + if ev == Announced then 1 else 0 by { AnnouncedNext(before, ev, events); }
    forall b | LastBegin(events, b)
      ensures Run(events).seen == Announcements(events[..b])
    {
      LastBeginBefore(before, ev, events, b);
    }
    if Run(events).roundOK {
      if ev.RoundEnds? {
        EndsLast(before, ev, events, n);
      } else {
        var e :| LastEnd(before, e) && before[e] == RoundEnds(true);
        EndsLast(before, ev, events, e);
      }
    }
    forall e, b | LastGood(events, e) && GoodRound(events, b, e)
      ensures Run(events).syncedThrough == Announcements(events[..b])
    {
      LastGoodBefore(before, ev, events, b, e);
    }
  }

  lemma AnnouncedNext(before: seq<Event>, ev: Event, events: seq<Event>)
    requires events == before + [ev]
    ensures Announcements(events) == Announcements(before) + if ev == Announced then 1 else 0
  {
    assert events[..|before|] == before;
  }

  lemma LastBeginBefore(before: seq<Event>, ev: Event, events: seq<Event>, b: int)
    requires events == before + [ev] && LastBegin(events, b)
    ensures if b == |before| then ev == RoundBegins && events[..b] == before else LastBegin(before, b) && events[..b] == before[..b] && ev != RoundBegins
  {
    if b < |before| {
      assert events[|before|] == ev;
      assert forall i :: b < i < |before| ==> before[i] == events[i];
    }
  }

  lemma EndsLast(before: seq<Event>, ev: Event, events: seq<Event>, e: int)
    requires events == before + [ev]
    requires if ev.RoundEnds? then e == |before| else LastEnd(before, e)
    ensures LastEnd(events, e) && (e < |before| ==> events[e] == before[e])
  {
  }

  lemma LastGoodBefore(before: seq<Event>, ev: Event, events: seq<Event>, b: int, e: int)
    requires events == before + [ev] && LastGood(events, e) && GoodRound(events, b, e)
    ensures events[..b] == before[..b]
    ensures if e == |before| then ev == RoundEnds(true) && LastBegin(before, b)
            else ev != RoundEnds(true) && LastGood(before, e) && GoodRound(before, b, e)
  {
    assert forall i :: 0 <= i < |before| ==> before[i] == events[i];
    assert events[|before|] == ev;
  }

  /** What was reported last, or what is shown before any report. */
  ghost predicate ReportedLast(events: seq<Event>, activity: Activity, height: int) {
    if forall i :: 0 <= i < |events| ==> !events[i].Reported? then activity == Idle && height == 0
    else exists r :: 0 <= r < |events| && events[r] == Reported(activity, height) && forall i :: r < i < |events| ==> !events[i].Reported?
  }

  lemma {:induction false} ShowsLastReport(events: seq<Event>)
    ensures ReportedLast(events, Run(events).activity, Run(events).height)
  {
    if events != [] {
      var n := |events| - 1;
      var before := events[..n];
      ShowsLastReport(before);
      assert forall i :: 0 <= i < n ==> before[i] == events[i];
      if !events[n].Reported? {
        if r :| 0 <= r < n && before[r] == Reported(Run(before).activity, Run(before).height) && forall i :: r < i < n ==> !before[i].Reported? {
          assert events[r] == before[r];
        }
      }
    }
  }

  lemma {:induction false} NoneAnnounced(events: seq<Event>, b: nat)
    requires b <= |events| && forall i :: b <= i < |events| ==> events[i] != Announced
    ensures Announcements(events[..b]) == Announcements(events)
  {
    if b == |events| {
      assert events[..b] == events;
    } else {
      var n := |events| - 1;
      assert events[..n][..b] == events[..b];
      NoneAnnounced(events[..n], b);
    }
  }

  /** The round that ended last began at b, went well, and nothing was announced since it began. */
  ghost predicate CaughtUp(events: seq<Event>, b: int, e: int) {
    GoodRound(events, b, e) && LastEnd(events, e) && forall i :: b <= i < |events| ==> events[i] != Announced
  }

  /** The wallet is shown as synced exactly when the last report is that it is idle,
      at a height no peer is above, and its last round succeeded with no block
      announced since that round began. */
  lemma SyncedIff(events: seq<Event>, peerHeights: seq<int>, activity: Activity, height: int)
    requires Rounds(events) && activity == Run(events).activity && height == Run(events).height
    ensures ReportedLast(events, activity, height)
    ensures Synced(Run(events), peerHeights) <==>
              && activity == Idle && (forall i :: 0 <= i < |peerHeights| ==> peerHeights[i] <= height)
              && exists b, e :: CaughtUp(events, b, e)
  {
    ShowsLastReport(events);
    CountsHold(events);
    if Synced(Run(events), peerHeights) {
      var b, e := SyncedMeansCaughtUp(events, peerHeights);
      assert CaughtUp(events, b, e);
    }
    if b, e :| CaughtUp(events, b, e) {
      assert LastGood(events, e);
      NoneAnnounced(events, b);
    }
  }

  /** Whenever the wallet is shown as synced, its last round succeeded and no
      block was announced since that round began. */
  lemma SyncedMeansCaughtUp(events: seq<Event>, peerHeights: seq<int>) returns (b: int, e: int)
    requires Rounds(events) && Synced(Run(events), peerHeights)
    ensures GoodRound(events, b, e) && LastEnd(events, e)
    ensures forall i :: b <= i < |events| ==> events[i] != Announced
  {
    CountsHold(events);
    e :| LastEnd(events, e) && events[e] == RoundEnds(true);
    b :| Begun(events, b, e);
    assert LastGood(events, e) && GoodRound(events, b, e);
    AnnouncementsGrow(events, b);
  }
}
