/**
 The connection pool and the sync status, as goroutines change them one locked
 section at a time (internal/sync/manager.go).
 */
module Pools {
  import opened Basics
  import opened Transactions

  const TARGET_PEERS := 3

  datatype Network = Direct | Tor | I2P

  /** A connection: its identity, the peer's address, and whether it was dialed as the pinned peer. */
  datatype Conn = Conn(id: nat, addr: Address, pinned: bool)

  /** The shared state under the lock, with the network each address is on.
      Overlays maps the anonymity networks that are on to whether their client
      is ready. A connection picked for disconnection stays in the pool until it
      is gone. */
  datatype State = State(
    networkOf: Address -> Network, pool: seq<Conn>, pinnedAddr: Address, overlays: map<Network, bool>, stopped: bool,
    closing: set<nat>, nextId: nat)

  /** One locked section of some goroutine: a finished handshake, a connection
      that is gone, a change of the settings, or the end. */
  datatype Event =
    | Join(addr: Address, pinned: bool, servesFilters: bool)
    | Quit(id: nat)
    | Pin(addr: Address)
    | Overlay(network: Network, on: bool, ready: bool)
    | Halt

  /** Whether peers on a network are used: with overlays, those on one of them;
      without any, the direct ones. */
  predicate Allowed(overlays: map<Network, bool>, n: Network) {
    if overlays == map[] then n == Direct else n in overlays
  }

  predicate Ready(overlays: map<Network, bool>) {
    exists n :: n in overlays && overlays[n]
  }

  predicate HoldsAddr(pool: seq<Conn>, addr: Address) {
    exists i :: 0 <= i < |pool| && pool[i].addr == addr
  }

  predicate HoldsPinned(pool: seq<Conn>) {
    exists i :: 0 <= i < |pool| && pool[i].pinned
  }

  /** The places left for unpinned peers, less one while the pinned peer is away. */
  function OpenSlots(st: State): int {
    if st.overlays != map[] && !Ready(st.overlays) then 0
    else TARGET_PEERS - |st.pool| - if st.pinnedAddr != "" && !HoldsPinned(st.pool) then 1 else 0
  }

  /** Whether a peer that finished its handshake is admitted. */
  predicate Admits(st: State, ev: Event)
    requires ev.Join?
  {
    && ev.servesFilters
    && !st.stopped
    && (ev.pinned ==> ev.addr == st.pinnedAddr)
    && Allowed(st.overlays, st.networkOf(ev.addr))
    && !HoldsAddr(st.pool, ev.addr)
    && (!ev.pinned ==> OpenSlots(st) > 0)
  }

  /** The connections of the pool but the one with the id. */
  function Without(pool: seq<Conn>, id: nat): seq<Conn> {
    if pool == [] then []
    else Without(pool[..|pool| - 1], id) + if pool[|pool| - 1].id == id then [] else [pool[|pool| - 1]]
  }

  function OverlaysAfter(overlays: map<Network, bool>, n: Network, on: bool, ready: bool): map<Network, bool> {
    if on then overlays[n := ready] else overlays - {n}
  }

  function Next(st: State, ev: Event): State {
    match ev
    case Join(addr, pinned, _) =>
      if Admits(st, ev) then st.(pool := st.pool + [Conn(st.nextId, addr, pinned)], nextId := st.nextId + 1) else st
    case Quit(id) => st.(pool := Without(st.pool, id))
    case Pin(addr) =>
      if st.stopped || addr == st.pinnedAddr then st
      else st.(pinnedAddr := addr, closing := st.closing + set c | c in st.pool && (c.pinned || c.addr == addr) :: c.id)
    case Overlay(network, on, ready) =>
      var overlays := OverlaysAfter(st.overlays, network, on, ready);
      if (network in st.overlays) == on then st.(overlays := overlays)
      else st.(overlays := overlays, closing := st.closing + set c | c in st.pool && !Allowed(overlays, st.networkOf(c.addr)) :: c.id)
    case Halt => if st.stopped then st else st.(stopped := true, closing := st.closing + set c | c in st.pool :: c.id)
  }

  function Run(st: State, events: seq<Event>): State {
    if events == [] then st else Next(Run(st, events[..|events| - 1]), events[|events| - 1])
  }

  /** The state Start leaves: nothing connected, a pinned peer or none, and the networks set before. */
  predicate Started(st: State) {
    st.pool == [] && !st.stopped && st.closing == {} && st.nextId == 0
  }

  // -------------------------------------------------------------- invariants

  function Unpinned(pool: seq<Conn>): nat {
    if pool == [] then 0 else Unpinned(pool[..|pool| - 1]) + if pool[|pool| - 1].pinned then 0 else 1
  }

  ghost predicate DistinctConns(pool: seq<Conn>) {
    forall i, j :: 0 <= i < j < |pool| ==> pool[i].addr != pool[j].addr && pool[i].id != pool[j].id
  }

  ghost predicate DistinctPeers(st: State) {
    DistinctConns(st.pool) && forall c :: c in st.pool ==> c.id < st.nextId
  }

  /** Every connection not yet picked for disconnection is on an allowed network
      and, if pinned, is the current pinned peer. */
  ghost predicate OnlyAllowed(st: State) {
    && (forall id :: id in st.closing ==> id < st.nextId)
    && (forall c :: c in st.pool && c.id !in st.closing ==> Allowed(st.overlays, st.networkOf(c.addr)) && (c.pinned ==> c.addr == st.pinnedAddr))
  }

  ghost predicate Orderly(st: State) {
    DistinctPeers(st) && Unpinned(st.pool) <= TARGET_PEERS && OnlyAllowed(st)
  }

  lemma {:induction false} WithoutMember(pool: seq<Conn>, id: nat, c: Conn)
    ensures c in Without(pool, id) <==> c in pool && c.id != id
  {
    if pool != [] {
      var n := |pool| - 1;
      WithoutMember(pool[..n], id, c);
      assert pool == pool[..n] + [pool[n]];
    }
  }

  lemma WithoutLast(pool: seq<Conn>, c: Conn, id: nat)
    ensures Without(pool + [c], id) == Without(pool, id) + if c.id == id then [] else [c]
  {
    assert (pool + [c])[..|pool|] == pool;
  }

  lemma {:induction false} WithoutShorter(pool: seq<Conn>, id: nat)
    ensures |Without(pool, id)| <= |pool|
    ensures |Without(pool, id)| == |pool| ==> Without(pool, id) == pool
  {
    hide Without;
    if pool == [] {
      NoneWithout(id);
    } else {
      var rest, c := pool[..|pool| - 1], pool[|pool| - 1];
      WithoutShorter(rest, id);
      WithoutLast(rest, c, id);
      assert pool == rest + [c];
    }
  }

  lemma NoneWithout(id: nat)
    ensures Without([], id) == []
  {
  }

  lemma {:induction false} WithoutSmaller(pool: seq<Conn>, id: nat)
    ensures Unpinned(Without(pool, id)) <= Unpinned(pool)
    ensures |Without(pool, id)| <= |pool|
    ensures |Without(pool, id)| == |pool| ==> Without(pool, id) == pool
  {
    hide Without, Unpinned;
    WithoutShorter(pool, id);
    if pool == [] {
      NoneWithout(id);
    } else {
      var rest, c := pool[..|pool| - 1], pool[|pool| - 1];
      WithoutSmaller(rest, id);
      WithoutLast(rest, c, id);
      UnpinnedMore(rest, c);
      UnpinnedMore(Without(rest, id), c);
      assert Without(rest, id) + [] == Without(rest, id);
      assert pool == rest + [c];
    }
  }

  lemma UnpinnedMore(pool: seq<Conn>, c: Conn)
    ensures Unpinned(pool + [c]) == Unpinned(pool) + if c.pinned then 0 else 1
  {
    assert (pool + [c])[..|pool|] == pool;
  }

  lemma {:induction false} WithoutDistinct(pool: seq<Conn>, id: nat)
    requires DistinctConns(pool)
    ensures DistinctConns(Without(pool, id))
  {
    if pool != [] {
      var n := |pool| - 1;
      var rest := Without(pool[..n], id);
      WithoutDistinct(pool[..n], id);
      forall i | 0 <= i < |rest|
        ensures rest[i].addr != pool[n].addr && rest[i].id != pool[n].id
      {
        WithoutMember(pool[..n], id, rest[i]);
        var k :| 0 <= k < n && pool[..n][k] == rest[i];
        assert pool[k] == rest[i];
      }
    }
  }

  lemma {:induction false} UnpinnedAtMost(pool: seq<Conn>)
    ensures Unpinned(pool) <= |pool|
    ensures HoldsPinned(pool) ==> Unpinned(pool) < |pool|
  {
    if pool != [] {
      var n := |pool| - 1;
      UnpinnedAtMost(pool[..n]);
      if HoldsPinned(pool) && !pool[n].pinned {
        var i :| 0 <= i < |pool| && pool[i].pinned;
        assert pool[..n][i].pinned;
      }
    }
  }

  lemma JoinOrderly(st: State, c: Conn)
    requires Orderly(st) && c.id == st.nextId && !HoldsAddr(st.pool, c.addr)
    requires !c.pinned ==> |st.pool| < TARGET_PEERS
    requires Allowed(st.overlays, st.networkOf(c.addr)) && (c.pinned ==> c.addr == st.pinnedAddr)
    ensures Orderly(st.(pool := st.pool + [c], nextId := st.nextId + 1))
  {
    hide Allowed, DistinctConns, HoldsPinned, Unpinned, HoldsAddr;
    UnpinnedAtMost(st.pool);
    OneMoreConn(st, c);
    forall d | d in st.pool + [c]
      ensures d in st.pool || d == c
    {
    }
  }

  lemma OneMoreConn(st: State, c: Conn)
    requires DistinctPeers(st) && c.id == st.nextId && !HoldsAddr(st.pool, c.addr)
    ensures DistinctConns(st.pool + [c]) && Unpinned(st.pool + [c]) == Unpinned(st.pool) + if c.pinned then 0 else 1
  {
    UnpinnedMore(st.pool, c);
    forall i | 0 <= i < |st.pool|
      ensures st.pool[i].addr != c.addr && st.pool[i].id != c.id
    {
      assert st.pool[i] in st.pool;
    }
  }

  lemma QuitOrderly(st: State, id: nat)
    requires Orderly(st)
    ensures Orderly(st.(pool := Without(st.pool, id)))
  {
    hide Allowed;
    WithoutDistinct(st.pool, id);
    WithoutSmaller(st.pool, id);
    forall c | c in Without(st.pool, id)
      ensures c in st.pool
    {
      WithoutMember(st.pool, id, c);
    }
  }

  /** Changing the settings keeps the pool orderly when what they no longer allow is picked. */
  lemma PickOrderly(st: State, after: State)
    requires Orderly(st) && after.pool == st.pool && after.nextId == st.nextId && after.networkOf == st.networkOf
    requires forall id :: id in after.closing ==> id in st.closing || exists c :: c in st.pool && c.id == id
    requires forall c :: c in st.pool && c.id !in after.closing ==> Allowed(after.overlays, after.networkOf(c.addr)) && (c.pinned ==> c.addr == after.pinnedAddr)
    ensures Orderly(after)
  {
    hide Allowed;
  }

  lemma NextOrderly(st: State, ev: Event)
    requires Orderly(st)
    ensures Orderly(Next(st, ev))
  {
    hide Orderly, Allowed, OverlaysAfter, Without;
    var after := Next(st, ev);
    match ev
    case Join(addr, pinned, _) =>
      if Admits(st, ev) {
        JoinOrderly(st, Conn(st.nextId, addr, pinned));
      }
    case Quit(id) => QuitOrderly(st, id);
    case Pin(addr) => SettingOrderly(st, ev);
    case Overlay(network, on, ready) => SettingOrderly(st, ev);
    case Halt => SettingOrderly(st, ev);
  }

  lemma SettingOrderly(st: State, ev: Event)
    requires Orderly(st) && (ev.Pin? || ev.Overlay? || ev.Halt?)
    ensures Orderly(Next(st, ev))
  {
    hide DistinctConns, Unpinned;
    PickOrderly(st, Next(st, ev));
  }

  /** In every interleaving of handshakes, disconnections and changes of the
      settings the addresses of the pool are distinct, at most three connections
      are not pinned, and what is not being disconnected is allowed. */
  lemma {:induction false} RunsAreOrderly(st: State, events: seq<Event>)
    requires Started(st)
    ensures Orderly(Run(st, events))
  {
    hide Orderly, Next;
    if events == [] {
      StartsOrderly(st);
    } else {
      RunsAreOrderly(st, events[..|events| - 1]);
      NextOrderly(Run(st, events[..|events| - 1]), events[|events| - 1]);
    }
  }

  lemma StartsOrderly(st: State)
    requires Started(st)
    ensures Orderly(st)
  {
  }

  /** So at any time every connection that is not being disconnected goes over
      the internet if no anonymity network is on, and over one that is on otherwise. */
  lemma RunsUseAllowed(st: State, events: seq<Event>, c: Conn)
    requires Started(st) && c in Run(st, events).pool && c.id !in Run(st, events).closing
    ensures var after := Run(st, events);
            if after.overlays == map[] then after.networkOf(c.addr) == Direct else after.networkOf(c.addr) in after.overlays
  {
    RunsAreOrderly(st, events);
  }

  // ------------------------------------------------------ how large it may get

  /** With the pinned setting fixed, a place is always left for the pinned peer. */
  ghost predicate Bounded(st: State) {
    && DistinctConns(st.pool) && |st.pool| <= TARGET_PEERS
    && (forall c :: c in st.pool && c.pinned ==> c.addr == st.pinnedAddr != "")
    && (st.pinnedAddr != "" && !HoldsPinned(st.pool) ==> |st.pool| < TARGET_PEERS)
  }

  /** A step that leaves the pinned setting alone and dials no pinned peer without an address. */
  predicate KeepsPinned(ev: Event) {
    !ev.Pin? && (ev.Join? && ev.pinned ==> ev.addr != "")
  }

  lemma NextBounded(st: State, ev: Event)
    requires DistinctPeers(st) && Bounded(st) && KeepsPinned(ev)
    ensures Bounded(Next(st, ev)) && Next(st, ev).pinnedAddr == st.pinnedAddr
  {
    hide Allowed, OverlaysAfter, Unpinned, Without;
    if ev.Join? && Admits(st, ev) {
      JoinBounded(st, Conn(st.nextId, ev.addr, ev.pinned));
    }
    if ev.Quit? {
      QuitBounded(st, ev.id);
    }
  }

  lemma JoinBounded(st: State, c: Conn)
    requires DistinctPeers(st) && Bounded(st) && c.id == st.nextId && !HoldsAddr(st.pool, c.addr)
    requires if c.pinned then c.addr == st.pinnedAddr != "" else OpenSlots(st) > 0
    ensures Bounded(st.(pool := st.pool + [c], nextId := st.nextId + 1))
  {
    hide Ready;
    var pool := st.pool + [c];
    forall i | 0 <= i < |st.pool|
      ensures st.pool[i].addr != c.addr && st.pool[i].id != c.id
    {
      assert st.pool[i] in st.pool;
    }
    if c.pinned {
      assert !HoldsPinned(st.pool);
      assert pool[|st.pool|].pinned;
    } else if HoldsPinned(st.pool) {
      var i :| 0 <= i < |st.pool| && st.pool[i].pinned;
      assert pool[i].pinned;
    }
  }

  lemma QuitBounded(st: State, id: nat)
    requires Bounded(st)
    ensures Bounded(st.(pool := Without(st.pool, id)))
  {
    WithoutDistinct(st.pool, id);
    WithoutSmaller(st.pool, id);
    hide Without;
    forall c | c in Without(st.pool, id)
      ensures c in st.pool
    {
      WithoutMember(st.pool, id, c);
    }
  }

  /** With a pinned setting fixed from the start the pool never exceeds its target. */
  lemma {:induction false} FixedPinnedBounds(st: State, events: seq<Event>)
    requires Started(st) && forall i :: 0 <= i < |events| ==> KeepsPinned(events[i])
    ensures |Run(st, events).pool| <= TARGET_PEERS
    ensures Bounded(Run(st, events)) && Run(st, events).pinnedAddr == st.pinnedAddr
  {
    hide Next, Admits;
    if events != [] {
      var n := |events| - 1;
      FixedPinnedBounds(st, events[..n]);
      RunsAreOrderly(st, events[..n]);
      NextBounded(Run(st, events[..n]), events[n]);
    }
  }

  // -------------------------------------------- exactly when it gets too large

  /** The pool is full and the pinned peer is not in it. */
  predicate FullWithoutPinned(st: State) {
    !st.stopped && st.pinnedAddr != "" && |st.pool| == TARGET_PEERS && !HoldsAddr(st.pool, st.pinnedAddr)
  }

  predicate PinnedAllowed(st: State) {
    Allowed(st.overlays, st.networkOf(st.pinnedAddr))
  }

  /** The step that takes the pool past its target: the pinned peer, on an
      allowed network, joins a full pool. */
  lemma StepExceeds(st: State, ev: Event)
    requires |st.pool| <= TARGET_PEERS && (ev.Join? && ev.pinned ==> ev.addr != "")
    ensures |Next(st, ev).pool| > TARGET_PEERS <==>
            FullWithoutPinned(st) && PinnedAllowed(st) && ev == Join(st.pinnedAddr, true, true)
  {
    if ev.Quit? {
      WithoutSmaller(st.pool, ev.id);
    }
  }

  /** Pinning a peer that then connects takes the pool past its target exactly
      when it is full of others and the peer's network is allowed. */
  lemma PinExceeds(st: State, addr: Address)
    requires |st.pool| <= TARGET_PEERS && addr != ""
    ensures |Next(Next(st, Pin(addr)), Join(addr, true, true)).pool| > TARGET_PEERS <==>
            |st.pool| == TARGET_PEERS && !HoldsAddr(st.pool, addr) && Allowed(st.overlays, st.networkOf(addr)) && !st.stopped
  {
    StepExceeds(Next(st, Pin(addr)), Join(addr, true, true));
  }

  /** The pool is within its target, and stays so if the pinned peer connects now. */
  predicate Safe(st: State) {
    && |st.pool| <= TARGET_PEERS
    && (st.pinnedAddr != "" ==> |Next(st, Join(st.pinnedAddr, true, true)).pool| <= TARGET_PEERS)
  }

  lemma SafeIs(st: State)
    ensures Safe(st) <==> |st.pool| <= TARGET_PEERS && !(FullWithoutPinned(st) && PinnedAllowed(st))
  {
    if |st.pool| <= TARGET_PEERS && st.pinnedAddr != "" {
      StepExceeds(st, Join(st.pinnedAddr, true, true));
    }
  }

  /** The steps that give the pinned peer's place away: a peer is pinned while
      the pool is full of others, the last place is taken while the only pinned
      connection is that of a peer pinned before, or the network of the pinned
      peer comes to be allowed while the pool is full without it. */
  predicate GivesPlaceAway(st: State, ev: Event) {
    match ev
    case Pin(addr) =>
      && !st.stopped && addr != "" && addr != st.pinnedAddr && |st.pool| == TARGET_PEERS && !HoldsAddr(st.pool, addr)
      && Allowed(st.overlays, st.networkOf(addr))
    case Join(addr, pinned, _) =>
      && !pinned && Admits(st, ev) && |st.pool| == TARGET_PEERS - 1 && addr != st.pinnedAddr
      && st.pinnedAddr != "" && HoldsPinned(st.pool) && !HoldsAddr(st.pool, st.pinnedAddr) && PinnedAllowed(st)
    case Overlay(network, on, ready) =>
      FullWithoutPinned(st) && Allowed(OverlaysAfter(st.overlays, network, on, ready), st.networkOf(st.pinnedAddr))
    case _ => false
  }

  /** From a safe state exactly these steps lead to one that is not. */
  lemma StepKeepsSafe(st: State, ev: Event)
    requires Safe(st) && (ev.Join? && ev.pinned ==> ev.addr != "")
    ensures Safe(Next(st, ev)) <==> !GivesPlaceAway(st, ev)
  {
    SafeIs(st);
    SafeIs(Next(st, ev));
    StepExceeds(st, ev);
    hide Safe, Allowed, OverlaysAfter, Without, Ready;
    match ev
    case Join(addr, pinned, _) =>
      if Admits(st, ev) {
        HoldsOneMore(st.pool, Conn(st.nextId, addr, pinned), st.pinnedAddr);
      }
    case Quit(id) => WithoutSmaller(st.pool, id);
    case Pin(_) =>
    case Overlay(_, _, _) =>
    case Halt =>
  }

  lemma HoldsOneMore(pool: seq<Conn>, c: Conn, addr: Address)
    ensures HoldsAddr(pool + [c], addr) <==> HoldsAddr(pool, addr) || c.addr == addr
  {
    if i :| 0 <= i < |pool| && pool[i].addr == addr {
      assert (pool + [c])[i].addr == addr;
    }
    assert (pool + [c])[|pool|] == c;
  }

  ghost predicate SafeAt(st: State, events: seq<Event>, i: nat)
    requires i <= |events|
  {
    Safe(Run(st, events[..i]))
  }

  ghost predicate KeepsPlaceAt(st: State, events: seq<Event>, i: nat)
    requires i < |events|
  {
    !GivesPlaceAway(Run(st, events[..i]), events[i])
  }

  ghost predicate SafeThroughout(st: State, events: seq<Event>) {
    forall i: nat :: i <= |events| ==> SafeAt(st, events, i)
  }

  ghost predicate PlaceKept(st: State, events: seq<Event>) {
    forall i: nat :: i < |events| ==> KeepsPlaceAt(st, events, i)
  }

  /** A run keeps the pool within its target, at every time and should the pinned
      peer connect then, exactly when no step gives the place of the pinned peer away. */
  lemma {:induction false} TargetHoldsIff(st: State, events: seq<Event>)
    requires Started(st) && forall ev :: ev in events && ev.Join? && ev.pinned ==> ev.addr != ""
    ensures SafeThroughout(st, events) <==> PlaceKept(st, events)
  {
    hide Next, Run, Safe, GivesPlaceAway, SafeThroughout, PlaceKept;
    if events == [] {
      EmptyRunSafe(st);
    } else {
      var n := |events| - 1;
      TargetHoldsIff(st, events[..n]);
      OneMoreStep(st, events);
      if Safe(Run(st, events[..n])) {
        StepKeepsSafe(Run(st, events[..n]), events[n]);
      }
    }
  }

  lemma EmptyRunSafe(st: State)
    requires Started(st)
    ensures SafeThroughout(st, []) && PlaceKept(st, [])
  {
    SafeIs(st);
  }

  lemma OneMoreStep(st: State, events: seq<Event>)
    requires events != []
    ensures var n := |events| - 1;
            && Run(st, events) == Next(Run(st, events[..n]), events[n])
            && (SafeThroughout(st, events) <==> SafeThroughout(st, events[..n]) && Safe(Run(st, events)))
            && (PlaceKept(st, events) <==> PlaceKept(st, events[..n]) && !GivesPlaceAway(Run(st, events[..n]), events[n]))
            && (SafeThroughout(st, events[..n]) ==> Safe(Run(st, events[..n])))
  {
    hide Next, Safe, GivesPlaceAway, SafeThroughout, PlaceKept;
    SafePrefixes(st, events);
    PlacePrefixes(st, events);
  }

  lemma SafePrefixes(st: State, events: seq<Event>)
    requires events != []
    ensures SafeThroughout(st, events) <==> SafeThroughout(st, events[..|events| - 1]) && Safe(Run(st, events))
    ensures SafeThroughout(st, events[..|events| - 1]) ==> Safe(Run(st, events[..|events| - 1]))
  {
    hide Run, Safe, SafeAt;
    var n := |events| - 1;
    var rest := events[..n];
    forall i: nat | i <= n
      ensures SafeAt(st, rest, i) == SafeAt(st, events, i)
    {
      SafeInPrefix(st, events, n, i);
    }
    SafeAtEnd(st, events);
    SafeAtEnd(st, rest);
  }

  lemma SafeAtEnd(st: State, events: seq<Event>)
    ensures SafeAt(st, events, |events|) == Safe(Run(st, events))
  {
    assert events[..|events|] == events;
  }

  lemma SafeInPrefix(st: State, events: seq<Event>, n: nat, i: nat)
    requires i <= n <= |events|
    ensures SafeAt(st, events[..n], i) == SafeAt(st, events, i)
    ensures i < n ==> KeepsPlaceAt(st, events[..n], i) == KeepsPlaceAt(st, events, i)
  {
    assert events[..n][..i] == events[..i];
  }

  lemma PlacePrefixes(st: State, events: seq<Event>)
    requires events != []
    ensures var n := |events| - 1;
            PlaceKept(st, events) <==> PlaceKept(st, events[..n]) && !GivesPlaceAway(Run(st, events[..n]), events[n])
  {
    hide Run, GivesPlaceAway, SafeAt;
    var n := |events| - 1;
    assert KeepsPlaceAt(st, events, n) == !GivesPlaceAway(Run(st, events[..n]), events[n]);
    PlaceInPrefix(st, events);
  }

  lemma PlaceInPrefix(st: State, events: seq<Event>)
    requires events != []
    ensures PlaceKept(st, events) <==> PlaceKept(st, events[..|events| - 1]) && KeepsPlaceAt(st, events, |events| - 1)
  {
    hide KeepsPlaceAt, SafeAt;
    var n := |events| - 1;
    forall i: nat | i < n
      ensures KeepsPlaceAt(st, events[..n], i) == KeepsPlaceAt(st, events, i)
    {
      SafeInPrefix(st, events, n, i);
    }
  }

  function Live(pool: seq<Conn>, closing: set<nat>): nat {
    if pool == [] then 0 else Live(pool[..|pool| - 1], closing) + if pool[|pool| - 1].id in closing then 0 else 1
  }

  lemma {:induction false} LiveAtMost(pool: seq<Conn>, closing: set<nat>, pinnedAddr: Address)
    requires DistinctConns(pool)
    requires forall c :: c in pool && c.id !in closing && c.pinned ==> c.addr == pinnedAddr
    ensures Live(pool, closing) <= Unpinned(pool) + 1
    ensures !HoldsAddr(pool, pinnedAddr) ==> Live(pool, closing) <= Unpinned(pool)
  {
    if pool != [] {
      var n := |pool| - 1;
      assert pool == pool[..n] + [pool[n]];
      LiveAtMost(pool[..n], closing, pinnedAddr);
      if HoldsAddr(pool[..n], pinnedAddr) {
        var i :| 0 <= i < n && pool[..n][i].addr == pinnedAddr;
        assert pool[i].addr == pinnedAddr;
      }
      if !HoldsAddr(pool, pinnedAddr) {
        assert pool[n].addr != pinnedAddr;
      }
    }
  }

  /** Whatever is changed meanwhile, at most one connection more than the target
      is not being disconnected: the pinned one. */
  lemma LiveBounded(st: State, events: seq<Event>)
    requires Started(st)
    ensures Live(Run(st, events).pool, Run(st, events).closing) <= TARGET_PEERS + 1
  {
    RunsAreOrderly(st, events);
    var after := Run(st, events);
    LiveAtMost(after.pool, after.closing, after.pinnedAddr);
  }

  /** Pinning a peer while the pool is full of others takes it past its target. */
  lemma PinWhileFullExample(st: State)
    requires Started(st) && st.pinnedAddr == "" && st.overlays == map[] && AllDirect(st)
    ensures var events := [Join("a", false, true), Join("b", false, true), Join("c", false, true), Pin("p"), Join("p", true, true)];
            var after := Run(st, events);
            |after.pool| == TARGET_PEERS + 1 && after.closing == {}
  {
    hide Next, Run, Plain, Started;
    var fill := [Join("a", false, true), Join("b", false, true), Join("c", false, true)];
    var p := Join("p", true, true);
    assert fill + [Pin("p")] + [p] == [Join("a", false, true), Join("b", false, true), Join("c", false, true), Pin("p"), Join("p", true, true)];
    FillExample(st);
    PinExample(Run(st, fill), "p");
    RunMore(st, fill, Pin("p"));
    RunMore(st, fill + [Pin("p")], p);
  }

  predicate AllDirect(st: State) {
    forall a :: a in {"a", "b", "c", "p"} ==> st.networkOf(a) == Direct
  }

  /** A pool of direct, unpinned peers with no peer pinned. */
  ghost predicate Plain(st: State, addrs: set<Address>, n: nat) {
    && !st.stopped && st.pinnedAddr == "" && st.overlays == map[] && st.closing == {} && AllDirect(st)
    && |st.pool| == n && forall c :: c in st.pool ==> !c.pinned && c.addr in addrs
  }

  lemma FillExample(st: State)
    requires Started(st) && st.pinnedAddr == "" && st.overlays == map[] && AllDirect(st)
    ensures Plain(Run(st, [Join("a", false, true), Join("b", false, true), Join("c", false, true)]), {"a", "b", "c"}, 3)
  {
    hide Next, Run;
    var a, b, c := Join("a", false, true), Join("b", false, true), Join("c", false, true);
    assert [] + [a] == [a] && [a] + [b] == [a, b] && [a, b] + [c] == [a, b, c];
    assert "b"[0] != "a"[0] && "c"[0] != "a"[0] && "c"[0] != "b"[0];
    assert {} + {"a"} == {"a"} && {"a"} + {"b"} == {"a", "b"} && {"a", "b"} + {"c"} == {"a", "b", "c"};
    RunMore(st, [], a);
    PlainJoin(st, {}, 0, "a");
    RunMore(st, [a], b);
    PlainJoin(Run(st, [a]), {"a"}, 1, "b");
    RunMore(st, [a, b], c);
    PlainJoin(Run(st, [a, b]), {"a", "b"}, 2, "c");
  }

  lemma PlainJoin(st: State, addrs: set<Address>, n: nat, addr: Address)
    requires Plain(st, addrs, n) && n < TARGET_PEERS && addr !in addrs && addr in {"a", "b", "c"}
    ensures Plain(Next(st, Join(addr, false, true)), addrs + {addr}, n + 1)
  {
    forall i | 0 <= i < |st.pool|
      ensures st.pool[i].addr != addr
    {
      assert st.pool[i] in st.pool;
    }
  }

  lemma PinExample(st: State, addr: Address)
    requires Plain(st, {"a", "b", "c"}, 3) && addr == "p"
    ensures var after := Next(Next(st, Pin(addr)), Join(addr, true, true));
            |after.pool| == 4 && after.closing == {}
  {
    assert "p"[0] != "a"[0] && "p"[0] != "b"[0] && "p"[0] != "c"[0];
    assert (set c | c in st.pool && (c.pinned || c.addr == addr) :: c.id) == {};
    var pinned := Next(st, Pin(addr));
    forall i | 0 <= i < |st.pool|
      ensures st.pool[i].addr != addr
    {
      assert st.pool[i] in st.pool;
    }
  }

  lemma RunMore(st: State, events: seq<Event>, ev: Event)
    ensures Run(st, events + [ev]) == Next(Run(st, events), ev)
    ensures Run(st, []) == st
  {
    assert (events + [ev])[..|events|] == events;
    assert [] + [ev] == [ev];
  }

  // ---------------------------------------------------------------- the class

  /** The manager's shared state; every method is one locked section. */
  class Manager {
    const networkOf: Address -> Network
    var pool: seq<Conn>
    var pinnedAddr: Address
    var overlays: map<Network, bool>
    var stopped: bool
    var nextId: nat
    ghost var closing: set<nat>

    ghost function Snapshot(): State
      reads this
    {
      State(networkOf, pool, pinnedAddr, overlays, stopped, closing, nextId)
    }

    constructor (networkOf: Address -> Network, pinned: Address, overlays: map<Network, bool>)
      ensures Started(Snapshot()) && this.networkOf == networkOf && pinnedAddr == pinned && this.overlays == overlays
    {
      this.networkOf := networkOf;
      pool, pinnedAddr, this.overlays, stopped, nextId, closing := [], pinned, overlays, false, 0, {};
    }

    /** Adds a peer that finished its handshake to the pool, or refuses it. */
    method Connect(addr: Address, pinned: bool, servesFilters: bool) returns (joined: bool)
      modifies this
      ensures Snapshot() == Next(old(Snapshot()), Join(addr, pinned, servesFilters))
      ensures joined == Admits(old(Snapshot()), Join(addr, pinned, servesFilters))
      ensures joined <==>
                && servesFilters && !stopped && (pinned ==> addr == pinnedAddr)
                && (if overlays == map[] then networkOf(addr) == Direct else networkOf(addr) in overlays)
                && (forall c :: c in old(pool) ==> c.addr != addr)
                && (pinned || old(SlotsOpen()) > 0)
      ensures pool == if joined then old(pool) + [Conn(old(nextId), addr, pinned)] else old(pool)
    {
      joined := false;
      if servesFilters {
        if stopped {
        } else if pinned && addr != pinnedAddr {
        } else if !Allowed(overlays, networkOf(addr)) {
        } else if HoldsAddr(pool, addr) {
        } else {
          var slots := SlotsLeft();
          if pinned || slots > 0 {
            pool := pool + [Conn(nextId, addr, pinned)];
            nextId := nextId + 1;
            joined := true;
          }
        }
      }
    }

    /** The target less the connections, and less one while the pinned peer is
        away; none while anonymity networks are on and no client of one is ready. */
    ghost function SlotsOpen(): int
      reads this
    {
      if overlays != map[] && forall n :: n in overlays ==> !overlays[n] then 0
      else if pinnedAddr != "" && forall c :: c in pool ==> !c.pinned then 2 - |pool|
      else 3 - |pool|
    }

    method SlotsLeft() returns (n: int)
      ensures n == OpenSlots(Snapshot()) && n == SlotsOpen()
    {
      if overlays != map[] && !Ready(overlays) {
        return 0;
      }
      n := TARGET_PEERS - |pool|;
      if pinnedAddr != "" && !HoldsPinned(pool) {
        n := n - 1;
      }
    }

    /** Takes a connection that is gone out of the pool. */
    method Disconnected(id: nat)
      modifies this
      ensures Snapshot() == Next(old(Snapshot()), Quit(id))
      ensures forall c :: c in pool <==> c in old(pool) && c.id != id
    {
      forall c
        ensures c in Without(pool, id) <==> c in pool && c.id != id
      {
        WithoutMember(pool, id, c);
      }
      pool := Without(pool, id);
    }

    /** Changes the pinned peer. Pinned connections are picked to be closed, and
        so is one to the new peer, which is to be dialed as pinned. */
    method SetPinned(addr: Address) returns (picked: seq<Conn>)
      modifies this
      ensures Snapshot() == Next(old(Snapshot()), Pin(addr))
      ensures closing == old(closing) + set c | c in picked :: c.id
      ensures forall c :: c in picked <==> !stopped && addr != old(pinnedAddr) && c in pool && (c.pinned || c.addr == addr)
      ensures pinnedAddr == if stopped then old(pinnedAddr) else addr
    {
      picked := [];
      if !stopped && addr != pinnedAddr {
        pinnedAddr := addr;
        for i := 0 to |pool|
          invariant forall c :: c in picked <==> c in pool[..i] && (c.pinned || c.addr == addr)
        {
          assert pool[..i + 1] == pool[..i] + [pool[i]];
          if pool[i].pinned || pool[i].addr == addr {
            picked := picked + [pool[i]];
          }
        }
        assert pool[..|pool|] == pool;
        closing := closing + set c | c in picked :: c.id;
      }
    }

    /** Turns an anonymity network on or off. Picks every peer no longer allowed for disconnection. */
    method SetOverlay(n: Network, on: bool, ready: bool) returns (picked: seq<Conn>)
      modifies this
      ensures Snapshot() == Next(old(Snapshot()), Overlay(n, on, ready))
      ensures closing == old(closing) + set c | c in picked :: c.id
      ensures forall m :: m in overlays <==> if m == n then on else m in old(overlays)
      ensures forall m :: m in overlays ==> overlays[m] == if m == n then ready else old(overlays)[m]
      ensures forall c :: c in picked <==>
                (n in old(overlays)) != on && c in pool
                && if overlays == map[] then networkOf(c.addr) != Direct else networkOf(c.addr) !in overlays
    {
      picked := [];
      var was := n in overlays;
      if on {
        overlays := overlays[n := ready];
      } else {
        overlays := overlays - {n};
      }
      if was != on {
        for i := 0 to |pool|
          invariant forall c :: c in picked <==> c in pool[..i] && !Allowed(overlays, networkOf(c.addr))
        {
          assert pool[..i + 1] == pool[..i] + [pool[i]];
          if !Allowed(overlays, networkOf(pool[i].addr)) {
            picked := picked + [pool[i]];
          }
        }
        assert pool[..|pool|] == pool;
        closing := closing + set c | c in picked :: c.id;
      }
    }

    /** Ends the sync. Picks every connection for disconnection. */
    method Stop() returns (picked: seq<Conn>)
      modifies this
      ensures Snapshot() == Next(old(Snapshot()), Halt)
      ensures closing == old(closing) + set c | c in picked :: c.id
      ensures stopped && picked == if old(stopped) then [] else pool
    {
      picked := [];
      if !stopped {
        stopped := true;
        picked := pool;
        closing := closing + set c | c in picked :: c.id;
      }
    }
  }
}