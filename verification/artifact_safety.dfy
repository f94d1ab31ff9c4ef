// What every run of the artifact cache keeps, over any mix of processes, publications, lookups and crashes.
module ArtifactSafety {
  import opened ArtifactStore
  import opened ArtifactCache

  // ---- Quotas ----

  function LimitOf(l: Limits, scope: Option<nat>): U64 { if scope.Some? then l.uidBytes else l.globalBytes }

  /** Committed bytes and live reservations fit the quota of the scope. */
  predicate QuotaHolds(l: Limits, s: Store, scope: Option<nat>) {
    Within(s.entries, s.reservations, scope, 0, LimitOf(l, scope))
  }

  /** The bytes a step accounts for in a scope. */
  function Total(s: Store, scope: Option<nat>): nat { Usage(s.entries, scope) + Reserved(s.reservations, scope) }

  lemma {:induction false} UsageAppend(entries: seq<Entry>, e: Entry, scope: Option<nat>)
    ensures Usage(entries + [e], scope) == Usage(entries, scope) + Weight(e, scope)
  {
    assert (entries + [e])[..|entries|] == entries;
  }

  lemma {:induction false} ReservedAppend(reservations: seq<Reservation>, r: Reservation, scope: Option<nat>)
    ensures Reserved(reservations + [r], scope) == Reserved(reservations, scope) + if InScope(scope, r.slot)
        then r.bytes else 0
  {
    assert (reservations + [r])[..|reservations|] == reservations;
  }

  lemma {:induction false} UsageUpdate(entries: seq<Entry>, i: nat, e: Entry, scope: Option<nat>)
    requires i < |entries| && e.slot == entries[i].slot && e.size == entries[i].size
    ensures Usage(entries[i := e], scope) == Usage(entries, scope)
  {
    UsageWithout(entries, i, scope);
    UsageWithout(entries[i := e], i, scope);
    assert Without(entries[i := e], i) == Without(entries, i);
  }

  lemma {:induction false} KeptShrinks(reservations: seq<Reservation>, owner: nat, scope: Option<nat>)
    ensures Reserved(Kept(reservations, owner), scope) <= Reserved(reservations, scope)
  {
    if reservations != [] {
      var n := |reservations| - 1;
      var front := Kept(reservations[..n], owner);
      KeptShrinks(reservations[..n], owner, scope);
      ReservedAppend(front, reservations[n], scope);
      assert Kept(reservations, owner) == if reservations[n].owner == owner then front else front + [reservations[n]];
      hide Kept;
    }
  }

  lemma {:induction false} LeftShrinks(start: seq<Entry>, trace: seq<Eviction>, rest: seq<Entry>, scope: Option<nat>)
    requires Left(start, trace, rest)
    ensures Usage(rest, scope) <= Usage(start, scope)
  {
    ChainShrinks(start, trace, scope);
    UsagePermutes(rest, Final(start, trace), scope);
  }

  /** Only a granted reservation adds to the account of a scope. */
  lemma {:induction false} StepAccounts(l: Limits, s: Store, action: Action, scope: Option<nat>)
    requires Enabled(l, s, action) && !(action.Reserve? && action.granted)
    ensures Total(Apply(l, s, action), scope) <= Total(s, scope)
  {
    match action
    case Reserve(_, _, _, trace, rest, _) =>
      LeftShrinks(s.entries, trace, rest, scope);
      assert s.reservations + [] == s.reservations;
    case Publish(index, size, now, landed) =>
      ReservedWithout(s.reservations, index, scope);
      UsageAppend(s.entries, Entry(s.reservations[index].slot, size, now, 0), scope);
    case Cancel(index) => ReservedWithout(s.reservations, index, scope);
    case Lookup(index, now) =>
      UsageUpdate(s.entries, index, s.entries[index].(lastUsed := now, pins := s.entries[index].pins + 1), scope);
    case Unpin(index) => UsageUpdate(s.entries, index, s.entries[index].(pins := s.entries[index].pins - 1), scope);
    case Invalidate(index) => UsageWithout(s.entries, index, scope);
    case Crash(owner) => KeptShrinks(s.reservations, owner, scope);
    case Lock(_, _, _) =>
  }

  /** A granted reservation establishes the user's and the global quota, whatever held before. */
  lemma {:induction false} GrantEstablishesQuota(l: Limits, s: Store, action: Action)
    requires Enabled(l, s, action) && action.Reserve? && action.granted
    ensures QuotaHolds(l, Apply(l, s, action), Some(action.slot.uid)) && QuotaHolds(l, Apply(l, s, action), None)
  {
    var r := Reservation(action.slot, action.bytes, action.owner);
    ReservedAppend(s.reservations, r, Some(action.slot.uid));
    ReservedAppend(s.reservations, r, None);
  }

  /** Once a quota holds, every step keeps it. */
  lemma {:induction false} StepKeepsQuota(l: Limits, s: Store, action: Action, scope: Option<nat>)
    requires Enabled(l, s, action) && QuotaHolds(l, s, scope)
    ensures QuotaHolds(l, Apply(l, s, action), scope)
  {
    if action.Reserve? && action.granted {
      if InScope(scope, action.slot) {
        GrantEstablishesQuota(l, s, action);
      } else {
        LeftShrinks(s.entries, action.trace, action.rest, scope);
        ReservedAppend(s.reservations, Reservation(action.slot, action.bytes, action.owner), scope);
      }
    } else {
      StepAccounts(l, s, action, scope);
    }
  }

  // ---- Slots ----

  ghost predicate DistinctEntries(entries: seq<Entry>) {
    forall i, j :: 0 <= i < j < |entries| ==> entries[i].slot != entries[j].slot
  }

  ghost predicate DistinctReservations(reservations: seq<Reservation>) {
    forall i, j :: 0 <= i < j < |reservations| ==> reservations[i].slot != reservations[j].slot
  }

  /** A live reservation is the only one for its slot, no reserve call holds its key lock, and no entry exists. */
  ghost predicate SlotsInv(s: Store) {
    && DistinctEntries(s.entries) && DistinctReservations(s.reservations)
    && (forall i :: 0 <= i < |s.reservations| ==>
          s.reservations[i].slot !in s.pending && !HasEntry(s, s.reservations[i].slot))
  }

  lemma {:induction false} KeptFrom(reservations: seq<Reservation>, owner: nat)
    requires DistinctReservations(reservations)
    ensures DistinctReservations(Kept(reservations, owner))
    ensures forall i :: 0 <= i < |Kept(reservations, owner)| ==> Kept(reservations, owner)[i] in reservations
  {
    if reservations != [] {
      var n := |reservations| - 1;
      KeptFrom(reservations[..n], owner);
      assert reservations == reservations[..n] + [reservations[n]];
    }
  }

  lemma {:induction false} FewerEntries(a: seq<Entry>, b: seq<Entry>)
    requires DistinctEntries(a) && multiset(b) <= multiset(a)
    ensures DistinctEntries(b) && forall e :: e in b ==> e in a
  {
    forall e | e in b ensures e in a { assert e in multiset(b); assert e in multiset(a); }
    forall i, j | 0 <= i < j < |b| ensures b[i].slot != b[j].slot {
      if b[i].slot == b[j].slot {
        SameSlotSameEntry(a, b[i], b[j]);
        TwiceInside(b, i, j);
        OnceInside(a, b[i]);
        assert false;
      }
    }
  }

  lemma {:induction false} SameSlotSameEntry(a: seq<Entry>, x: Entry, y: Entry)
    requires DistinctEntries(a) && x in a && y in a && x.slot == y.slot
    ensures x == y
  {
  }

  lemma {:induction false} TwiceInside(b: seq<Entry>, i: nat, j: nat)
    requires i < j < |b| && b[i] == b[j]
    ensures multiset(b)[b[i]] >= 2
  {
    assert b == b[..i] + [b[i]] + b[i + 1..j] + [b[j]] + b[j + 1..];
  }

  lemma {:induction false} OnceInside(a: seq<Entry>, x: Entry)
    requires DistinctEntries(a) && x in a
    ensures multiset(a)[x] == 1
  {
    var k :| 0 <= k < |a| && a[k] == x;
    assert a == a[..k] + [x] + a[k + 1..];
    assert x !in a[..k] && x !in a[k + 1..];
  }

  lemma {:induction false} LeftSlots(start: seq<Entry>, trace: seq<Eviction>, rest: seq<Entry>)
    requires Left(start, trace, rest) && DistinctEntries(start)
    ensures DistinctEntries(rest) && forall e :: e in rest ==> e in start
  {
    ChainKeepsPinned(start, trace);
    FewerEntries(start, rest);
  }

  lemma {:induction false} WithoutFrom<T>(s: seq<T>, i: nat)
    requires i < |s|
    ensures forall j :: 0 <= j < |Without(s, i)| ==> Without(s, i)[j] == s[if j < i then j else j + 1]
  {
  }

  lemma {:induction false} FewerHave(s: Store, t: Store)
    requires forall e :: e in t.entries ==> e in s.entries
    ensures forall slot :: HasEntry(t, slot) ==> HasEntry(s, slot)
  {
    forall slot | HasEntry(t, slot) ensures HasEntry(s, slot) {
      var i :| 0 <= i < |t.entries| && t.entries[i].slot == slot;
      assert t.entries[i] in s.entries;
    }
  }

  lemma {:induction false} ReserveKeepsSlots(l: Limits, s: Store, action: Action)
    requires SlotsInv(s) && Enabled(l, s, action) && action.Reserve?
    ensures SlotsInv(Apply(l, s, action))
  {
    hide HasEntry;
    LeftSlots(s.entries, action.trace, action.rest);
    FewerHave(s, Apply(l, s, action));
  }

  lemma {:induction false} PublishKeepsSlots(l: Limits, s: Store, action: Action)
    requires SlotsInv(s) && Enabled(l, s, action) && action.Publish?
    ensures SlotsInv(Apply(l, s, action))
  {
    var r, t := s.reservations[action.index], Apply(l, s, action);
    WithoutFrom(s.reservations, action.index);
    forall slot | HasEntry(t, slot) ensures HasEntry(s, slot) || slot == r.slot {
      var i :| 0 <= i < |t.entries| && t.entries[i].slot == slot;
      if i < |s.entries| { assert s.entries[i].slot == slot; }
    }
    hide HasEntry;
  }

  lemma {:induction false} EntryKeepsSlots(l: Limits, s: Store, action: Action)
    requires SlotsInv(s) && Enabled(l, s, action) && (action.Lookup? || action.Unpin? || action.Invalidate?)
    ensures SlotsInv(Apply(l, s, action))
  {
    var t := Apply(l, s, action);
    forall slot | HasEntry(t, slot) ensures HasEntry(s, slot) {
      var i :| 0 <= i < |t.entries| && t.entries[i].slot == slot;
      assert s.entries[if action.Invalidate? && s.entries[action.index].pins == 0
          && i >= action.index then i + 1 else i].slot == slot;
    }
    hide HasEntry;
  }

  lemma {:induction false} ReservationKeepsSlots(l: Limits, s: Store, action: Action)
    requires SlotsInv(s) && Enabled(l, s, action) && (action.Lock? || action.Cancel? || action.Crash?)
    ensures SlotsInv(Apply(l, s, action))
  {
    hide HasEntry;
    assert Apply(l, s, action).entries == s.entries;
    SameEntriesSameSlots(s, Apply(l, s, action));
    match action
    case Cancel(index) => WithoutFrom(s.reservations, index);
    case Crash(owner) => KeptFrom(s.reservations, owner);
    case Lock(slot, _, _) =>
  }

  lemma {:induction false} SameEntriesSameSlots(s: Store, t: Store)
    requires t.entries == s.entries
    ensures forall slot :: HasEntry(t, slot) <==> HasEntry(s, slot)
  {
  }

  lemma {:induction false} StepKeepsSlots(l: Limits, s: Store, action: Action)
    requires SlotsInv(s) && Enabled(l, s, action)
    ensures SlotsInv(Apply(l, s, action))
  {
    hide SlotsInv, Enabled, Apply;
    match action
    case Reserve(_, _, _, _, _, _) => ReserveKeepsSlots(l, s, action);
    case Publish(_, _, _, _) => PublishKeepsSlots(l, s, action);
    case Lookup(_, _) => EntryKeepsSlots(l, s, action);
    case Unpin(_) => EntryKeepsSlots(l, s, action);
    case Invalidate(_) => EntryKeepsSlots(l, s, action);
    case _ => ReservationKeepsSlots(l, s, action);
  }

  // ---- Runs ----

  /** The store after a run; steps that cannot happen are skipped. */
  ghost function Run(l: Limits, s: Store, actions: seq<Action>): Store
    decreases |actions|
  {
    if actions == [] then s
    else Run(l, if Enabled(l, s, actions[0]) then Apply(l, s, actions[0]) else s, actions[1..])
  }

  /**
   * Over every run, a quota once established stays established, and at most one live reservation
   * exists for each user and key.
   */
  lemma {:induction false} RunKeeps(l: Limits, s: Store, actions: seq<Action>, scope: Option<nat>)
    requires SlotsInv(s) && QuotaHolds(l, s, scope)
    ensures SlotsInv(Run(l, s, actions)) && QuotaHolds(l, Run(l, s, actions), scope)
    decreases |actions|
  {
    hide SlotsInv, QuotaHolds, Apply, Enabled;
    if actions != [] {
      var next := if Enabled(l, s, actions[0]) then Apply(l, s, actions[0]) else s;
      if Enabled(l, s, actions[0]) {
        StepKeepsQuota(l, s, actions[0], scope);
        StepKeepsSlots(l, s, actions[0]);
      }
      RunKeeps(l, next, actions[1..], scope);
    }
  }

  const EMPTY := Store([], [], map[])

  lemma {:induction false} CacheAlwaysWithinQuota(l: Limits, actions: seq<Action>, scope: Option<nat>)
    ensures
      var s := Run(l, EMPTY, actions);
      && SlotsInv(s)
          && (LimitOf(l, scope) < U64_MAX ==>
                Usage(s.entries, scope) + Reserved(s.reservations, scope) <= LimitOf(l, scope))
  {
    RunKeeps(l, EMPTY, actions, scope);
  }

  /** The slot holds an entry that at least n readers have pinned. */
  predicate Pinned(entries: seq<Entry>, slot: Slot, n: nat) {
    exists i :: 0 <= i < |entries| && entries[i].slot == slot && entries[i].pins >= n
  }

  lemma {:induction false} LeftKeepsPinned(start: seq<Entry>, trace: seq<Eviction>, rest: seq<Entry>, slot: Slot,
                                           n: nat)
    requires Left(start, trace, rest) && Pinned(start, slot, n) && n > 0
    ensures Pinned(rest, slot, n)
  {
    hide Chain;
    var i :| 0 <= i < |start| && start[i].slot == slot && start[i].pins >= n;
    ChainKeepsPinned(start, trace);
    assert start[i] in Final(start, trace);
    assert start[i] in multiset(rest);
    var k :| 0 <= k < |rest| && rest[k] == start[i];
    hide Left;
  }

  lemma {:induction false} WithoutKeepsPinned(entries: seq<Entry>, index: nat, slot: Slot, n: nat)
    requires index < |entries| && entries[index].pins == 0 && Pinned(entries, slot, n) && n > 0
    ensures Pinned(Without(entries, index), slot, n)
  {
    var i :| 0 <= i < |entries| && entries[i].slot == slot && entries[i].pins >= n;
    assert Without(entries, index)[if i < index then i else i - 1] == entries[i];
  }

  lemma {:induction false} AppendKeepsPinned(entries: seq<Entry>, more: seq<Entry>, slot: Slot, n: nat)
    requires Pinned(entries, slot, n)
    ensures Pinned(entries + more, slot, n)
  {
    var i :| 0 <= i < |entries| && entries[i].slot == slot && entries[i].pins >= n;
    assert (entries + more)[i] == entries[i];
  }

  /** A reader of the slot lets go of it. */
  predicate Releases(s: Store, action: Action, slot: Slot) {
    action.Unpin? && action.index < |s.entries| && s.entries[action.index].slot == slot
  }

  /** No step removes a pinned entry, and none but a reader's own release takes a pin from it, and then one. */
  lemma {:induction false} PinnedSurvives(l: Limits, s: Store, action: Action, slot: Slot, n: nat)
    requires Enabled(l, s, action) && Pinned(s.entries, slot, n) && n > 0
    ensures Pinned(Apply(l, s, action).entries, slot, if Releases(s, action, slot) then n - 1 else n)
  {
    match action
    case Reserve(_, _, _, trace, rest, _) => LeftKeepsPinned(s.entries, trace, rest, slot, n);
    case Publish(index, size, now, _) =>
      AppendKeepsPinned(s.entries, [Entry(s.reservations[index].slot, size, now, 0)], slot, n);
    case Invalidate(index) => if s.entries[index].pins == 0 { WithoutKeepsPinned(s.entries, index, slot, n); }
    case Lookup(index, _) =>
      var i :| 0 <= i < |s.entries| && s.entries[i].slot == slot && s.entries[i].pins >= n;
      assert Apply(l, s, action).entries[i].slot == slot;
    case Unpin(_) =>
      var i :| 0 <= i < |s.entries| && s.entries[i].slot == slot && s.entries[i].pins >= n;
      assert Apply(l, s, action).entries[i].slot == slot;
    case _ =>
  }

  /** How often readers of the slot let go of it in a run. */
  ghost function Released(l: Limits, s: Store, actions: seq<Action>, slot: Slot): nat
    decreases |actions|
  {
    if actions == [] then 0
    else if !Enabled(l, s, actions[0]) then Released(l, s, actions[1..], slot)
    else
      (if Releases(s, actions[0], slot) then 1 else 0) + Released(l, Apply(l, s, actions[0]), actions[1..], slot)
  }

  /** An entry pinned by n readers is there after every run in which fewer than n of them let go. */
  lemma {:induction false} PinnedSurvivesRuns(l: Limits, s: Store, actions: seq<Action>, slot: Slot, n: nat)
    requires Pinned(s.entries, slot, n) && Released(l, s, actions, slot) < n
    ensures Pinned(Run(l, s, actions).entries, slot, n - Released(l, s, actions, slot))
    decreases |actions|
  {
    hide Apply, Enabled, Pinned, Releases;
    if actions != [] {
      if Enabled(l, s, actions[0]) {
        PinnedSurvives(l, s, actions[0], slot, n);
        PinnedSurvivesRuns(l, Apply(l, s, actions[0]), actions[1..], slot,
                           if Releases(s, actions[0], slot) then n - 1 else n);
      } else {
        PinnedSurvivesRuns(l, s, actions[1..], slot, n);
      }
    }
  }

  /** A reader that found an entry keeps it through every run in which nobody lets go of the slot. */
  lemma {:induction false} LookupHolds(l: Limits, s: Store, index: nat, now: U64, actions: seq<Action>)
    requires index < |s.entries|
    requires
      var found := Apply(l, s, Lookup(index, now));
      Released(l, found, actions, s.entries[index].slot) == 0
    ensures
      var found, slot := Apply(l, s, Lookup(index, now)), s.entries[index].slot;
      && found.entries[index] == s.entries[index].(lastUsed := now, pins := s.entries[index].pins + 1)
      && (forall i :: 0 <= i < |s.entries| && i != index ==> found.entries[i] == s.entries[i])
      && |found.entries| == |s.entries|
      && Pinned(Run(l, found, actions).entries, slot, s.entries[index].pins + 1)
  {
    var found := Apply(l, s, Lookup(index, now));
    assert found.entries[index].slot == s.entries[index].slot;
    PinnedSurvivesRuns(l, found, actions, s.entries[index].slot, s.entries[index].pins + 1);
  }

  lemma {:induction false} KeptExactly(reservations: seq<Reservation>, owner: nat, r: Reservation)
    ensures r in Kept(reservations, owner) <==> r in reservations && r.owner != owner
  {
    if reservations != [] {
      var n := |reservations| - 1;
      KeptExactly(reservations[..n], owner, r);
      assert reservations == reservations[..n] + [reservations[n]];
    }
  }

  /** A crash gives up the dead process's reservations and key locks, all of them and nobody else's. */
  lemma {:induction false} CrashFreesOwn(l: Limits, s: Store, owner: nat)
    ensures
      var r := Apply(l, s, Crash(owner));
      && r.entries == s.entries
      && (forall x :: x in r.reservations <==> x in s.reservations && x.owner != owner)
      && (forall slot :: slot in r.pending <==> slot in s.pending && s.pending[slot] != owner)
      && (forall slot :: slot in r.pending ==> r.pending[slot] == s.pending[slot])
  {
    forall x ensures x in Kept(s.reservations, owner) <==> x in s.reservations && x.owner != owner {
      KeptExactly(s.reservations, owner, x);
    }
  }
}
