// Reservations, publication and eviction of the persistent artifact cache, shared by processes that may
// crash at any point (compiler/core/src/artifact_cache.cpp).
//
// Every step runs under the cache's global lock.  The key lock of a slot belongs to a reserve call in
// progress or to a live reservation; the operating system drops it when its process dies.
module ArtifactCache {
  import opened ArtifactStore

  datatype Limits = Limits(entryBytes: U64, uidBytes: U64, globalBytes: U64, freeBytes: U64, freePercent: nat)
  datatype Space = Space(total: U64, available: U64)

  // ---- Quotas ----

  predicate Within(entries: seq<Entry>, reservations: seq<Reservation>, scope: Option<nat>, extra: nat, limit: U64) {
    limit < U64_MAX ==> Usage(entries, scope) + Reserved(reservations, scope) + extra <= limit
  }

  lemma {:induction false} SaturatedSum(a: nat, b: nat, c: U64)
    ensures SaturatedAdd(Clamp(a), SaturatedAdd(Clamp(b), c)) == Clamp(a + b + c)
  {
  }

  // ---- Chains of evictions ----

  datatype Eviction = Eviction(scope: Option<nat>, victim: Entry, after: seq<Entry>)

  function Final(before: seq<Entry>, trace: seq<Eviction>): seq<Entry> {
    if trace == [] then before else trace[|trace| - 1].after
  }

  /** Each eviction takes the least recently used unpinned entry of its scope at that moment. */
  ghost predicate Chain(before: seq<Entry>, trace: seq<Eviction>) {
    forall i :: 0 <= i < |trace| ==> Evicted(Final(before, trace[..i]), trace[i].scope, trace[i].after, trace[i].victim)
  }

  lemma {:induction false} ChainExtends(before: seq<Entry>, trace: seq<Eviction>, more: Eviction)
    requires Chain(before, trace) && Evicted(Final(before, trace), more.scope, more.after, more.victim)
    ensures Chain(before, trace + [more]) && Final(before, trace + [more]) == more.after
  {
    var all := trace + [more];
    forall i | 0 <= i < |all| ensures Evicted(Final(before, all[..i]), all[i].scope, all[i].after, all[i].victim) {
      if i < |trace| { assert all[..i] == trace[..i]; } else { assert all[..i] == trace; }
    }
  }

  lemma {:induction false} EvictionShrinks(before: seq<Entry>, scope: Option<nat>, after: seq<Entry>, victim: Entry,
                                           any: Option<nat>)
    requires Evicted(before, scope, after, victim)
    ensures Usage(before, any) == Usage(after, any) + Weight(victim, any) && |after| < |before|
  {
    var i :| 0 <= i < |before| && before[i] == victim;
    WithoutElements(before, i);
    UsagePermutes(after, Without(before, i), any);
    UsageWithout(before, i, any);
    assert |multiset(after)| == |after| && |multiset(before)| == |before|;
  }

  lemma {:induction false} EvictionEffect(before: seq<Entry>, scope: Option<nat>, after: seq<Entry>, victim: Entry)
    requires Evicted(before, scope, after, victim)
    ensures |after| < |before| && forall any :: Usage(after, any) <= Usage(before, any)
    ensures Usage(before, None) - Usage(after, None) == victim.size
  {
    hide Evicted;
    forall any ensures Usage(after, any) <= Usage(before, any) { EvictionShrinks(before, scope, after, victim, any); }
    EvictionShrinks(before, scope, after, victim, None);
  }

  lemma {:induction false} ClampedSum(a: nat, b: nat)
    ensures SaturatedAdd(Clamp(a), Clamp(b)) == Clamp(a + b)
  {
  }

  lemma {:induction false} ChainShrinks(before: seq<Entry>, trace: seq<Eviction>, scope: Option<nat>)
    requires Chain(before, trace)
    ensures Usage(Final(before, trace), scope) <= Usage(before, scope)
    decreases |trace|
  {
    if trace != [] {
      var n := |trace| - 1;
      ChainPrefix(before, trace, n);
      ChainShrinks(before, trace[..n], scope);
      EvictionShrinks(Final(before, trace[..n]), trace[n].scope, trace[n].after, trace[n].victim, scope);
    }
  }

  lemma {:induction false} ChainPrefix(before: seq<Entry>, trace: seq<Eviction>, n: nat)
    requires Chain(before, trace) && n <= |trace|
    ensures Chain(before, trace[..n])
  {
    forall i | 0 <= i < n
      ensures Evicted(Final(before, trace[..n][..i]), trace[..n][i].scope, trace[..n][i].after, trace[..n][i].victim)
    {
      assert trace[..n][..i] == trace[..i];
    }
  }

  /** A chain removes entries and nothing else, and never a pinned one. */
  lemma {:induction false} ChainKeepsPinned(before: seq<Entry>, trace: seq<Eviction>)
    requires Chain(before, trace)
    ensures multiset(Final(before, trace)) <= multiset(before)
    ensures forall e :: e in before && e.pins > 0 ==> e in Final(before, trace)
    decreases |trace|
  {
    if trace != [] {
      var n := |trace| - 1;
      ChainPrefix(before, trace, n);
      ChainKeepsPinned(before, trace[..n]);
      var middle := Final(before, trace[..n]);
      assert Evicted(middle, trace[n].scope, trace[n].after, trace[n].victim);
      forall e | e in before && e.pins > 0 ensures e in trace[n].after {
        assert e in multiset(middle) && e != trace[n].victim;
        assert e in multiset(trace[n].after);
      }
    }
  }

  // ---- Making room for a reservation ----

  function PercentageOf(value: U64, percent: nat): U64 {
    var whole, remainder := value / 100, value % 100;
    if percent != 0 && whole > U64_MAX / percent then U64_MAX
    else SaturatedAdd(Clamp(whole * percent), Clamp(remainder * percent / 100))
  }

  /** The split into hundreds loses nothing: it is the percentage, clamped. */
  lemma {:induction false} PercentageIsExact(value: U64, percent: nat)
    ensures PercentageOf(value, percent) == Clamp(value * percent / 100)
  {
    var whole, remainder := value / 100, value % 100;
    assert value * percent == 100 * (whole * percent) + remainder * percent by {
      assert value == 100 * whole + remainder;
    }
    HundredSplits(whole * percent, remainder * percent);
    if percent != 0 { Quotient(whole, percent); }
  }

  lemma {:induction false} HundredSplits(a: nat, b: nat)
    ensures (100 * a + b) / 100 == a + b / 100
  {
  }

  lemma {:induction false} Quotient(whole: nat, percent: nat)
    requires percent > 0
    ensures whole > U64_MAX / percent <==> whole * percent > U64_MAX
  {
    var q := U64_MAX / percent;
    assert q * percent <= U64_MAX < (q + 1) * percent;
    if whole > q { assert whole * percent >= (q + 1) * percent; } else { assert whole * percent <= q * percent; }
  }

  /** Free space that must remain after the reservation. */
  function RequiredFree(l: Limits, space: Space, reserved: U64, bytes: U64): U64 {
    var share := PercentageOf(space.total, l.freePercent);
    SaturatedAdd(if l.freeBytes > share then l.freeBytes else share, SaturatedAdd(reserved, bytes))
  }

  /** `rest` is what the evictions of `trace` leave of `start`. */
  ghost predicate Left(start: seq<Entry>, trace: seq<Eviction>, rest: seq<Entry>) {
    Chain(start, trace) && multiset(rest) == multiset(Final(start, trace))
  }

  lemma {:induction false} NothingEvictedYet(entries: seq<Entry>)
    ensures Left(entries, [], entries)
  {
  }

  /** One more eviction from what is left; fails when nothing in scope can go. */
  method EvictMore(ghost start: seq<Entry>, ghost before: seq<Eviction>, entries: seq<Entry>, scope: Option<nat>,
                   reclaimed: U64,
                   failing: bool)
    returns (ok: bool, rest: seq<Entry>, total: U64, ghost trace: seq<Eviction>)
    requires Left(start, before, entries)
    ensures Left(start, trace, rest)
    ensures if ok then |trace| == |before| + 1 && trace[..|before|] == before && trace[|before|].scope == scope
            else trace == before
    ensures ok ==> |rest| < |entries| && forall any :: Usage(rest, any) <= Usage(entries, any)
    ensures ok ==> total == SaturatedAdd(reclaimed, Clamp(Usage(entries, None) - Usage(rest, None)))
    ensures !ok ==> multiset(rest) == multiset(entries)
    ensures !ok && !failing ==> forall e :: e in entries ==> !Evictable(e, scope)
  {
    hide Usage, LeastRecentlyUsed, Chain, Final, Evicted;
    ghost var victim: Option<Entry>;
    ok, rest, total, victim := EvictOne(entries, scope, reclaimed, failing);
    trace := before;
    if ok {
      EvictionEffect(entries, scope, rest, victim.value);
      trace := before + [Eviction(scope, victim.value, rest)];
      LeftExtends(start, before, entries, Eviction(scope, victim.value, rest));
    }
  }

  lemma {:induction false} LeftExtends(start: seq<Entry>, trace: seq<Eviction>, entries: seq<Entry>, more: Eviction)
    requires Left(start, trace, entries) && Evicted(entries, more.scope, more.after, more.victim)
    ensures Left(start, trace + [more], more.after)
  {
    hide Evicted, Chain;
    EvictedFromPermutation(entries, Final(start, trace), more.scope, more.after, more.victim);
    ChainExtends(start, trace, more);
  }

  /** Nothing is larger than it was. */
  ghost predicate Between(entries: seq<Entry>, rest: seq<Entry>) {
    forall any :: Usage(rest, any) <= Usage(entries, any)
  }

  lemma {:induction false} LeftUsage(start: seq<Entry>, trace: seq<Eviction>, rest: seq<Entry>)
    requires Left(start, trace, rest)
    ensures forall any :: Usage(rest, any) == Usage(Final(start, trace), any)
  {
    forall any ensures Usage(rest, any) == Usage(Final(start, trace), any) {
      UsagePermutes(rest, Final(start, trace), any);
    }
  }

  /** What is free when the file system was sampled with `sampled` on disk and `rest` is what remains of it. */
  function FreeAfter(space: Space, sampled: seq<Entry>, rest: seq<Entry>): U64 {
    Clamp(space.available + if Usage(rest, None) <= Usage(sampled, None) then Usage(sampled, None) - Usage(rest, None)
        else 0)
  }

  /** What a reservation asks for: a quota, or free space that was sampled with `sampled` on disk. */
  datatype Demand =
    | Quota(scope: Option<nat>, reservations: seq<Reservation>, bytes: U64, limit: U64)
    | Free(space: Space, sampled: seq<Entry>, required: U64)

  function ScopeOf(demand: Demand): Option<nat> { if demand.Quota? then demand.scope else None }

  ghost predicate Meets(rest: seq<Entry>, demand: Demand) {
    match demand
    case Quota(scope, reservations, bytes, limit) => Within(rest, reservations, scope, bytes, limit)
    case Free(space, sampled, required) => FreeAfter(space, sampled, rest) >= required
  }

  /** Every eviction from number `from` on was made in the demand's scope while the demand was not met. */
  ghost predicate Needed(start: seq<Entry>, trace: seq<Eviction>, from: nat, entries: seq<Entry>, demand: Demand) {
    forall i :: from <= i < |trace| ==>
      && trace[i].scope == ScopeOf(demand) && Between(entries, Final(start, trace[..i]))
      && !Meets(Final(start, trace[..i]), demand)
  }

  lemma {:induction false} MoreNeeded(start: seq<Entry>, before: seq<Eviction>, trace: seq<Eviction>, from: nat,
                                      entries: seq<Entry>, was: seq<Entry>, demand: Demand)
    requires Needed(start, before, from, entries, demand)
    requires |trace| == |before| + 1 && trace[..|before|] == before && trace[|before|].scope == ScopeOf(demand)
    requires Between(entries, was) && !Meets(was, demand)
    requires forall any :: Usage(was, any) == Usage(Final(start, before), any)
    ensures Needed(start, trace, from, entries, demand)
  {
    hide Usage, Reserved, Final;
    forall i | from <= i < |trace|
      ensures trace[i].scope == ScopeOf(demand) && Between(entries, Final(start, trace[..i]))
          && !Meets(Final(start, trace[..i]), demand)
    {
      if i < |before| { assert trace[..i] == before[..i]; } else { assert trace[..i] == before; }
    }
  }

  /** Evict within `scope` until entries, reservations and the new bytes fit under `limit`. */
  method TrimToLimit(ghost start: seq<Entry>, ghost before: seq<Eviction>, entries: seq<Entry>,
                     reservations: seq<Reservation>, scope: Option<nat>, bytes: U64, limit: U64, failing: nat -> bool)
    returns (ok: bool, rest: seq<Entry>, ghost trace: seq<Eviction>)
    requires Left(start, before, entries)
    ensures Left(start, trace, rest) && before <= trace
    ensures ok <==> Within(rest, reservations, scope, bytes, limit)
    ensures Between(entries, rest)
    ensures Within(entries, reservations, scope, bytes, limit) ==> rest == entries && trace == before
    ensures Needed(start, trace, |before|, entries, Quota(scope, reservations, bytes, limit))
    ensures !ok && (forall n :: !failing(n)) ==> forall e :: e in rest ==> !Evictable(e, scope)
  {
    hide Left, Final;
    rest, trace := entries, before;
    var reserved := ComputeReserved(reservations, scope);
    var reclaimed: U64 := 0;
    var used := ComputeUsage(rest, scope);
    while SaturatedAdd(used, SaturatedAdd(reserved, bytes)) > limit
      invariant Left(start, trace, rest) && before <= trace
      invariant used == Clamp(Usage(rest, scope))
      invariant Between(entries, rest)
      invariant Within(entries, reservations, scope, bytes, limit) ==> rest == entries && trace == before
      invariant Needed(start, trace, |before|, entries, Quota(scope, reservations, bytes, limit))
      decreases |rest|
    {
      var evicted: bool;
      ghost var was, steps := rest, trace;
      SaturatedSum(Usage(was, scope), Reserved(reservations, scope), bytes);
      LeftUsage(start, trace, rest);
      evicted, rest, reclaimed, trace := EvictMore(start, trace, rest, scope, reclaimed, failing(|rest|));
      if !evicted {
        forall any ensures Usage(rest, any) == Usage(was, any) { UsagePermutes(rest, was, any); }
        forall e | e in rest ensures e in was { assert e in multiset(was); }
        return false, rest, trace;
      }
      MoreNeeded(start, steps, trace, |before|, entries, was, Quota(scope, reservations, bytes, limit));
      used := ComputeUsage(rest, scope);
    }
    SaturatedSum(Usage(rest, scope), Reserved(reservations, scope), bytes);
    ok := true;
  }

  /** Evict from any user until the file system keeps enough free space. */
  method TrimToSpace(ghost start: seq<Entry>, ghost before: seq<Eviction>, entries: seq<Entry>, space: Space,
                     required: U64, failing: nat -> bool)
    returns (ok: bool, rest: seq<Entry>, ghost trace: seq<Eviction>)
    requires Left(start, before, entries)
    ensures Left(start, trace, rest) && before <= trace
    ensures Between(entries, rest)
    ensures ok <==> FreeAfter(space, entries, rest) >= required
    ensures space.available >= required ==> rest == entries && trace == before
    ensures Needed(start, trace, |before|, entries, Free(space, entries, required))
    ensures !ok && (forall n :: !failing(n)) ==> forall e :: e in rest ==> !Evictable(e, None)
  {
    hide Usage, Left, Final;
    rest, trace := entries, before;
    var reclaimed: U64 := 0;
    while SaturatedAdd(space.available, reclaimed) < required
      invariant Left(start, trace, rest) && before <= trace
      invariant Between(entries, rest) && reclaimed == Clamp(Usage(entries, None) - Usage(rest, None))
      invariant space.available >= required ==> rest == entries && trace == before
      invariant Needed(start, trace, |before|, entries, Free(space, entries, required))
      decreases |rest|
    {
      var evicted: bool;
      ghost var was, steps := rest, trace;
      ClampedSum(space.available, Usage(entries, None) - Usage(rest, None));
      LeftUsage(start, trace, rest);
      evicted, rest, reclaimed, trace := EvictMore(start, trace, rest, None, reclaimed, failing(|rest|));
      if !evicted {
        forall any ensures Usage(rest, any) == Usage(was, any) { UsagePermutes(rest, was, any); }
        forall e | e in rest ensures e in was { assert e in multiset(was); }
        return false, rest, trace;
      }
      MoreNeeded(start, steps, trace, |before|, entries, was, Free(space, entries, required));
      ClampedSum(Usage(entries, None) - Usage(was, None), Usage(was, None) - Usage(rest, None));
    }
    ClampedSum(space.available, Usage(entries, None) - Usage(rest, None));
    ok := true;
  }

  lemma {:induction false} WithinShrinks(entries: seq<Entry>, rest: seq<Entry>, reservations: seq<Reservation>,
                                         scope: Option<nat>,
                                         extra: nat, limit: U64)
    requires Usage(rest, scope) <= Usage(entries, scope)
    ensures Within(entries, reservations, scope, extra, limit) ==> Within(rest, reservations, scope, extra, limit)
  {
  }

  /** Quotas hold and, where the file system could be asked, enough space is free. */
  ghost predicate Fits(l: Limits, sampled: seq<Entry>, rest: seq<Entry>, reservations: seq<Reservation>, uid: nat,
                       bytes: U64, space: Option<Space>)
  {
    && Within(rest, reservations, Some(uid), bytes, l.uidBytes)
    && Within(rest, reservations, None, bytes, l.globalBytes)
    && (space.Some? ==>
          FreeAfter(space.value, sampled, rest)
            >= RequiredFree(l, space.value, Clamp(Reserved(reservations, None)), bytes))
  }

  predicate NothingEvictable(entries: seq<Entry>, scope: Option<nat>) {
    forall i :: 0 <= i < |entries| ==> !Evictable(entries[i], scope)
  }

  /** Some demand is not met and nothing that could be evicted for it is left. */
  ghost predicate Hopeless(l: Limits, sampled: seq<Entry>, rest: seq<Entry>, reservations: seq<Reservation>, uid: nat,
                           bytes: U64, space: Option<Space>)
  {
    || (NothingEvictable(rest, Some(uid)) && !Within(rest, reservations, Some(uid), bytes, l.uidBytes))
    || (NothingEvictable(rest, None) && !Fits(l, sampled, rest, reservations, uid, bytes, space))
  }

  /**
   * Each eviction was made while the demand was not met, among the user's own entries as long as the user's quota
   * was exceeded, and among all entries after that.
   */
  ghost predicate Minimal(l: Limits, entries: seq<Entry>, trace: seq<Eviction>, sampled: seq<Entry>,
                          reservations: seq<Reservation>, uid: nat, bytes: U64, space: Option<Space>)
  {
    forall i :: 0 <= i < |trace| ==>
      var at := Final(entries, trace[..i]);
      && !Fits(l, sampled, at, reservations, uid, bytes, space)
      && trace[i].scope == if Within(at, reservations, Some(uid), bytes, l.uidBytes) then None else Some(uid)
  }

  /** One more trimming loop keeps what the earlier ones left minimal. */
  lemma {:induction false} MinimalExtends(l: Limits, start: seq<Entry>, before: seq<Eviction>, trace: seq<Eviction>,
                                          sampled: seq<Entry>, entries: seq<Entry>, reservations: seq<Reservation>,
                                          uid: nat, bytes: U64, space: Option<Space>, demand: Demand)
    requires before <= trace && Needed(start, trace, |before|, entries, demand)
    requires Minimal(l, start, before, sampled, reservations, uid, bytes, space)
    requires demand == Quota(Some(uid), reservations, bytes, l.uidBytes)
        || (Within(entries, reservations, Some(uid), bytes, l.uidBytes)
            && demand == Quota(None, reservations, bytes, l.globalBytes))
        || (Within(entries, reservations, Some(uid), bytes, l.uidBytes) && space.Some?
            && demand == Free(space.value, sampled,
                              RequiredFree(l, space.value, Clamp(Reserved(reservations, None)), bytes)))
    ensures Minimal(l, start, trace, sampled, reservations, uid, bytes, space)
  {
    hide Usage, Reserved, Final, RequiredFree;
    forall i | 0 <= i < |trace|
      ensures
        var at := Final(start, trace[..i]);
        && !Fits(l, sampled, at, reservations, uid, bytes, space)
        && trace[i].scope == if Within(at, reservations, Some(uid), bytes, l.uidBytes) then None else Some(uid)
    {
      if i < |before| {
        assert trace[..i] == before[..i];
      } else {
        assert trace[i].scope == ScopeOf(demand) && Between(entries, Final(start, trace[..i]));
        WithinShrinks(entries, Final(start, trace[..i]), reservations, Some(uid), bytes, l.uidBytes);
      }
    }
  }

  /** Evictions made for a quota do not depend on when the file system is sampled. */
  lemma {:induction false} MinimalAnySample(l: Limits, start: seq<Entry>, trace: seq<Eviction>,
                                            reservations: seq<Reservation>, uid: nat, bytes: U64, space: Option<Space>,
                                            sampled: seq<Entry>)
    requires Minimal(l, start, trace, [], reservations, uid, bytes, None)
    ensures Minimal(l, start, trace, sampled, reservations, uid, bytes, space)
  {
    hide Within, FreeAfter, RequiredFree, Final;
  }

  /**
   * The three eviction loops of reserve: the user's quota, the global quota, free space.  The file system
   * is sampled between the second and the third, with the entries `sampled` on disk.
   */
  method MakeRoom(l: Limits, entries: seq<Entry>, reservations: seq<Reservation>, uid: nat, bytes: U64,
                  space: Option<Space>, failing: nat -> bool)
    returns (ok: bool, rest: seq<Entry>, ghost trace: seq<Eviction>, ghost sampled: seq<Entry>)
    ensures Left(entries, trace, rest)
    ensures ok <==> Fits(l, sampled, rest, reservations, uid, bytes, space)
    ensures Minimal(l, entries, trace, sampled, reservations, uid, bytes, space)
    ensures Fits(l, entries, entries, reservations, uid, bytes, space) ==>
              rest == entries && trace == [] && sampled == entries
    ensures !ok && (forall n :: !failing(n)) ==> Hopeless(l, sampled, rest, reservations, uid, bytes, space)
  {
    hide Usage, Reserved, Left, Evictable, RequiredFree, Within, Minimal, Needed, FreeAfter;
    NothingEvictedYet(entries);
    NothingNeededYet(l, entries, reservations, uid, bytes);
    ok, rest, trace := TrimToLimit(entries, [], entries, reservations, Some(uid), bytes, l.uidBytes, failing);
    MinimalExtends(l, entries, [], trace, [], entries, reservations, uid, bytes, None,
                   Quota(Some(uid), reservations, bytes, l.uidBytes));
    sampled := rest;
    if !ok {
      MinimalAnySample(l, entries, trace, reservations, uid, bytes, space, sampled);
      return;
    }
    ghost var first, user := trace, rest;
    ok, rest, trace := TrimToLimit(entries, trace, rest, reservations, None, bytes, l.globalBytes, failing);
    MinimalExtends(l, entries, first, trace, [], user, reservations, uid, bytes, None,
                   Quota(None, reservations, bytes, l.globalBytes));
    WithinShrinks(user, rest, reservations, Some(uid), bytes, l.uidBytes);
    sampled := rest;
    MinimalAnySample(l, entries, trace, reservations, uid, bytes, space, sampled);
    if !ok || space.None? { return; }
    var reserved := ComputeReserved(reservations, None);
    var required := RequiredFree(l, space.value, reserved, bytes);
    ghost var second := trace;
    SampleIsFree(space.value, sampled);
    ok, rest, trace := TrimToSpace(entries, trace, rest, space.value, required, failing);
    MinimalExtends(l, entries, second, trace, sampled, sampled, reservations, uid, bytes, space,
                   Free(space.value, sampled, required));
    WithinShrinks(sampled, rest, reservations, Some(uid), bytes, l.uidBytes);
    WithinShrinks(sampled, rest, reservations, None, bytes, l.globalBytes);
  }

  lemma {:induction false} NothingNeededYet(l: Limits, entries: seq<Entry>, reservations: seq<Reservation>, uid: nat,
                                            bytes: U64)
    ensures Minimal(l, entries, [], [], reservations, uid, bytes, None)
  {
  }

  lemma {:induction false} SampleIsFree(space: Space, sampled: seq<Entry>)
    ensures FreeAfter(space, sampled, sampled) == space.available
  {
  }

  lemma {:induction false} EvictedFromPermutation(a: seq<Entry>, b: seq<Entry>, scope: Option<nat>, after: seq<Entry>,
                                                  victim: Entry)
    requires multiset(a) == multiset(b) && Evicted(a, scope, after, victim)
    ensures Evicted(b, scope, after, victim)
  {
    assert victim in multiset(b);
    forall e | e in b ensures e in a {
      assert e in multiset(a);
    }
  }

  // ---- The shared store ----

  /** `pending` are the key locks held by reserve calls in progress, with the calling process. */
  datatype Store = Store(entries: seq<Entry>, reservations: seq<Reservation>, pending: map<Slot, nat>)

  predicate HasEntry(s: Store, slot: Slot) { exists i :: 0 <= i < |s.entries| && s.entries[i].slot == slot }

  predicate HasReservation(s: Store, slot: Slot) {
    exists i :: 0 <= i < |s.reservations| && s.reservations[i].slot == slot
  }

  function Kept(reservations: seq<Reservation>, owner: nat): seq<Reservation> {
    if reservations == [] then []
    else
      var last := reservations[|reservations| - 1];
      Kept(reservations[..|reservations| - 1], owner) + if last.owner == owner then [] else [last]
  }

  datatype Action =
    | Lock(slot: Slot, owner: nat, bytes: U64)
    | Reserve(slot: Slot, owner: nat, bytes: U64, trace: seq<Eviction>, rest: seq<Entry>, granted: bool)
    | Publish(index: nat, size: U64, now: U64, landed: bool)
    | Cancel(index: nat)
    | Lookup(index: nat, now: U64)
    | Unpin(index: nat)
    | Invalidate(index: nat)
    | Crash(owner: nat)

  /** When a step may happen. */
  ghost predicate Enabled(l: Limits, s: Store, action: Action) {
    match action
    case Lock(slot, _, bytes) => 0 < bytes <= l.entryBytes && slot !in s.pending && !HasReservation(s, slot)
    case Reserve(slot, owner, bytes, trace, rest, granted) =>
      && slot in s.pending && s.pending[slot] == owner && Left(s.entries, trace, rest)
      && (granted ==>
            && !HasEntry(s, slot) && Within(rest, s.reservations, Some(slot.uid), bytes, l.uidBytes)
            && Within(rest, s.reservations, None, bytes, l.globalBytes))
    case Publish(index, _, _, _) => index < |s.reservations|
    case Cancel(index) => index < |s.reservations|
    case Lookup(index, _) => index < |s.entries|
    case Unpin(index) => index < |s.entries| && s.entries[index].pins > 0
    case Invalidate(index) => index < |s.entries|
    case Crash(_) => true
  }

  /** An artifact that fits its reservation becomes an entry if its directory could be renamed into place. */
  function Published(l: Limits, s: Store, index: nat, size: U64, now: U64, landed: bool): Store
    requires index < |s.reservations|
  {
    var r := s.reservations[index];
    var dropped := s.(reservations := Without(s.reservations, index));
    if landed && 0 < size <= r.bytes && size <= l.entryBytes && !HasEntry(s, r.slot)
    then dropped.(entries := s.entries + [Entry(r.slot, size, now, 0)]) else dropped
  }

  function Apply(l: Limits, s: Store, action: Action): Store
    requires Enabled(l, s, action)
  {
    match action
    case Lock(slot, owner, _) => s.(pending := s.pending[slot := owner])
    case Reserve(slot, owner, bytes, trace, rest, granted) =>
      Store(rest, s.reservations + (if granted then [Reservation(slot, bytes, owner)] else []), s.pending - {slot})
    case Publish(index, size, now, landed) => Published(l, s, index, size, now, landed)
    case Cancel(index) => s.(reservations := Without(s.reservations, index))
    case Lookup(index, now) =>
      s.(entries := s.entries[index := s.entries[index].(lastUsed := now, pins := s.entries[index].pins + 1)])
    case Unpin(index) => s.(entries := s.entries[index := s.entries[index].(pins := s.entries[index].pins - 1)])
    case Invalidate(index) => if s.entries[index].pins > 0 then s else s.(entries := Without(s.entries, index))
    case Crash(owner) =>
      s.(reservations := Kept(s.reservations, owner), pending := map slot | slot in s.pending
          && s.pending[slot] != owner :: s.pending[slot])
  }

  // ---- The operations ----

  datatype Error = NoError | EntryAvailable | InvalidKey | ArtifactTooLarge | QuotaExceeded | ReservationNotFound
                 | MetadataMismatch | Io

  class Cache {
    const limits: Limits
    var store: Store

    constructor (l: Limits)
      ensures limits == l && store == Store([], [], map[])
    {
      limits := l;
      store := Store([], [], map[]);
    }

    /**
     * Take the key lock, look for a committed entry, make room and record the reservation.  `space` is the
     * file system query, `scanned` says whether the global lock and every directory and scan this call asks for
     * were to be had, `failing` which directory removals fail, `recorded` whether the record was written.
     */
    method Reserve(slot: Slot, owner: nat, bytes: U64, scanned: bool, space: Option<Space>, failing: nat -> bool,
                   recorded: bool)
      returns (error: Error, ghost lock: Action, ghost action: Action, ghost sampled: seq<Entry>)
      modifies this`store
      ensures
        var r, before := old(store).reservations, old(store).entries;
        if ValidKey(slot.key) && Enabled(limits, old(store), Lock(slot, owner, bytes)) then
          var locked := Apply(limits, old(store), Lock(slot, owner, bytes));
          var fits := Fits(limits, sampled, store.entries, r, slot.uid, bytes, space);
          && action.Reserve? && action.slot == slot && action.owner == owner && action.bytes == bytes
          && Enabled(limits, locked, action) && store == Apply(limits, locked, action)
          && store.reservations == r + (if error == NoError then [Reservation(slot, bytes, owner)] else [])
          && (error == EntryAvailable <==> scanned && HasEntry(old(store), slot))
          && (error == QuotaExceeded <==> scanned && !HasEntry(old(store), slot) && !fits)
          && (error == NoError <==> scanned && !HasEntry(old(store), slot) && fits && space.Some? && recorded)
          && (error == Io <==> !scanned || (!HasEntry(old(store), slot) && fits && (space.None? || !recorded)))
          && (!scanned || HasEntry(old(store), slot) ==> store.entries == before && action.trace == [])
          && Minimal(limits, before, action.trace, sampled, r, slot.uid, bytes, space)
          && (Fits(limits, before, before, r, slot.uid, bytes, space) ==>
                && store.entries == before && action.trace == []
                && (scanned && !HasEntry(old(store), slot) && space.Some? && recorded ==> error == NoError))
          && (error == QuotaExceeded && (forall n :: !failing(n)) ==>
                Hopeless(limits, sampled, store.entries, r, slot.uid, bytes, space))
        else
          && store == old(store)
          && error == if !ValidKey(slot.key) then InvalidKey
                      else if 0 < bytes <= limits.entryBytes then Io else ArtifactTooLarge
    {
      hide Hopeless, Left, Within, FreeAfter, RequiredFree;
      NothingEvictedYet(store.entries);
      sampled := [];
      lock := Lock(slot, owner, bytes);
      action := Crash(owner);
      if !ValidKey(slot.key) { return InvalidKey, lock, action, sampled; }
      if bytes == 0 || bytes > limits.entryBytes { return ArtifactTooLarge, lock, action, sampled; }
      if slot in store.pending || HasReservation(store, slot) { return Io, lock, action, sampled; }
      store := store.(pending := store.pending[slot := owner]);
      if !scanned {
        action := Action.Reserve(slot, owner, bytes, [], store.entries, false);
        error := Io;
      } else if HasEntry(store, slot) {
        action := Action.Reserve(slot, owner, bytes, [], store.entries, false);
        error := EntryAvailable;
      } else {
        var ok, rest, trace, at := MakeRoom(limits, store.entries, store.reservations, slot.uid, bytes, space, failing);
        sampled := at;
        error := if !ok then QuotaExceeded else if space.None? || !recorded then Io else NoError;
        action := Action.Reserve(slot, owner, bytes, trace, rest, error == NoError);
        store := store.(entries := rest,
            reservations := store.reservations + if error == NoError then [Reservation(slot, bytes, owner)] else []);
      }
      assert store.reservations + [] == store.reservations;
      store := store.(pending := store.pending - {slot});
    }

    /**
     * Turn a reservation into an entry, or drop it.  `locked` says whether the global lock was to be had,
     * `described` whether the descriptor is valid, `landed` whether the artifact was written and could be renamed
     * into place, `equivalent` whether an entry already there is the same artifact, `synced` whether the rename was
     * made durable, `removed` whether the reservation record could be removed.
     */
    method Publish(index: nat, size: U64, now: U64, locked: bool, described: bool, landed: bool, equivalent: bool,
                   synced: bool, removed: bool)
      returns (error: Error)
      modifies this`store
      ensures
        if index < |old(store).reservations| then
          var r := old(store).reservations[index];
          var fits := 0 < size <= r.bytes && size <= limits.entryBytes;
          var placed := locked && described && landed;
          var adds := fits && placed && !HasEntry(old(store), r.slot);
          && store == Apply(limits, old(store), Action.Publish(index, size, now, placed))
          && store.entries == (if adds then old(store).entries + [Entry(r.slot, size, now, 0)] else old(store).entries)
          && (error == ArtifactTooLarge <==> locked && !fits)
          && (error == NoError <==>
                fits && placed && removed && if HasEntry(old(store), r.slot) then equivalent else synced)
          && (error == NoError ==> HasEntry(store, r.slot))
          && (error == InvalidKey <==> locked && fits && !described && removed)
          && (error == MetadataMismatch <==>
                fits && placed && removed && HasEntry(old(store), r.slot) && !equivalent)
          && (error == Io <==>
                !locked || (fits && ((described && !landed) || !removed || (adds && !synced))))
        else store == old(store) && error == ReservationNotFound
    {
      if index >= |store.reservations| { return ReservationNotFound; }
      var r := store.reservations[index];
      var present := HasEntry(store, r.slot);
      var added := [];
      if !locked {
        error := Io;
      } else if size == 0 || size > r.bytes || size > limits.entryBytes {
        error := ArtifactTooLarge;
      } else {
        if !described {
          error := InvalidKey;
        } else if !landed {
          error := Io;
        } else if present {
          error := if equivalent then NoError else MetadataMismatch;
        } else {
          added := [Entry(r.slot, size, now, 0)];
          error := if synced then NoError else Io;
        }
        if !removed { error := Io; }
      }
      assert store.entries + [] == store.entries;
      ghost var n := |store.entries|;
      ghost var before := store;
      store := store.(entries := store.entries + added, reservations := Without(store.reservations, index));
      assert added != [] ==> store.entries[n].slot == r.slot;
      assert present ==> HasEntry(store, r.slot) by {
        if present {
          var i :| 0 <= i < n && before.entries[i].slot == r.slot;
          assert store.entries[i].slot == r.slot;
        }
      }
    }
  }
}
