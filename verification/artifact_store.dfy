// Sizes, quotas and eviction order of the persistent artifact cache (compiler/core/src/artifact_cache.cpp).
module ArtifactStore {
  import opened TextEncoding

  const U64_MAX := 0xffff_ffff_ffff_ffff

  type U64 = x: nat | x <= U64_MAX

  datatype Slot = Slot(uid: nat, key: string)
  /** A committed entry; `pins` counts the readers holding its shared lock. */
  datatype Entry = Entry(slot: Slot, size: U64, lastUsed: U64, pins: nat)
  /** A live reservation of process `owner`. */
  datatype Reservation = Reservation(slot: Slot, bytes: U64, owner: nat)

  datatype Option<T> = None | Some(value: T)

  const KEY_PREFIX := "mf-cache-v1-"

  predicate HexDigit(c: char) { '0' <= c <= '9' || 'a' <= c <= 'f' }

  /** The key prefix and 64 lower-case hexadecimal digits. */
  predicate ValidKey(key: string) {
    |key| == |KEY_PREFIX| + 64 && KEY_PREFIX <= key && forall i :: |KEY_PREFIX| <= i < |key| ==> HexDigit(key[i])
  }

  predicate InScope(scope: Option<nat>, slot: Slot) { scope.Some? ==> scope.value == slot.uid }

  // ---- Saturating sums ----

  function SaturatedAdd(a: U64, b: U64): U64 { if b > U64_MAX - a then U64_MAX else a + b }

  function Clamp(n: nat): U64 { if n <= U64_MAX then n else U64_MAX }

  /** Bytes of the entries in scope, without any bound. */
  function Usage(entries: seq<Entry>, scope: Option<nat>): nat {
    if entries == [] then 0
    else
      var last := entries[|entries| - 1];
      Usage(entries[..|entries| - 1], scope) + if InScope(scope, last.slot) then last.size else 0
  }

  function Reserved(reservations: seq<Reservation>, scope: Option<nat>): nat {
    if reservations == [] then 0
    else
      var last := reservations[|reservations| - 1];
      Reserved(reservations[..|reservations| - 1], scope) + if InScope(scope, last.slot) then last.bytes else 0
  }

  method ComputeUsage(entries: seq<Entry>, scope: Option<nat>) returns (total: U64)
    ensures total == Clamp(Usage(entries, scope))
  {
    total := 0;
    for i := 0 to |entries|
      invariant total == Clamp(Usage(entries[..i], scope))
    {
      assert entries[..i + 1][..i] == entries[..i];
      if InScope(scope, entries[i].slot) { total := SaturatedAdd(total, entries[i].size); }
    }
    assert entries[..|entries|] == entries;
  }

  method ComputeReserved(reservations: seq<Reservation>, scope: Option<nat>) returns (total: U64)
    ensures total == Clamp(Reserved(reservations, scope))
  {
    total := 0;
    for i := 0 to |reservations|
      invariant total == Clamp(Reserved(reservations[..i], scope))
    {
      assert reservations[..i + 1][..i] == reservations[..i];
      if InScope(scope, reservations[i].slot) { total := SaturatedAdd(total, reservations[i].bytes); }
    }
    assert reservations[..|reservations|] == reservations;
  }

  // ---- Sums do not depend on order ----

  lemma {:induction false} UsageConcat(a: seq<Entry>, b: seq<Entry>, scope: Option<nat>)
    ensures Usage(a + b, scope) == Usage(a, scope) + Usage(b, scope)
    decreases |b|
  {
    if b == [] {
      assert a + b == a;
    } else {
      UsageConcat(a, b[..|b| - 1], scope);
      assert (a + b)[..|a + b| - 1] == a + b[..|b| - 1];
    }
  }

  function Weight(e: Entry, scope: Option<nat>): nat { if InScope(scope, e.slot) then e.size else 0 }

  function Without<T>(s: seq<T>, i: nat): seq<T>
    requires i < |s|
  {
    s[..i] + s[i + 1..]
  }

  lemma {:induction false} UsageWithout(entries: seq<Entry>, i: nat, scope: Option<nat>)
    requires i < |entries|
    ensures Usage(entries, scope) == Usage(Without(entries, i), scope) + Weight(entries[i], scope)
  {
    var front, back := entries[..i], entries[i + 1..];
    assert entries == front + [entries[i]] + back;
    UsageConcat(front + [entries[i]], back, scope);
    UsageConcat(front, [entries[i]], scope);
    UsageConcat(front, back, scope);
    assert [entries[i]][..0] == [];
  }

  lemma {:induction false} ReservedWithout(reservations: seq<Reservation>, i: nat, scope: Option<nat>)
    requires i < |reservations|
    ensures Reserved(reservations, scope)
         == Reserved(Without(reservations, i), scope) + if InScope(scope, reservations[i].slot)
             then reservations[i].bytes else 0
  {
    var front, back := reservations[..i], reservations[i + 1..];
    assert reservations == front + [reservations[i]] + back;
    ReservedConcat(front + [reservations[i]], back, scope);
    ReservedConcat(front, [reservations[i]], scope);
    ReservedConcat(front, back, scope);
    assert [reservations[i]][..0] == [];
  }

  lemma {:induction false} ReservedConcat(a: seq<Reservation>, b: seq<Reservation>, scope: Option<nat>)
    ensures Reserved(a + b, scope) == Reserved(a, scope) + Reserved(b, scope)
    decreases |b|
  {
    if b == [] {
      assert a + b == a;
    } else {
      ReservedConcat(a, b[..|b| - 1], scope);
      assert (a + b)[..|a + b| - 1] == a + b[..|b| - 1];
    }
  }

  lemma {:induction false} WithoutElements<T>(s: seq<T>, i: nat)
    requires i < |s|
    ensures multiset(Without(s, i)) == multiset(s) - multiset{s[i]}
  {
    assert s == s[..i] + [s[i]] + s[i + 1..];
    assert multiset(s) == multiset(Without(s, i)) + multiset{s[i]};
  }

  lemma {:induction false} UsagePermutes(a: seq<Entry>, b: seq<Entry>, scope: Option<nat>)
    requires multiset(a) == multiset(b)
    ensures Usage(a, scope) == Usage(b, scope)
    decreases |a|
  {
    if a == [] {
      assert |b| == |multiset(b)| == 0;
    } else {
      assert a[0] in multiset(b);
      var i :| 0 <= i < |b| && b[i] == a[0];
      WithoutElements(a, 0);
      WithoutElements(b, i);
      UsageWithout(a, 0, scope);
      UsageWithout(b, i, scope);
      UsagePermutes(Without(a, 0), Without(b, i), scope);
    }
  }

  // ---- Eviction order ----

  /** Least recently used first, ties by key. */
  predicate Precedes(a: Entry, b: Entry) {
    a.lastUsed < b.lastUsed || (a.lastUsed == b.lastUsed && Before(a.slot.key, b.slot.key))
  }

  /** Not later in the order; this is what a sort by Precedes leaves behind. */
  ghost predicate NotAfter(a: Entry, b: Entry) { !Precedes(b, a) }

  lemma {:induction false} NotAfterTransitive(a: Entry, b: Entry, c: Entry)
    requires NotAfter(a, b) && NotAfter(b, c)
    ensures NotAfter(a, c)
  {
    BeforeTotal(a.slot.key, b.slot.key);
    if Precedes(c, a) {
      if a.lastUsed == b.lastUsed == c.lastUsed {
        if a.slot.key != b.slot.key { BeforeTransitive(c.slot.key, a.slot.key, b.slot.key); }
      }
    }
  }

  ghost predicate Ordered(entries: seq<Entry>) {
    forall i, j :: 0 <= i < j < |entries| ==> NotAfter(entries[i], entries[j])
  }

  function InsertByUse(e: Entry, entries: seq<Entry>): seq<Entry> {
    if entries == [] then [e]
    else if Precedes(entries[0], e) then [entries[0]] + InsertByUse(e, entries[1..])
    else [e] + entries
  }

  lemma {:induction false} InsertKeeps(e: Entry, entries: seq<Entry>)
    requires Ordered(entries)
    ensures multiset(InsertByUse(e, entries)) == multiset(entries) + multiset{e} && Ordered(InsertByUse(e, entries))
  {
    if entries != [] {
      var first, rest := entries[0], entries[1..];
      assert entries == [first] + rest;
      if Precedes(first, e) {
        InsertKeeps(e, rest);
        var more := InsertByUse(e, rest);
        forall j | 0 <= j < |more| ensures NotAfter(first, more[j]) {
          assert more[j] in multiset(more);
          PrecedesNotAfter(first, e);
        }
      } else {
        forall j | 0 <= j < |entries| ensures NotAfter(e, entries[j]) {
          if j > 0 { NotAfterTransitive(e, first, entries[j]); }
        }
      }
    }
  }

  lemma {:induction false} PrecedesNotAfter(a: Entry, b: Entry)
    requires Precedes(a, b)
    ensures NotAfter(a, b)
  {
    if Precedes(b, a) {
      BeforeTransitive(a.slot.key, b.slot.key, a.slot.key);
      BeforeIrreflexive(a.slot.key);
    }
  }

  /** The candidates in eviction order. */
  method SortByUse(entries: seq<Entry>) returns (sorted: seq<Entry>)
    ensures multiset(sorted) == multiset(entries) && Ordered(sorted)
  {
    sorted := [];
    for i := 0 to |entries|
      invariant multiset(sorted) == multiset(entries[..i]) && Ordered(sorted)
    {
      InsertKeeps(entries[i], sorted);
      sorted := InsertByUse(entries[i], sorted);
      assert entries[..i + 1] == entries[..i] + [entries[i]];
    }
    assert entries[..|entries|] == entries;
  }

  // ---- One eviction ----

  predicate Evictable(e: Entry, scope: Option<nat>) { InScope(scope, e.slot) && e.pins == 0 }

  /**
   * The victim is unpinned and in scope, and every other unpinned entry in scope was used later, or at the same
   * time and its key does not come before.
   */
  ghost predicate LeastRecentlyUsed(entries: seq<Entry>, scope: Option<nat>, victim: Entry) {
    && victim in entries && Evictable(victim, scope)
    && forall e :: e in entries && Evictable(e, scope) ==>
         || victim.lastUsed < e.lastUsed
         || (victim.lastUsed == e.lastUsed && !Before(e.slot.key, victim.slot.key))
  }

  /** `after` is `before` without one least recently used unpinned entry in scope. */
  ghost predicate Evicted(before: seq<Entry>, scope: Option<nat>, after: seq<Entry>, victim: Entry) {
    LeastRecentlyUsed(before, scope, victim) && multiset(after) == multiset(before) - multiset{victim}
  }

  /** Evicts one entry; `failing` says that removing its directory fails. */
  method EvictOne(entries: seq<Entry>, scope: Option<nat>, reclaimed: U64, failing: bool)
    returns (ok: bool, rest: seq<Entry>, total: U64, ghost victim: Option<Entry>)
    ensures ok ==>
      victim.Some? && Evicted(entries, scope, rest, victim.value) && total == SaturatedAdd(reclaimed, victim.value.size)
    ensures !ok ==> multiset(rest) == multiset(entries) && total == reclaimed
    ensures !ok && !failing ==> forall e :: e in entries ==> !Evictable(e, scope)
  {
    victim, total := None, reclaimed;
    rest := SortByUse(entries);
    var i := 0;
    while i < |rest|
      invariant i <= |rest| && forall j :: 0 <= j < i ==> !Evictable(rest[j], scope)
    {
      if Evictable(rest[i], scope) {
        if failing { return false, rest, total, None; }
        victim := Some(rest[i]);
        total := SaturatedAdd(reclaimed, rest[i].size);
        EvictedFirst(entries, scope, rest, i);
        return true, Without(rest, i), total, victim;
      }
      i := i + 1;
    }
    forall e | e in entries ensures !Evictable(e, scope) {
      assert e in multiset(rest);
    }
    ok := false;
  }

  lemma {:induction false} EvictedFirst(entries: seq<Entry>, scope: Option<nat>, sorted: seq<Entry>, i: nat)
    requires multiset(sorted) == multiset(entries) && Ordered(sorted) && i < |sorted| && Evictable(sorted[i], scope)
    requires forall j :: 0 <= j < i ==> !Evictable(sorted[j], scope)
    ensures Evicted(entries, scope, Without(sorted, i), sorted[i])
  {
    WithoutElements(sorted, i);
    assert sorted[i] in multiset(entries);
    forall e | e in entries && Evictable(e, scope)
      ensures sorted[i].lastUsed < e.lastUsed
          || (sorted[i].lastUsed == e.lastUsed && !Before(e.slot.key, sorted[i].slot.key))
    {
      assert e in multiset(sorted);
      var j :| 0 <= j < |sorted| && sorted[j] == e;
      if j == i { BeforeIrreflexive(e.slot.key); }
    }
  }
}
