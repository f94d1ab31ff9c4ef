// Where the telemetry rows come from: a row read under an even latch is what one publish_telemetry call asked
// for, under the identity and sequence of that call or of an identity publication.
module RegistryRows {
  import opened RegistryProtocol
  import opened RegistryInvariants
  import opened RegistrySafety
  import opened RegistryTheorems
  import opened RegistryLatches
  import opened RegistryTelemetry

  // ---- Rows ----

  predicate Shaped(rows: Rows) {
    && |rows.banks| == 2 && rows.bank < 2
    && (forall b :: 0 <= b < 2 ==> PayloadOk(rows.banks[b], rows.count))
  }

  /** All words behind identity and sequence are those of one payload. */
  predicate SameTail(row: seq<nat>, asked: seq<nat>) {
    |row| == |asked| == ROW_WORDS && forall n :: 2 <= n < ROW_WORDS ==> row[n] == asked[n]
  }

  /** Identity and sequence are those of the payload, or were put there by one identity publication. */
  predicate SameLabel(row: seq<nat>, asked: seq<nat>, d: nat, names: seq<Name>)
    requires |row| == |asked| == ROW_WORDS
  {
    (row[0] == asked[0] && row[1] == asked[1]) || Name(d, row[0], row[1]) in names
  }

  ghost predicate TailFrom(row: seq<nat>, d: nat, payloads: seq<seq<seq<nat>>>) {
    exists j :: 0 <= j < |payloads| && d < |payloads[j]| && SameTail(row, payloads[j][d])
  }

  /** The row is one whole published row. */
  ghost predicate WholeRow(row: seq<nat>, d: nat, payloads: seq<seq<seq<nat>>>, names: seq<Name>) {
    exists j :: 0 <= j < |payloads| && d < |payloads[j]| && SameTail(row, payloads[j][d])
        && SameLabel(row, payloads[j][d], d, names)
  }

  /** An identity publisher has stored the identity of the active row and not yet its sequence. */
  predicate BeingNamed(f: Full, a: nat, d: nat)
    requires ValidFull(f) && a < |f.scribes|
  {
    Names(f.s.actors[a]) && f.s.actors[a].x.d == d && f.scribes[a] == Naming(2 * f.rows.bank + 1)
  }

  ghost predicate RowInv(f: Full, d: nat)
    requires ValidFull(f) && Shaped(f.rows) && d < f.rows.count
  {
    var row := f.rows.banks[f.rows.bank][d];
    && TailFrom(row, d, f.payloads)
    && (WholeRow(row, d, f.payloads, f.names) || exists a :: 0 <= a < |f.scribes| && BeingNamed(f, a, d))
  }

  // ---- Scribes ----

  /** The payload has been stored up to word n of row d. */
  predicate FilledTo(bank: seq<seq<nat>>, payload: seq<seq<nat>>, d: nat, n: nat)
    requires |bank| == |payload| && d < |payload| && |bank[d]| == |payload[d]| && n <= |payload[d]|
  {
    bank[..d] == payload[..d] && bank[d][..n] == payload[d][..n]
  }

  ghost predicate ScribeInv(rows: Rows, payloads: seq<seq<seq<nat>>>, pc: Pc, scribe: Scribe)
    requires Shaped(rows)
  {
    match scribe
    case Resting => true
    case Filling(p, b, d, n) =>
      && Publishes(pc) && b < 2 && b != rows.bank && PayloadOk(p, rows.count) && p in payloads && d < rows.count
          && n < ROW_WORDS
      && FilledTo(rows.banks[b], p, d, n)
    case Filled(p, b) => Publishes(pc) && b < 2 && b != rows.bank && PayloadOk(p, rows.count) && p in payloads
        && rows.banks[b] == p
    case Counted(p, b) => Publishes(pc) && b < 2 && b != rows.bank && PayloadOk(p, rows.count) && p in payloads
        && rows.banks[b] == p
    case Naming(k) =>
      && Names(pc) && 1 <= k <= 3
      && (k % 2 == 1 && pc.x.d < rows.count ==> rows.banks[k / 2][pc.x.d][0] == pc.x.nextId)
    case Finished => Publishes(pc) || Names(pc)
  }

  ghost predicate BankInv(f: Full) {
    && ValidFull(f) && Shaped(f.rows)
    && (forall a :: 0 <= a < |f.scribes| ==> ScribeInv(f.rows, f.payloads, f.s.actors[a], f.scribes[a]))
    && (forall d :: 0 <= d < f.rows.count ==> RowInv(f, d))
  }

  /** Nobody but the holder of the telemetry latch has anything to store. */
  lemma {:induction false} OneScribe(f: Full, a: nat, b: nat)
    requires FullInv(f) && BankInv(f) && a < |f.scribes| && b < |f.scribes| && a != b && HoldsTelemetry(f.s.actors[a])
    ensures f.scribes[b].Resting?
  {
    hide SystemInv, LatchesHeld, SamplerInv, RowInv, Shaped;
    assert ScribeInv(f.rows, f.payloads, f.s.actors[b], f.scribes[b]);
  }

  // ---- Publication ----

  lemma {:induction false} MorePayloads(row: seq<nat>, d: nat, payloads: seq<seq<seq<nat>>>, names: seq<Name>,
                                        payloads2: seq<seq<seq<nat>>>, names2: seq<Name>)
    requires payloads <= payloads2 && forall name :: name in names ==> name in names2
    ensures TailFrom(row, d, payloads) ==> TailFrom(row, d, payloads2)
    ensures WholeRow(row, d, payloads, names) ==> WholeRow(row, d, payloads2, names2)
  {
    if TailFrom(row, d, payloads) {
      var j :| 0 <= j < |payloads| && d < |payloads[j]| && SameTail(row, payloads[j][d]);
      assert payloads2[j] == payloads[j];
    }
    if WholeRow(row, d, payloads, names) {
      var j :| 0 <= j < |payloads| && d < |payloads[j]| && SameTail(row, payloads[j][d])
          && SameLabel(row, payloads[j][d], d, names);
      assert payloads2[j] == payloads[j];
    }
  }

  lemma {:induction false} StoreShape(rows: Rows, b: nat, d: nat, n: nat, v: nat)
    requires Shaped(rows) && b < 2
    ensures
      var r := StoreWord(rows, b, d, n, v);
      && Shaped(r) && r.bank == rows.bank && r.count == rows.count && r.banks[1 - b] == rows.banks[1 - b]
      && (forall e :: 0 <= e < rows.count && e != d ==> r.banks[b][e] == rows.banks[b][e])
      && (d < rows.count && n < ROW_WORDS ==> r.banks[b][d] == rows.banks[b][d][n := v])
  {
  }

  /** Filling goes on word by word and row by row. */
  lemma {:induction false} FillStep(rows: Rows, payloads: seq<seq<seq<nat>>>, pc: Pc, scribe: Scribe)
    requires Shaped(rows) && scribe.Filling? && ScribeInv(rows, payloads, pc, scribe)
    ensures
      var (r, next) := PublishStore(rows, scribe, []);
      && Shaped(r) && r.bank == rows.bank && r.count == rows.count && r.banks[rows.bank] == rows.banks[rows.bank]
      && ScribeInv(r, payloads, pc, next)
  {
    var p, b, d, n := scribe.payload, scribe.bank, scribe.d, scribe.n;
    StoreShape(rows, b, d, n, p[d][n]);
    var r := StoreWord(rows, b, d, n, p[d][n]);
    assert r.banks[b][..d] == rows.banks[b][..d];
    assert r.banks[b][d][..n + 1] == rows.banks[b][d][..n] + [p[d][n]] == p[d][..n] + [p[d][n]] == p[d][..n + 1];
    if n + 1 == ROW_WORDS {
      assert r.banks[b][d] == r.banks[b][d][..n + 1] == p[d][..n + 1] == p[d];
      assert r.banks[b][..d + 1] == r.banks[b][..d] + [r.banks[b][d]] == p[..d] + [p[d]] == p[..d + 1];
      if d + 1 == |p| { assert r.banks[b] == r.banks[b][..d + 1] == p[..d + 1] == p; }
    }
  }

  /** While a publisher stores, every active row is whole. */
  lemma {:induction false} PublisherSeesWhole(f: Full, a: nat, d: nat)
    requires FullInv(f) && BankInv(f) && a < |f.scribes| && Publishes(f.s.actors[a]) && d < f.rows.count
    ensures WholeRow(f.rows.banks[f.rows.bank][d], d, f.payloads, f.names)
  {
    hide FullInv, ScribeInv, WholeRow, TailFrom, Shaped;
    assert RowInv(f, d);
    if b :| 0 <= b < |f.scribes| && BeingNamed(f, b, d) { OneScribe(f, a, b); }
  }

  lemma {:induction false} WholeHasTail(row: seq<nat>, d: nat, payloads: seq<seq<seq<nat>>>, names: seq<Name>)
    requires WholeRow(row, d, payloads, names)
    ensures TailFrom(row, d, payloads)
  {
  }

  /** A payload's own row is whole. */
  lemma {:induction false} PayloadIsWhole(p: seq<seq<nat>>, d: nat, payloads: seq<seq<seq<nat>>>, names: seq<Name>)
    requires p in payloads && d < |p| && |p[d]| == ROW_WORDS
    ensures WholeRow(p[d], d, payloads, names)
  {
    var j :| 0 <= j < |payloads| && payloads[j] == p;
    assert SameTail(p[d], payloads[j][d]);
  }

  /** What a store of a publisher leaves to itself and of the rows. */
  lemma {:induction false} PublishStoreKeeps(rows: Rows, payloads: seq<seq<seq<nat>>>, pc: Pc, scribe: Scribe,
                                             payload: seq<seq<nat>>)
    requires Shaped(rows) && Publishes(pc) && ScribeInv(rows, payloads, pc, scribe)
    ensures
      var (r, next) := PublishStore(rows, scribe, payload);
      var payloads2 := if scribe.Resting? && !next.Finished? then payloads + [payload] else payloads;
      && Shaped(r) && r.count == rows.count && ScribeInv(r, payloads2, pc, next)
      && (r.banks[r.bank] == rows.banks[rows.bank]
            || (r.banks[r.bank] in payloads && PayloadOk(r.banks[r.bank], rows.count)))
  {
    if scribe.Filling? {
      FillStep(rows, payloads, pc, scribe);
      assert PublishStore(rows, scribe, payload) == PublishStore(rows, scribe, []);
    }
    hide FilledTo, StoreWord;
    if scribe.Resting? && PayloadOk(payload, rows.count) && payload != [] { StartsFilled(rows, payload); }
  }

  lemma {:induction false} StartsFilled(rows: Rows, payload: seq<seq<nat>>)
    requires Shaped(rows) && PayloadOk(payload, rows.count) && payload != []
    ensures
      var b := if rows.bank == 0 then 1 else 0;
      FilledTo(rows.banks[b], payload, 0, 0)
  {
  }

  lemma {:induction false} PublishKeeps(f: Full, m: FullMove)
    requires FullInv(f) && BankInv(f) && m.actor < |f.samplers| && Stores(f, m) && Publishes(f.s.actors[m.actor])
    ensures BankInv(AfterStore(f, m))
  {
    hide FullInv, ScribeInv, WholeRow, TailFrom, Shaped, PublishStore;
    var a, f2 := m.actor, AfterStore(f, m);
    assert ScribeInv(f.rows, f.payloads, f.s.actors[a], f.scribes[a]);
    PublishStoreKeeps(f.rows, f.payloads, f.s.actors[a], f.scribes[a], m.store.value);
    forall b | 0 <= b < |f2.scribes| ensures ScribeInv(f2.rows, f2.payloads, f2.s.actors[b], f2.scribes[b]) {
      if b != a {
        OneScribe(f, a, b);
        RestingIsFine(f2.rows, f2.payloads, f2.s.actors[b]);
      }
    }
    forall d | 0 <= d < f2.rows.count ensures RowInv(f2, d) {
      ActiveRowKept(f, f2, a, d);
    }
  }

  lemma {:induction false} RestingIsFine(rows: Rows, payloads: seq<seq<seq<nat>>>, pc: Pc)
    requires Shaped(rows)
    ensures ScribeInv(rows, payloads, pc, Resting)
  {
  }

  lemma {:induction false} ActiveRowKept(f: Full, f2: Full, a: nat, d: nat)
    requires FullInv(f) && BankInv(f) && a < |f.scribes| && Publishes(f.s.actors[a])
    requires ValidFull(f2) && Shaped(f2.rows) && d < f2.rows.count == f.rows.count && f.payloads <= f2.payloads
        && f2.names == f.names
    requires f2.rows.banks[f2.rows.bank] == f.rows.banks[f.rows.bank] || f2.rows.banks[f2.rows.bank] in f.payloads
    ensures RowInv(f2, d)
  {
    hide FullInv, ScribeInv, WholeRow, TailFrom;
    var row := f2.rows.banks[f2.rows.bank][d];
    if f2.rows.banks[f2.rows.bank] == f.rows.banks[f.rows.bank] {
      PublisherSeesWhole(f, a, d);
    } else {
      PayloadIsWhole(f2.rows.banks[f2.rows.bank], d, f.payloads, f.names);
    }
    MorePayloads(row, d, f.payloads, f.names, f2.payloads, f2.names);
    WholeHasTail(row, d, f2.payloads, f2.names);
  }

  // ---- Renaming ----

  /** Storing identity or sequence keeps the tail of a row; storing the sequence behind the identity makes it whole. */
  lemma {:induction false} NameStoreRow(row: seq<nat>, n: nat, v: nat, d: nat, payloads: seq<seq<seq<nat>>>,
                                        names: seq<Name>)
    requires |row| == ROW_WORDS && n < 2 && TailFrom(row, d, payloads)
    ensures TailFrom(row[n := v], d, payloads)
    ensures n == 1 && Name(d, row[0], v) in names ==> WholeRow(row[n := v], d, payloads, names)
  {
    var j :| 0 <= j < |payloads| && d < |payloads[j]| && SameTail(row, payloads[j][d]);
    assert SameTail(row[n := v], payloads[j][d]);
  }

  lemma {:induction false} NameScribeKeeps(rows: Rows, payloads: seq<seq<seq<nat>>>, pc: Pc, scribe: Scribe)
    requires Shaped(rows) && Names(pc) && !scribe.Finished? && ScribeInv(rows, payloads, pc, scribe)
    ensures
      var (r, next) := NameStore(rows, scribe, pc.x);
      Shaped(r) && r.count == rows.count && r.bank == rows.bank && ScribeInv(r, payloads, pc, next)
  {
    var k := if scribe.Naming? then scribe.k else 0;
    var value := if k % 2 == 0 then NameOf(pc.x).identity else NameOf(pc.x).sequence;
    StoreShape(rows, k / 2, pc.x.d, k % 2, value);
    hide StoreWord;
  }

  /** The active row of the renamed device, and all others. */
  lemma {:induction false} NamedRowKept(f: Full, m: FullMove, d: nat)
    requires FullInv(f) && BankInv(f) && m.actor < |f.samplers| && Stores(f, m) && Names(f.s.actors[m.actor])
    requires Shaped(AfterStore(f, m).rows) && d < AfterStore(f, m).rows.count == f.rows.count
    requires AfterStore(f, m).rows.bank == f.rows.bank
    ensures RowInv(AfterStore(f, m), d)
  {
    hide FullInv, WholeRow, TailFrom, StoreWord;
    var a, f2 := m.actor, AfterStore(f, m);
    var x, bank := f.s.actors[a].x, f.rows.bank;
    var k := if f.scribes[a].Naming? then f.scribes[a].k else 0;
    var value := if k % 2 == 0 then NameOf(x).identity else NameOf(x).sequence;
    assert ScribeInv(f.rows, f.payloads, f.s.actors[a], f.scribes[a]);
    StoreShape(f.rows, k / 2, x.d, k % 2, value);
    var row := f.rows.banks[bank][d];
    assert RowInv(f, d);
    MorePayloads(row, d, f.payloads, f.names, f2.payloads, f2.names);
    if k / 2 == bank && x.d == d {
      NameStoreRow(row, k % 2, value, d, f2.payloads, f2.names);
      if k % 2 == 0 { assert BeingNamed(f2, a, d); }
    } else {
      assert f2.rows.banks[bank][d] == row;
      if b :| 0 <= b < |f.scribes| && BeingNamed(f, b, d) {
        if b != a { OneScribe(f, a, b); }
      }
    }
  }

  lemma {:induction false} NamingKeeps(f: Full, m: FullMove)
    requires FullInv(f) && BankInv(f) && m.actor < |f.samplers| && Stores(f, m) && Names(f.s.actors[m.actor])
    ensures BankInv(AfterStore(f, m))
  {
    hide FullInv, ScribeInv, RowInv, Shaped, NameStore;
    var a, f2 := m.actor, AfterStore(f, m);
    assert ScribeInv(f.rows, f.payloads, f.s.actors[a], f.scribes[a]);
    NameScribeKeeps(f.rows, f.payloads, f.s.actors[a], f.scribes[a]);
    forall b | 0 <= b < |f2.scribes| ensures ScribeInv(f2.rows, f2.payloads, f2.s.actors[b], f2.scribes[b]) {
      if b != a {
        OneScribe(f, a, b);
        RestingIsFine(f2.rows, f2.payloads, f2.s.actors[b]);
      }
    }
    forall d | 0 <= d < f2.rows.count ensures RowInv(f2, d) { NamedRowKept(f, m, d); }
  }

  // ---- Every step of every interleaving ----

  lemma {:induction false} UntouchedRow(f: Full, f2: Full, m: FullMove, d: nat)
    requires BankInv(f) && m.actor < |f.samplers| && RegistryMove(f, m).Some? && f2 == FullStep(f, m)
        && d < f.rows.count
    ensures RowInv(f2, d)
  {
    hide SystemStep, AfterValidation, WholeRow, TailFrom, ScribeInv;
    assert RowInv(f, d);
    if b :| 0 <= b < |f.scribes| && BeingNamed(f, b, d) {
      assert b != m.actor;
      assert f2.s.actors[b] == f.s.actors[b] by { OthersStay(f.s, m.actor, RegistryMove(f, m).value.call, b); }
      assert BeingNamed(f2, b, d);
    }
  }

  lemma {:induction false} OthersStay(s: System, a: nat, call: Call, b: nat)
    requires a < |s.actors| && b < |s.actors| && a != b
    ensures SystemStep(s, a, call).actors[b] == s.actors[b]
  {
    hide ActorStep;
  }

  lemma {:induction false} RegistryKeepsBanks(f: Full, m: FullMove)
    requires FullInv(f) && BankInv(f) && m.actor < |f.samplers| && RegistryMove(f, m).Some?
    ensures BankInv(FullStep(f, m))
  {
    hide FullInv, RowInv, SystemStep, AfterValidation, Shaped, FilledTo;
    var a, f2 := m.actor, FullStep(f, m);
    assert ScribeInv(f.rows, f.payloads, f.s.actors[a], f.scribes[a]);
    forall b | 0 <= b < |f2.scribes| ensures ScribeInv(f2.rows, f2.payloads, f2.s.actors[b], f2.scribes[b]) {
      if b != a {
        OthersStay(f.s, a, RegistryMove(f, m).value.call, b);
        assert ScribeInv(f.rows, f.payloads, f.s.actors[b], f.scribes[b]);
      }
    }
    forall d | 0 <= d < f2.rows.count ensures RowInv(f2, d) { UntouchedRow(f, f2, m, d); }
  }

  lemma {:induction false} SamplersAside(f: Full, f2: Full)
    requires BankInv(f) && f2 == f.(samplers := f2.samplers) && |f2.samplers| == |f.samplers|
    ensures BankInv(f2)
  {
    hide WholeRow, TailFrom, ScribeInv;
    forall d | 0 <= d < f2.rows.count ensures RowInv(f2, d) {
      assert RowInv(f, d);
      if b :| 0 <= b < |f.scribes| && BeingNamed(f, b, d) { assert BeingNamed(f2, b, d); }
    }
  }

  lemma {:induction false} StepKeepsBanks(f: Full, m: FullMove)
    requires FullInv(f) && BankInv(f) && m.actor < |f.samplers|
    ensures BankInv(FullStep(f, m))
  {
    hide FullInv, BankInv, SystemStep, AfterValidation, SampleStep, AfterStore;
    BankShape(f);
    if RegistryMove(f, m).Some? {
      RegistryKeepsBanks(f, m);
    } else if Stores(f, m) {
      if Publishes(f.s.actors[m.actor]) { PublishKeeps(f, m); } else { NamingKeeps(f, m); }
    } else {
      SamplersAside(f, FullStep(f, m));
    }
  }

  lemma {:induction false} BankShape(f: Full)
    requires BankInv(f)
    ensures ValidFull(f)
  {
  }

  /** Before anybody has moved: well-shaped banks, nothing to store, and the active bank as the first payload. */
  predicate InitialRows(f: Full) {
    && InitialFull(f) && Shaped(f.rows) && (forall a :: 0 <= a < |f.scribes| ==> f.scribes[a].Resting?)
    && f.payloads == [f.rows.banks[f.rows.bank]] && f.names == []
  }

  lemma {:induction false} InitialBanks(f: Full)
    requires InitialRows(f)
    ensures BankInv(f)
  {
    hide InitialSystem, WholeRow, TailFrom;
    var p := f.rows.banks[f.rows.bank];
    forall d | 0 <= d < f.rows.count ensures RowInv(f, d) {
      PayloadIsWhole(p, d, f.payloads, f.names);
      WholeHasTail(p[d], d, f.payloads, f.names);
    }
  }

  lemma {:induction false} RunKeepsBanks(f: Full, moves: seq<FullMove>)
    requires InitialRows(f) && FullSchedulable(f, moves)
    ensures BankInv(FullAfter(f, moves))
    decreases |moves|
  {
    hide BankInv, FullStep, FullInv;
    if moves == [] {
      InitialBanks(f);
    } else {
      var before := moves[..|moves| - 1];
      RunKeepsBanks(f, before);
      RunKeepsFull(f, before);
      StepKeepsBanks(FullAfter(f, before), moves[|moves| - 1]);
    }
  }

  // ---- Where it comes from ----

  /** The payload was in the active bank at the start, or a publication of the run started with it. */
  ghost predicate Asked(f: Full, moves: seq<FullMove>, p: seq<seq<nat>>) {
    p in f.payloads || exists i :: 0 <= i < |moves| && moves[i].store == Some(p)
  }

  /** An identity publication of the run stored this name. */
  ghost predicate Named(f: Full, moves: seq<FullMove>, name: Name)
    requires FullSchedulable(f, moves)
  {
    exists i :: 0 <= i < |moves| && NamesAt(FullAfter(f, moves[..i]), moves[i].actor, name)
  }

  predicate NamesAt(f: Full, a: nat, name: Name) {
    a < |f.s.actors| && Names(f.s.actors[a]) && NameOf(f.s.actors[a].x) == name
  }

  lemma {:induction false} StepRecords(f: Full, m: FullMove, p: seq<seq<nat>>, name: Name)
    requires ValidFull(f) && m.actor < |f.samplers|
    ensures p in FullStep(f, m).payloads ==> p in f.payloads || m.store == Some(p)
    ensures name in FullStep(f, m).names ==> name in f.names || NamesAt(f, m.actor, name)
  {
    hide SystemStep, AfterValidation, SampleStep, PublishStore, NameStore;
  }

  lemma {:induction false} RecordsComeFromCalls(f: Full, moves: seq<FullMove>, p: seq<seq<nat>>, name: Name)
    requires InitialRows(f) && FullSchedulable(f, moves)
    ensures p in FullAfter(f, moves).payloads ==> Asked(f, moves, p)
    ensures name in FullAfter(f, moves).names ==> Named(f, moves, name)
    decreases |moves|
  {
    hide FullStep, InitialFull, Shaped, NamesAt;
    if moves != [] {
      var n := |moves| - 1;
      var before := moves[..n];
      RecordsComeFromCalls(f, before, p, name);
      StepRecords(FullAfter(f, before), moves[n], p, name);
      if Asked(f, before, p) && p !in f.payloads {
        var i :| 0 <= i < n && before[i].store == Some(p);
        assert moves[i].store == Some(p);
      }
      if Named(f, before, name) {
        var i :| 0 <= i < n && NamesAt(FullAfter(f, before[..i]), before[i].actor, name);
        assert before[..i] == moves[..i];
      }
    }
  }

  /** Nobody has anything to store when nobody holds the latch. */
  lemma {:induction false} QuietIsWhole(f: Full, d: nat)
    requires BankInv(f) && d < f.rows.count && forall a :: 0 <= a < |f.s.actors| ==> !HoldsTelemetry(f.s.actors[a])
    ensures WholeRow(f.rows.banks[f.rows.bank][d], d, f.payloads, f.names)
  {
    hide WholeRow, TailFrom, ScribeInv, Shaped;
    assert RowInv(f, d);
  }

  /**
   * The row a successful telemetry read returns is a whole published row at the instant of its copy: its
   * counters are those one publish_telemetry call of the run started with, or of the initial row, and
   * its identity and sequence are of the same row or of one identity publication of the device.
   */
  lemma {:induction false} ReturnedRowIsPublished(f: Full, moves: seq<FullMove>, a: nat, k: Sample)
    returns (j: nat, p: seq<seq<nat>>)
    requires InitialRows(f) && FullSchedulable(f, moves) && a < |f.samplers|
        && FullAfter(f, moves).samplers[a] == Sampled(k)
    ensures j <= |moves| && FullAfter(f, moves[..j]).s.now == k.atTime && Asked(f, moves[..j], p)
    ensures k.d < |p| && SameTail(k.row, p[k.d])
    ensures (k.row[0] == p[k.d][0] && k.row[1] == p[k.d][1]) || Named(f, moves[..j], Name(k.d, k.row[0], k.row[1]))
  {
    hide FullStep, InitialSystem, HoldsTelemetry, BankInv, Asked, Named;
    j := CopyInstant(f, moves, a, k);
    var g := FullAfter(f, moves[..j]);
    RunKeepsBanks(f, moves[..j]);
    RunKeepsFull(f, moves);
    SampledKnows(FullAfter(f, moves), a, k);
    CopiedRow(g, k);
    QuietIsWhole(g, k.d);
    var i :| 0 <= i < |g.payloads| && k.d < |g.payloads[i]| && SameTail(k.row, g.payloads[i][k.d])
              && SameLabel(k.row, g.payloads[i][k.d], k.d, g.names);
    p := g.payloads[i];
    RecordsComeFromCalls(f, moves[..j], p, Name(k.d, k.row[0], k.row[1]));
  }

  /** The words copied one by one are the row. */
  lemma {:induction false} CopiedRow(g: Full, k: Sample)
    requires BankInv(g) && g.rows == k.at && Copied(k)
    ensures k.d < g.rows.count && g.rows.banks[g.rows.bank][k.d] == k.row && |k.row| == ROW_WORDS
  {
    hide RowInv, ScribeInv;
    assert PayloadOk(g.rows.banks[g.rows.bank], g.rows.count);
    var row := g.rows.banks[g.rows.bank][k.d];
    forall n | 0 <= n < ROW_WORDS ensures row[n] == k.row[n] { assert k.row[n] == RowWord(k.at, k.at.bank, k.d, n); }
  }
}
