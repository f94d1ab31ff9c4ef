// Printing and parsing of artifact metadata (compiler/core/src/artifact_cache.cpp).
module ArtifactMetadata {
  import opened TextEncoding
  import opened ArtifactStore

  const U32_MAX := 0xffff_ffff
  const MAX_METADATA_BYTES := 16 * 1024
  const MAX_PAYLOAD := 4096

  type U32 = x: nat | x <= U32_MAX

  datatype Metadata = Metadata(format: U32, compilerEpoch: U32, kernelIrSchema: U32, helperAbi: U32, artifactSize: U64,
                               lastUsed: U64, cacheKey: string, artifactSha256: string, payload: string)

  predicate ValidPayload(payload: string) {
    |payload| <= MAX_PAYLOAD && forall i :: 0 <= i < |payload| ==>
        payload[i] != '\n' && payload[i] != '\r' && payload[i] != '\0'
  }

  predicate OneLine(s: string) { forall i :: 0 <= i < |s| ==> s[i] != '\n' }

  /** What the writer produces: a cache key, a digest of 64 characters on one line, and a payload. */
  predicate ValidMetadata(m: Metadata) {
    ValidKey(m.cacheKey) && |m.artifactSha256| == 64 && OneLine(m.artifactSha256) && ValidPayload(m.payload)
  }

  // ---- Lines of the form name=value ----

  datatype Pair = Pair(name: string, value: string)

  function PairLine(p: Pair): string { p.name + "=" + p.value + "\n" }

  function PairLines(ps: seq<Pair>): string {
    if ps == [] then "" else PairLine(ps[0]) + PairLines(ps[1..])
  }

  /** Index of the first c at or after i, or the length of the string. */
  function Find(s: string, c: char, i: nat): (k: nat)
    requires i <= |s|
    ensures i <= k <= |s| && (k < |s| ==> s[k] == c) && forall j :: i <= j < k ==> s[j] != c
    decreases |s| - i
  {
    if i == |s| || s[i] == c then i else Find(s, c, i + 1)
  }

  /** All lines parsed into a table, or nothing if a line is malformed or a name repeats. */
  function Fields(text: string, table: map<string, string>): Option<map<string, string>>
    decreases |text|
  {
    if text == "" then Some(table)
    else
      var newline := Find(text, '\n', 0);
      if newline == |text| || newline == 0 then None
      else
        var line := text[..newline];
        var equals := Find(line, '=', 0);
        if equals == |line| || equals == 0 || line[..equals] in table then None
        else Fields(text[newline + 1..], table[line[..equals] := line[equals + 1..]])
  }

  /** The parser's loop. */
  method ParseFields(text: string) returns (fields: Option<map<string, string>>)
    ensures fields == Fields(text, map[])
  {
    var table: map<string, string> := map[];
    var rest := text;
    while rest != ""
      invariant Fields(rest, table) == Fields(text, map[])
      decreases |rest|
    {
      var newline := Find(rest, '\n', 0);
      if newline == |rest| || newline == 0 { return None; }
      var line := rest[..newline];
      var equals := Find(line, '=', 0);
      if equals == |line| || equals == 0 { return None; }
      if line[..equals] in table { return None; }
      table := table[line[..equals] := line[equals + 1..]];
      rest := rest[newline + 1..];
    }
    fields := Some(table);
  }

  predicate GoodName(name: string) { name != "" && OneLine(name) && forall i :: 0 <= i < |name| ==> name[i] != '=' }

  predicate GoodPairs(ps: seq<Pair>) {
    && (forall i :: 0 <= i < |ps| ==> GoodName(ps[i].name) && OneLine(ps[i].value))
    && (forall i, j :: 0 <= i < j < |ps| ==> ps[i].name != ps[j].name)
  }

  function Table(ps: seq<Pair>, table: map<string, string>): map<string, string> {
    if ps == [] then table else Table(ps[1..], table[ps[0].name := ps[0].value])
  }

  lemma {:induction false} FindAt(s: string, c: char, k: nat)
    requires k < |s| && s[k] == c && forall j :: 0 <= j < k ==> s[j] != c
    ensures Find(s, c, 0) == k
  {
  }

  lemma {:induction false} LineIsFirst(p: Pair, rest: string)
    requires GoodName(p.name) && OneLine(p.value)
    ensures
      var text := PairLine(p) + rest;
      var newline := |p.name| + 1 + |p.value|;
      && Find(text, '\n', 0) == newline && text[newline + 1..] == rest
      && Find(text[..newline], '=', 0) == |p.name|
      && text[..newline][..|p.name|] == p.name && text[..newline][|p.name| + 1..] == p.value
  {
    var text := PairLine(p) + rest;
    var newline := |p.name| + 1 + |p.value|;
    FindAt(text, '\n', newline);
    FindAt(text[..newline], '=', |p.name|);
  }

  lemma {:induction false} FieldsStep(p: Pair, rest: string, table: map<string, string>)
    requires GoodName(p.name) && OneLine(p.value) && p.name !in table
    ensures Fields(PairLine(p) + rest, table) == Fields(rest, table[p.name := p.value])
  {
    LineIsFirst(p, rest);
    LineIsLong(p);
    hide PairLine, GoodName, OneLine;
  }

  lemma {:induction false} LineIsLong(p: Pair)
    ensures |PairLine(p)| == |p.name| + |p.value| + 2
  {
  }

  lemma {:induction false} FieldsOfLines(ps: seq<Pair>, table: map<string, string>)
    requires GoodPairs(ps) && forall i :: 0 <= i < |ps| ==> ps[i].name !in table
    ensures Fields(PairLines(ps), table) == Some(Table(ps, table))
    decreases |ps|
  {
    if ps != [] {
      hide PairLine, GoodName, OneLine, Fields;
      FieldsStep(ps[0], PairLines(ps[1..]), table);
      FieldsOfLines(ps[1..], table[ps[0].name := ps[0].value]);
    } else {
      assert PairLines(ps) == "";
    }
  }

  lemma {:induction false} TableHolds(ps: seq<Pair>, table: map<string, string>, i: nat)
    requires GoodPairs(ps) && i < |ps|
    ensures ps[i].name in Table(ps, table) && Table(ps, table)[ps[i].name] == ps[i].value
    decreases |ps|
  {
    if i == 0 {
      TableKeeps(ps[1..], table[ps[0].name := ps[0].value], ps[0].name);
    } else {
      TableHolds(ps[1..], table[ps[0].name := ps[0].value], i - 1);
    }
  }

  lemma {:induction false} TableKeeps(ps: seq<Pair>, table: map<string, string>, name: string)
    requires name in table && forall i :: 0 <= i < |ps| ==> ps[i].name != name
    ensures name in Table(ps, table) && Table(ps, table)[name] == table[name]
    decreases |ps|
  {
    if ps != [] { TableKeeps(ps[1..], table[ps[0].name := ps[0].value], name); }
  }

  lemma {:induction false} TableSize(ps: seq<Pair>, table: map<string, string>)
    requires GoodPairs(ps) && forall i :: 0 <= i < |ps| ==> ps[i].name !in table
    ensures |Table(ps, table)| == |table| + |ps|
    decreases |ps|
  {
    if ps != [] { TableSize(ps[1..], table[ps[0].name := ps[0].value]); }
  }

  // ---- Numbers ----

  /** Digits only, and no larger than the type allows. */
  function ParseInteger(text: string, max: nat): Option<nat> {
    if text == "" || (exists i :: 0 <= i < |text| && !('0' <= text[i] <= '9')) || Number(text) > max then None
    else Some(Number(text))
  }

  lemma {:induction false} ParseDecimal(n: nat, max: nat)
    requires n <= max
    ensures ParseInteger(Decimal(n), max) == Some(n)
  {
    NumberOfDecimal(n);
  }

  // ---- Records ----

  function Pairs(m: Metadata): seq<Pair> {
    [Pair("format", Decimal(m.format)), Pair("compiler_epoch", Decimal(m.compilerEpoch)),
     Pair("kernel_ir_schema", Decimal(m.kernelIrSchema)), Pair("helper_abi", Decimal(m.helperAbi)),
     Pair("artifact_size", Decimal(m.artifactSize)), Pair("last_used", Decimal(m.lastUsed)),
     Pair("cache_key", m.cacheKey), Pair("artifact_sha256", m.artifactSha256), Pair("payload", m.payload)]
  }

  function Serialize(m: Metadata): string { PairLines(Pairs(m)) }

  const REQUIRED := ["format", "compiler_epoch", "kernel_ir_schema", "helper_abi", "artifact_size", "last_used",
                     "cache_key",
                     "artifact_sha256", "payload"]

  predicate Complete(fields: map<string, string>) {
    |fields| == |REQUIRED| && forall i :: 0 <= i < |REQUIRED| ==> REQUIRED[i] in fields
  }

  function Decode(fields: map<string, string>): Option<Metadata> {
    if !Complete(fields) then None
    else
      assert REQUIRED[0] in fields && REQUIRED[1] in fields && REQUIRED[2] in fields && REQUIRED[3] in fields
          && REQUIRED[4] in fields;
      assert REQUIRED[5] in fields && REQUIRED[6] in fields && REQUIRED[7] in fields && REQUIRED[8] in fields;
      var format := ParseInteger(fields["format"], U32_MAX);
      var epoch := ParseInteger(fields["compiler_epoch"], U32_MAX);
      var schema := ParseInteger(fields["kernel_ir_schema"], U32_MAX);
      var helper := ParseInteger(fields["helper_abi"], U32_MAX);
      var size := ParseInteger(fields["artifact_size"], U64_MAX);
      var used := ParseInteger(fields["last_used"], U64_MAX);
      if format.None? || epoch.None? || schema.None? || helper.None? || size.None? || used.None?
         || !ValidKey(fields["cache_key"]) || |fields["artifact_sha256"]| != 64
             || !ValidPayload(fields["payload"]) then None
      else
        Some(Metadata(format.value, epoch.value, schema.value, helper.value, size.value, used.value,
                      fields["cache_key"],
                      fields["artifact_sha256"], fields["payload"]))
  }

  function Parse(text: string): Option<Metadata> {
    match Fields(text, map[])
    case None => None
    case Some(fields) => Decode(fields)
  }

  lemma {:induction false} DigitsAreOneLine(n: nat)
    ensures OneLine(Decimal(n))
  {
  }

  lemma {:induction false} NamesAreGood()
    ensures forall i :: 0 <= i < |REQUIRED| ==> GoodName(REQUIRED[i])
  {
  }

  lemma {:induction false} NamesDiffer()
    ensures forall i, j :: 0 <= i < j < |REQUIRED| ==> REQUIRED[i] != REQUIRED[j]
  {
    assert |"format"| == 6 && |"compiler_epoch"| == 14 && |"kernel_ir_schema"| == 16 && |"helper_abi"| == 10;
    assert |"artifact_size"| == 13 && |"last_used"| == 9 && |"cache_key"| == 9 && |"artifact_sha256"| == 15
        && |"payload"| == 7;
    assert "last_used"[0] == 'l' && "cache_key"[0] == 'c';
  }

  lemma {:induction false} KeyIsOneLine(key: string)
    requires ValidKey(key)
    ensures OneLine(key)
  {
    assert key == key[..|KEY_PREFIX|] + key[|KEY_PREFIX|..] && key[..|KEY_PREFIX|] == KEY_PREFIX;
    assert OneLine(KEY_PREFIX);
    forall i | 0 <= i < |key| ensures key[i] != '\n' {
      if i < |KEY_PREFIX| { assert key[i] == KEY_PREFIX[i]; } else { assert HexDigit(key[i]); }
    }
  }

  lemma {:induction false} PairsAreGood(m: Metadata)
    requires ValidMetadata(m)
    ensures GoodPairs(Pairs(m)) && |Pairs(m)| == 9
  {
    hide OneLine, GoodName, ValidKey, Decimal;
    NamesAreGood();
    NamesDiffer();
    DigitsAreOneLine(m.format);
    DigitsAreOneLine(m.compilerEpoch);
    DigitsAreOneLine(m.kernelIrSchema);
    DigitsAreOneLine(m.helperAbi);
    DigitsAreOneLine(m.artifactSize);
    DigitsAreOneLine(m.lastUsed);
    KeyIsOneLine(m.cacheKey);
    assert OneLine(m.payload) by { PayloadIsOneLine(m.payload); }
    assert forall i :: 0 <= i < 9 ==> Pairs(m)[i].name == REQUIRED[i];
  }

  lemma {:induction false} PayloadIsOneLine(payload: string)
    requires ValidPayload(payload)
    ensures OneLine(payload)
  {
  }

  lemma {:induction false} DecodeTable(m: Metadata, fields: map<string, string>)
    requires ValidMetadata(m) && |fields| == 9
    requires forall i :: 0 <= i < 9 ==> Pairs(m)[i].name in fields && fields[Pairs(m)[i].name] == Pairs(m)[i].value
    ensures Decode(fields) == Some(m)
  {
    hide ParseInteger, ValidKey, ValidPayload, Decimal;
    var ps := Pairs(m);
    assert forall i :: 0 <= i < 9 ==> REQUIRED[i] == ps[i].name;
    assert fields[ps[0].name] == ps[0].value && fields[ps[1].name] == ps[1].value && fields[ps[2].name] == ps[2].value;
    assert fields[ps[3].name] == ps[3].value && fields[ps[4].name] == ps[4].value && fields[ps[5].name] == ps[5].value;
    assert fields[ps[6].name] == ps[6].value && fields[ps[7].name] == ps[7].value && fields[ps[8].name] == ps[8].value;
    ParseDecimal(m.format, U32_MAX);
    ParseDecimal(m.compilerEpoch, U32_MAX);
    ParseDecimal(m.kernelIrSchema, U32_MAX);
    ParseDecimal(m.helperAbi, U32_MAX);
    ParseDecimal(m.artifactSize, U64_MAX);
    ParseDecimal(m.lastUsed, U64_MAX);
  }

  /** Every valid record is read back as it was written. */
  lemma {:induction false} RoundTrip(m: Metadata)
    requires ValidMetadata(m)
    ensures Parse(Serialize(m)) == Some(m)
  {
    hide Fields, Decode, Decimal, PairLines, GoodPairs, Table, ValidMetadata;
    PairsAreGood(m);
    var ps := Pairs(m);
    FieldsOfLines(ps, map[]);
    TableSize(ps, map[]);
    forall i | 0 <= i < 9 ensures ps[i].name in Table(ps, map[]) && Table(ps, map[])[ps[i].name] == ps[i].value {
      TableHolds(ps, map[], i);
    }
    DecodeTable(m, Table(ps, map[]));
  }

  ghost predicate AllOneLine(table: map<string, string>) { forall name :: name in table ==> OneLine(table[name]) }

  lemma {:induction false} FieldsAreLines(text: string, table: map<string, string>)
    requires AllOneLine(table)
    ensures Fields(text, table).Some? ==> AllOneLine(Fields(text, table).value)
    decreases |text|
  {
    if text != "" {
      var newline := Find(text, '\n', 0);
      if 0 < newline < |text| {
        var line := text[..newline];
        var equals := Find(line, '=', 0);
        if 0 < equals < |line| && line[..equals] !in table {
          assert OneLine(line);
          FieldsAreLines(text[newline + 1..], table[line[..equals] := line[equals + 1..]]);
        }
      }
    }
  }

  /** Whatever the parser accepts is a record that can be written and read back. */
  lemma {:induction false} ParsedIsValid(text: string)
    ensures Parse(text).Some? ==> ValidMetadata(Parse(text).value) && Parse(Serialize(Parse(text).value)) == Parse(text)
  {
    FieldsAreLines(text, map[]);
    hide Fields, ParseInteger, ValidKey, ValidPayload, OneLine, Serialize;
    if Parse(text).Some? {
      var fields := Fields(text, map[]).value;
      assert REQUIRED[7] == "artifact_sha256" && REQUIRED[7] in fields;
      RoundTrip(Parse(text).value);
    }
  }

  // ---- The text fits the read bound ----

  lemma {:induction false} DecimalLength(n: nat, digits: nat, bound: nat)
    requires 0 < digits && bound == Power(digits) && n < bound
    ensures |Decimal(n)| <= digits
    decreases digits
  {
    if n >= 10 { DecimalLength(n / 10, digits - 1, Power(digits - 1)); }
  }

  function Power(digits: nat): nat { if digits == 0 then 1 else 10 * Power(digits - 1) }

  lemma {:induction false} WordLengths(n: U32, m: U64)
    ensures |Decimal(n)| <= 10 && |Decimal(m)| <= 20
  {
    assert Power(10) == 10_000_000_000 && Power(20) == 100_000_000_000_000_000_000 by { Powers(); }
    DecimalLength(n, 10, Power(10));
    DecimalLength(m, 20, Power(20));
  }

  lemma {:induction false} Powers()
    ensures Power(10) == 10_000_000_000 && Power(20) == 100_000_000_000_000_000_000
  {
    assert Power(5) == 100_000;
    assert Power(10) == 10_000_000_000;
    assert Power(15) == 1_000_000_000_000_000;
  }

  lemma {:induction false} LinesLength(ps: seq<Pair>)
    requires ps != []
    ensures |PairLines(ps)| == |ps[0].name| + |ps[0].value| + 2 + |PairLines(ps[1..])|
  {
  }

  /** The text of a valid record is never longer than what the reader accepts. */
  lemma {:induction false} SerializedFits(m: Metadata)
    requires ValidMetadata(m)
    ensures |Serialize(m)| <= MAX_METADATA_BYTES
  {
    hide Decimal, PairLines, ValidKey;
    WordLengths(m.format, m.artifactSize);
    WordLengths(m.compilerEpoch, m.lastUsed);
    WordLengths(m.kernelIrSchema, 0);
    WordLengths(m.helperAbi, 0);
    assert |m.cacheKey| == 76 by { KeyLength(m.cacheKey); }
    var ps := Pairs(m);
    NamesAreShort();
    assert forall i :: 0 <= i < 9 ==> ps[i].name == REQUIRED[i];
    BoundedLines(ps[..8], 76);
    BoundedLines(ps[8..], MAX_PAYLOAD);
    LinesConcat(ps[..8], ps[8..]);
    assert ps == ps[..8] + ps[8..];
  }

  lemma {:induction false} LinesConcat(a: seq<Pair>, b: seq<Pair>)
    ensures PairLines(a + b) == PairLines(a) + PairLines(b)
  {
    hide PairLine;
    if a == [] {
      assert a + b == b;
    } else {
      LinesConcat(a[1..], b);
      assert (a + b)[1..] == a[1..] + b;
    }
  }

  lemma {:induction false} NamesAreShort()
    ensures forall i :: 0 <= i < |REQUIRED| ==> |REQUIRED[i]| <= 16
  {
  }

  lemma {:induction false} KeyLength(key: string)
    requires ValidKey(key)
    ensures |key| == 76
  {
  }

  /** Short names and values make short lines. */
  lemma {:induction false} BoundedLines(ps: seq<Pair>, longest: nat)
    requires forall i :: 0 <= i < |ps| ==> |ps[i].name| <= 16 && |ps[i].value| <= longest
    ensures |PairLines(ps)| <= |ps| * (longest + 18)
  {
    if ps != [] {
      BoundedLines(ps[1..], longest);
      LinesLength(ps);
    }
  }
}
