// The cache key's pre-image (compiler/core/src/cache.cpp).  SHA-256 is an arbitrary function here.
module CacheKey {
  import opened TextEncoding

  type Word = x: nat | x < 0x1_0000_0000

  datatype Identity = Identity(toolchain: string, compilerEpoch: Word, kernelIrSchema: Word, pipeline: string,
                               triple: string,
                               cpu: string, features: seq<string>, optimization: string, fpSemantics: string,
                               backendAbi: Word, helperAbi: Word, pgo: string)

  // ---- Sorted features without repetition ----

  ghost predicate Ascending(fs: seq<string>) {
    forall i, j :: 0 <= i < j < |fs| ==> Before(fs[i], fs[j])
  }

  /** Insert a feature into an ascending list unless it is there. */
  function Insert(f: string, fs: seq<string>): seq<string> {
    if fs == [] then [f]
    else if f == fs[0] then fs
    else if Before(f, fs[0]) then [f] + fs
    else [fs[0]] + Insert(f, fs[1..])
  }

  /** The features sorted, each once. */
  function Canonical(features: seq<string>): seq<string> {
    if features == [] then [] else Insert(features[|features| - 1], Canonical(features[..|features| - 1]))
  }

  lemma {:induction false} InsertElements(f: string, fs: seq<string>)
    ensures forall x :: x in Insert(f, fs) <==> x == f || x in fs
  {
    if fs != [] {
      InsertElements(f, fs[1..]);
      assert fs == [fs[0]] + fs[1..];
    }
  }

  lemma {:induction false} InsertAscending(f: string, fs: seq<string>)
    requires Ascending(fs)
    ensures Ascending(Insert(f, fs))
  {
    if fs != [] && f != fs[0] {
      var tail := fs[1..];
      if Before(f, fs[0]) {
        forall j | 0 <= j < |fs| ensures Before(f, fs[j]) {
          if j > 0 { BeforeTransitive(f, fs[0], fs[j]); }
        }
      } else {
        BeforeTotal(f, fs[0]);
        InsertAscending(f, tail);
        InsertElements(f, tail);
        var rest := Insert(f, tail);
        forall j | 0 <= j < |rest| ensures Before(fs[0], rest[j]) {
          assert rest[j] in rest;
          if rest[j] != f {
            var k :| 0 <= k < |tail| && tail[k] == rest[j];
            assert fs[k + 1] == rest[j];
          }
        }
      }
    }
  }

  lemma {:induction false} CanonicalFeatures(features: seq<string>)
    ensures Ascending(Canonical(features)) && forall x :: x in Canonical(features) <==> x in features
  {
    if features != [] {
      var front, last := features[..|features| - 1], features[|features| - 1];
      CanonicalFeatures(front);
      InsertElements(last, Canonical(front));
      InsertAscending(last, Canonical(front));
      assert features == front + [last];
    }
  }

  /** An ascending list is determined by its elements. */
  lemma {:induction false} AscendingUnique(a: seq<string>, b: seq<string>)
    requires Ascending(a) && Ascending(b) && forall x :: x in a <==> x in b
    ensures a == b
    decreases |a|
  {
    assert |b| > 0 ==> b[0] in b;
    if a != [] {
      assert a[0] in a && a[0] in b;
      assert b[0] in b && b[0] in a;
      HeadIsLeast(a, b[0]);
      HeadIsLeast(b, a[0]);
      if a[0] != b[0] {
        BeforeTransitive(a[0], b[0], a[0]);
        BeforeIrreflexive(a[0]);
      }
      TailElements(a);
      TailElements(b);
      AscendingUnique(a[1..], b[1..]);
      assert a == [a[0]] + a[1..] && b == [b[0]] + b[1..];
    }
  }

  lemma {:induction false} HeadIsLeast(fs: seq<string>, x: string)
    requires Ascending(fs) && x in fs
    ensures x == fs[0] || Before(fs[0], x)
  {
  }

  lemma {:induction false} TailElements(fs: seq<string>)
    requires Ascending(fs) && fs != []
    ensures Ascending(fs[1..]) && forall x :: x in fs[1..] <==> x in fs && x != fs[0]
  {
    BeforeIrreflexive(fs[0]);
    forall x ensures x in fs[1..] <==> x in fs && x != fs[0] {
      if x in fs[1..] {
        var k :| 0 <= k < |fs[1..]| && fs[1..][k] == x;
        assert fs[k + 1] == x;
      }
    }
  }

  // ---- The pre-image ----

  function NumberField(name: string, value: Word): string { Field(name, Decimal(value)) }

  function FeatureFields(fs: seq<string>): string {
    if fs == [] then "" else Field("feature", fs[0]) + FeatureFields(fs[1..])
  }

  /** What follows the features. */
  function Tail(id: Identity, ir: string): string {
    Field("optimization", id.optimization)
    + (Field("fp_semantics", id.fpSemantics)
       + (NumberField("backend_abi", id.backendAbi)
          + (NumberField("helper_abi", id.helperAbi) + (Field("pgo_id", id.pgo) + (Field("kernel_ir", ir) + "")))))
  }

  /** The feature list; its count is narrowed to 32 bits. */
  function FeatureList(features: seq<string>, rest: string): string {
    var fs := Canonical(features);
    NumberField("feature_count", |fs| % 0x1_0000_0000) + (FeatureFields(fs) + rest)
  }

  function Preimage(id: Identity, ir: string): string {
    "metaflux-cache-identity-v1\n"
    + (Field("toolchain", id.toolchain)
       + (NumberField("compiler_epoch", id.compilerEpoch)
          + (NumberField("kernel_ir_schema", id.kernelIrSchema)
             + (Field("pipeline", id.pipeline)
                + (Field("target_triple",
                         id.triple) + (Field("cpu_name", id.cpu) + FeatureList(id.features, Tail(id, ir))))))))
  }

  /** The same identity, features compared as a set. */
  ghost predicate SameIdentity(a: Identity, b: Identity) {
    && a.(features := []) == b.(features := [])
    && forall f :: f in a.features <==> f in b.features
  }

  lemma {:induction false} NumberIsFirst(name: string, m: Word, rest1: string, n: Word, rest2: string)
    requires NoColon(name) && NumberField(name, m) + rest1 == NumberField(name, n) + rest2
    ensures m == n && rest1 == rest2
  {
    FieldIsFirst(name, Decimal(m), rest1, name, Decimal(n), rest2);
    DecimalInjective(m, n);
  }

  lemma {:induction false} FeaturesAreFirst(a: seq<string>, o1: string, rest1: string, b: seq<string>, o2: string,
                                            rest2: string)
    requires FeatureFields(a) + (Field("optimization", o1) + rest1)
        == FeatureFields(b) + (Field("optimization", o2) + rest2)
    ensures a == b && o1 == o2 && rest1 == rest2
    decreases |a| + |b|
  {
    hide Field;
    var t1, t2 := Field("optimization", o1) + rest1, Field("optimization", o2) + rest2;
    assert NoColon("feature") && NoColon("optimization") && "feature" != "optimization";
    if a == [] && b == [] {
      assert FeatureFields(a) + t1 == t1 && FeatureFields(b) + t2 == t2;
      FieldIsFirst("optimization", o1, rest1, "optimization", o2, rest2);
    } else if a == [] {
      assert FeatureFields(a) + t1 == t1;
      assert FeatureFields(b) + t2 == Field("feature", b[0]) + (FeatureFields(b[1..]) + t2);
      FieldIsFirst("optimization", o1, rest1, "feature", b[0], FeatureFields(b[1..]) + t2);
    } else if b == [] {
      assert FeatureFields(b) + t2 == t2;
      assert FeatureFields(a) + t1 == Field("feature", a[0]) + (FeatureFields(a[1..]) + t1);
      FieldIsFirst("feature", a[0], FeatureFields(a[1..]) + t1, "optimization", o2, rest2);
    } else {
      assert FeatureFields(a) + t1 == Field("feature", a[0]) + (FeatureFields(a[1..]) + t1);
      assert FeatureFields(b) + t2 == Field("feature", b[0]) + (FeatureFields(b[1..]) + t2);
      FieldIsFirst("feature", a[0], FeatureFields(a[1..]) + t1, "feature", b[0], FeatureFields(b[1..]) + t2);
      FeaturesAreFirst(a[1..], o1, rest1, b[1..], o2, rest2);
      assert a == [a[0]] + a[1..] && b == [b[0]] + b[1..];
    }
  }

  lemma {:induction false} TailInjective(a: Identity, ir1: string, b: Identity, ir2: string, fs1: seq<string>,
                                         fs2: seq<string>)
    requires FeatureFields(fs1) + Tail(a, ir1) == FeatureFields(fs2) + Tail(b, ir2)
    ensures fs1 == fs2 && ir1 == ir2
    ensures a.optimization == b.optimization && a.fpSemantics == b.fpSemantics && a.backendAbi == b.backendAbi
    ensures a.helperAbi == b.helperAbi && a.pgo == b.pgo
  {
    FieldNames();
    hide Field, NumberField, NoColon;
    var p1, p2 := Field("pgo_id", a.pgo) + (Field("kernel_ir", ir1) + ""),
        Field("pgo_id", b.pgo) + (Field("kernel_ir", ir2) + "");
    var h1, h2 := NumberField("helper_abi", a.helperAbi) + p1, NumberField("helper_abi", b.helperAbi) + p2;
    var b1, b2 := NumberField("backend_abi", a.backendAbi) + h1, NumberField("backend_abi", b.backendAbi) + h2;
    var f1, f2 := Field("fp_semantics", a.fpSemantics) + b1, Field("fp_semantics", b.fpSemantics) + b2;
    FeaturesAreFirst(fs1, a.optimization, f1, fs2, b.optimization, f2);
    FieldIsFirst("fp_semantics", a.fpSemantics, b1, "fp_semantics", b.fpSemantics, b2);
    NumberIsFirst("backend_abi", a.backendAbi, h1, b.backendAbi, h2);
    NumberIsFirst("helper_abi", a.helperAbi, p1, b.helperAbi, p2);
    FieldIsFirst("pgo_id", a.pgo, Field("kernel_ir", ir1) + "", "pgo_id", b.pgo, Field("kernel_ir", ir2) + "");
    FieldIsFirst("kernel_ir", ir1, "", "kernel_ir", ir2, "");
  }

  lemma {:induction false} FieldNames()
    ensures NoColon("toolchain") && NoColon("compiler_epoch") && NoColon("kernel_ir_schema") && NoColon("pipeline")
    ensures NoColon("target_triple") && NoColon("cpu_name") && NoColon("feature_count") && NoColon("fp_semantics")
    ensures NoColon("backend_abi") && NoColon("helper_abi") && NoColon("pgo_id") && NoColon("kernel_ir")
  {
  }

  lemma {:induction false} ListInjective(a: Identity, ir1: string, b: Identity, ir2: string)
    requires FeatureList(a.features, Tail(a, ir1)) == FeatureList(b.features, Tail(b, ir2))
    ensures Canonical(a.features) == Canonical(b.features) && ir1 == ir2
    ensures a.optimization == b.optimization && a.fpSemantics == b.fpSemantics && a.backendAbi == b.backendAbi
    ensures a.helperAbi == b.helperAbi && a.pgo == b.pgo
  {
    FieldNames();
    hide Field, NumberField, NoColon, Tail, FeatureFields;
    var fs1, fs2 := Canonical(a.features), Canonical(b.features);
    NumberIsFirst("feature_count", |fs1| % 0x1_0000_0000, FeatureFields(fs1) + Tail(a, ir1),
                  |fs2| % 0x1_0000_0000, FeatureFields(fs2) + Tail(b, ir2));
    TailInjective(a, ir1, b, ir2, fs1, fs2);
  }

  lemma {:induction false} PreimageDetermines(a: Identity, ir1: string, b: Identity, ir2: string)
    requires Preimage(a, ir1) == Preimage(b, ir2)
    ensures a.(features := []) == b.(features := []) && Canonical(a.features) == Canonical(b.features) && ir1 == ir2
  {
    FieldNames();
    hide Field, NumberField, NoColon, FeatureList, Tail;
    var title := "metaflux-cache-identity-v1\n";
    var l1, l2 := FeatureList(a.features, Tail(a, ir1)), FeatureList(b.features, Tail(b, ir2));
    var c1, c2 := Field("cpu_name", a.cpu) + l1, Field("cpu_name", b.cpu) + l2;
    var t1, t2 := Field("target_triple", a.triple) + c1, Field("target_triple", b.triple) + c2;
    var p1, p2 := Field("pipeline", a.pipeline) + t1, Field("pipeline", b.pipeline) + t2;
    var s1, s2 := NumberField("kernel_ir_schema", a.kernelIrSchema) + p1,
        NumberField("kernel_ir_schema", b.kernelIrSchema) + p2;
    var e1, e2 := NumberField("compiler_epoch", a.compilerEpoch) + s1,
        NumberField("compiler_epoch", b.compilerEpoch) + s2;
    var x1, x2 := Field("toolchain", a.toolchain) + e1, Field("toolchain", b.toolchain) + e2;
    assert x1 == (title + x1)[|title|..] && x2 == (title + x2)[|title|..];
    FieldIsFirst("toolchain", a.toolchain, e1, "toolchain", b.toolchain, e2);
    NumberIsFirst("compiler_epoch", a.compilerEpoch, s1, b.compilerEpoch, s2);
    NumberIsFirst("kernel_ir_schema", a.kernelIrSchema, p1, b.kernelIrSchema, p2);
    FieldIsFirst("pipeline", a.pipeline, t1, "pipeline", b.pipeline, t2);
    FieldIsFirst("target_triple", a.triple, c1, "target_triple", b.triple, c2);
    FieldIsFirst("cpu_name", a.cpu, l1, "cpu_name", b.cpu, l2);
    ListInjective(a, ir1, b, ir2);
  }

  /** Equal pre-images mean the same identity, features as a set, and the same kernel text. */
  lemma {:induction false} PreimageIdentity(a: Identity, ir1: string, b: Identity, ir2: string)
    ensures Preimage(a, ir1) == Preimage(b, ir2) <==> SameIdentity(a, b) && ir1 == ir2
  {
    hide Field, NumberField, FeatureFields, Canonical, Ascending;
    CanonicalFeatures(a.features);
    CanonicalFeatures(b.features);
    if Preimage(a, ir1) == Preimage(b, ir2) { PreimageDetermines(a, ir1, b, ir2); }
    if SameIdentity(a, b) { AscendingUnique(Canonical(a.features), Canonical(b.features)); }
  }

  /** The key for any digest function. */
  function Key(digest: string -> string, id: Identity, ir: string): string { "mf-cache-v1-" + digest(Preimage(id, ir)) }

  /** Keys agree exactly on equal identities, wherever the digest has no collision. */
  lemma {:induction false} KeyIdentity(digest: string -> string, a: Identity, ir1: string, b: Identity, ir2: string)
    requires digest(Preimage(a, ir1)) == digest(Preimage(b, ir2)) ==> Preimage(a, ir1) == Preimage(b, ir2)
    ensures Key(digest, a, ir1) == Key(digest, b, ir2) <==> SameIdentity(a, b) && ir1 == ir2
  {
    hide Preimage, SameIdentity;
    PreimageIdentity(a, ir1, b, ir2);
    var title, x, y := "mf-cache-v1-", digest(Preimage(a, ir1)), digest(Preimage(b, ir2));
    assert x == (title + x)[|title|..] && y == (title + y)[|title|..];
  }

  // ---- Building it ----

  method AppendFeatures(encoding: string, fs: seq<string>) returns (out: string)
    ensures out == encoding + FeatureFields(fs)
  {
    hide Field;
    out := encoding;
    assert fs[0..] == fs;
    assert encoding + FeatureFields(fs) == out + FeatureFields(fs[0..]);
    for i := 0 to |fs|
      invariant out + FeatureFields(fs[i..]) == encoding + FeatureFields(fs)
    {
      assert fs[i..][0] == fs[i] && fs[i..][1..] == fs[i + 1..];
      assert out + (Field("feature", fs[i]) + FeatureFields(fs[i + 1..]))
          == out + Field("feature", fs[i]) + FeatureFields(fs[i + 1..]);
      out := out + Field("feature", fs[i]);
    }
    assert fs[|fs|..] == [];
    assert out + "" == out;
  }

  /** Sort the features into an ascending list, each once. */
  method SortFeatures(features: seq<string>) returns (fs: seq<string>)
    ensures fs == Canonical(features)
    ensures Ascending(fs) && forall x :: x in fs <==> x in features
  {
    fs := [];
    for i := 0 to |features|
      invariant fs == Canonical(features[..i])
    {
      fs := Insert(features[i], fs);
      assert features[..i + 1][..i] == features[..i];
    }
    assert features[..|features|] == features;
    CanonicalFeatures(features);
  }

  method BuildPreimage(id: Identity, ir: string) returns (encoding: string)
    ensures encoding == Preimage(id, ir)
  {
    hide Field, NumberField, FeatureFields, Canonical, Ascending;
    encoding := "metaflux-cache-identity-v1\n";
    encoding := encoding + Field("toolchain", id.toolchain);
    encoding := encoding + NumberField("compiler_epoch", id.compilerEpoch);
    encoding := encoding + NumberField("kernel_ir_schema", id.kernelIrSchema);
    encoding := encoding + Field("pipeline", id.pipeline);
    encoding := encoding + Field("target_triple", id.triple);
    encoding := encoding + Field("cpu_name", id.cpu);
    var features := SortFeatures(id.features);
    encoding := encoding + NumberField("feature_count", |features| % 0x1_0000_0000);
    encoding := AppendFeatures(encoding, features);
    encoding := encoding + Field("optimization", id.optimization);
    encoding := encoding + Field("fp_semantics", id.fpSemantics);
    encoding := encoding + NumberField("backend_abi", id.backendAbi);
    encoding := encoding + NumberField("helper_abi", id.helperAbi);
    encoding := encoding + Field("pgo_id", id.pgo);
    encoding := encoding + Field("kernel_ir", ir);
    assert encoding == Preimage(id, ir);
  }
}
