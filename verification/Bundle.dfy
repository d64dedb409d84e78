/** The canonical bytes of a model bundle, which its SHA-256 identity is taken over. */
module Bundle {
  import opened Bytes
  import opened Wire
  import opened Canonical

  datatype TensorSpec = TensorSpec(name: Text, dtype: uint32, shape: seq<int64>)

  /** file and path are not part of the identity. */
  datatype Artifact = Artifact(name: Text, file: Text, bytes: uint64, sha256: Text)

  datatype Model = Model(
    name: Text, frameType: Text, route: Text, backend: Text, path: Text, bytes: uint64, sha256: Text,
    replaced: seq<Text>, inputs: seq<TensorSpec>, outputs: seq<TensorSpec>)

  datatype Manifest = Manifest(
    runtime: Text, socVersion: Text, dtype: Text, sidecarBytes: uint64, sidecarSha256: Text,
    artifacts: seq<Artifact>, models: seq<Model>)

  // ----- tensor lists -----

  predicate SpecFits(s: TensorSpec) {
    Fits(|s.name|) && Fits(|s.shape|)
  }

  predicate SpecsFit(specs: seq<TensorSpec>) {
    Fits(|specs|) && forall i :: 0 <= i < |specs| ==> SpecFits(specs[i])
  }

  function SpecBytes(s: TensorSpec): seq<byte>
    requires SpecFits(s)
  {
    TextBytes(s.name) + U32(s.dtype) + U32(|s.shape|) + ShapeBytes(s.shape)
  }

  function SpecsBytes(specs: seq<TensorSpec>): seq<byte>
    requires forall i :: 0 <= i < |specs| ==> SpecFits(specs[i])
  {
    if specs == [] then []
    else
      assert SpecFits(specs[0]);
      SpecBytes(specs[0]) + SpecsBytes(specs[1..])
  }

  function SpecListBytes(specs: seq<TensorSpec>): seq<byte>
    requires SpecsFit(specs)
  {
    U32(|specs|) + SpecsBytes(specs)
  }

  lemma SpecApart(a: TensorSpec, b: TensorSpec, x: seq<byte>, y: seq<byte>)
    requires SpecFits(a) && SpecFits(b) && SpecBytes(a) + x == SpecBytes(b) + y
    ensures a == b && x == y
  {
    hide TextBytes, U32, ShapeBytes;
    var a1, b1 := ShapeBytes(a.shape) + x, ShapeBytes(b.shape) + y;
    var a2, b2 := U32(|a.shape|) + a1, U32(|b.shape|) + b1;
    var a3, b3 := U32(a.dtype) + a2, U32(b.dtype) + b2;
    assert SpecBytes(a) + x == TextBytes(a.name) + a3;
    assert SpecBytes(b) + y == TextBytes(b.name) + b3;
    TextApart(a.name, b.name, a3, b3);
    U32Apart(a.dtype, b.dtype, a2, b2);
    U32Apart(|a.shape|, |b.shape|, a1, b1);
    ShapeApart(a.shape, b.shape, x, y);
  }

  lemma {:induction false} SpecsApart(a: seq<TensorSpec>, b: seq<TensorSpec>, x: seq<byte>, y: seq<byte>)
    requires SpecsFit(a) && SpecsFit(b) && |a| == |b| && SpecsBytes(a) + x == SpecsBytes(b) + y
    ensures a == b && x == y
  {
    hide SpecBytes, SpecFits;
    if a != [] {
      assert SpecBytes(a[0]) + (SpecsBytes(a[1..]) + x) == SpecsBytes(a) + x;
      assert SpecBytes(b[0]) + (SpecsBytes(b[1..]) + y) == SpecsBytes(b) + y;
      SpecApart(a[0], b[0], SpecsBytes(a[1..]) + x, SpecsBytes(b[1..]) + y);
      SpecsApart(a[1..], b[1..], x, y);
      assert a == [a[0]] + a[1..] && b == [b[0]] + b[1..];
    } else {
      assert SpecsBytes(a) + x == x && SpecsBytes(b) + y == y;
    }
  }

  lemma SpecListApart(a: seq<TensorSpec>, b: seq<TensorSpec>, x: seq<byte>, y: seq<byte>)
    requires SpecsFit(a) && SpecsFit(b) && SpecListBytes(a) + x == SpecListBytes(b) + y
    ensures a == b && x == y
  {
    hide U32, SpecsBytes, SpecFits;
    assert SpecListBytes(a) + x == U32(|a|) + (SpecsBytes(a) + x);
    assert SpecListBytes(b) + y == U32(|b|) + (SpecsBytes(b) + y);
    U32Apart(|a|, |b|, SpecsBytes(a) + x, SpecsBytes(b) + y);
    SpecsApart(a, b, x, y);
  }

  // ----- models -----

  predicate ModelFits(m: Model) {
    && Fits(|m.name|) && Fits(|m.frameType|) && Fits(|m.route|) && Fits(|m.backend|) && Fits(|m.sha256|)
    && Fits(|m.replaced|) && TextsFit(m.replaced) && SpecsFit(m.inputs) && SpecsFit(m.outputs)
  }

  function ModelHead(m: Model): seq<byte>
    requires ModelFits(m)
  {
    TextBytes(m.name) + TextBytes(m.frameType) + TextBytes(m.route) + TextBytes(m.backend) + U64(m.bytes) + TextBytes(m.sha256)
  }

  function ModelTail(m: Model): seq<byte>
    requires ModelFits(m)
  {
    U32(|m.replaced|) + TextsBytes(m.replaced) + SpecListBytes(m.inputs) + SpecListBytes(m.outputs)
  }

  function ModelBytes(m: Model): seq<byte>
    requires ModelFits(m)
  {
    ModelHead(m) + ModelTail(m)
  }

  /** Equal but for the path. */
  predicate SameModel(a: Model, b: Model) {
    a.(path := b.path) == b
  }

  lemma HeadApart(a: Model, b: Model, x: seq<byte>, y: seq<byte>)
    requires ModelFits(a) && ModelFits(b) && ModelHead(a) + x == ModelHead(b) + y
    ensures a.name == b.name && a.frameType == b.frameType && a.route == b.route && a.backend == b.backend
    ensures a.bytes == b.bytes && a.sha256 == b.sha256 && x == y
  {
    hide TextBytes, U64, TextsFit, SpecsFit;
    var a1, b1 := TextBytes(a.sha256) + x, TextBytes(b.sha256) + y;
    var a2, b2 := U64(a.bytes) + a1, U64(b.bytes) + b1;
    var a3, b3 := TextBytes(a.backend) + a2, TextBytes(b.backend) + b2;
    var a4, b4 := TextBytes(a.route) + a3, TextBytes(b.route) + b3;
    var a5, b5 := TextBytes(a.frameType) + a4, TextBytes(b.frameType) + b4;
    assert ModelHead(a) + x == TextBytes(a.name) + a5;
    assert ModelHead(b) + y == TextBytes(b.name) + b5;
    TextApart(a.name, b.name, a5, b5);
    TextApart(a.frameType, b.frameType, a4, b4);
    TextApart(a.route, b.route, a3, b3);
    TextApart(a.backend, b.backend, a2, b2);
    U64Apart(a.bytes, b.bytes, a1, b1);
    TextApart(a.sha256, b.sha256, x, y);
  }

  lemma TailApart(a: Model, b: Model, x: seq<byte>, y: seq<byte>)
    requires ModelFits(a) && ModelFits(b) && ModelTail(a) + x == ModelTail(b) + y
    ensures a.replaced == b.replaced && a.inputs == b.inputs && a.outputs == b.outputs && x == y
  {
    hide U32, TextsBytes, SpecListBytes, TextsFit, SpecsFit;
    var a1, b1 := SpecListBytes(a.outputs) + x, SpecListBytes(b.outputs) + y;
    var a2, b2 := SpecListBytes(a.inputs) + a1, SpecListBytes(b.inputs) + b1;
    var a3, b3 := TextsBytes(a.replaced) + a2, TextsBytes(b.replaced) + b2;
    assert ModelTail(a) + x == U32(|a.replaced|) + a3;
    assert ModelTail(b) + y == U32(|b.replaced|) + b3;
    U32Apart(|a.replaced|, |b.replaced|, a3, b3);
    TextsApart(a.replaced, b.replaced, a2, b2);
    SpecListApart(a.inputs, b.inputs, a1, b1);
    SpecListApart(a.outputs, b.outputs, x, y);
  }

  lemma ModelApart(a: Model, b: Model, x: seq<byte>, y: seq<byte>)
    requires ModelFits(a) && ModelFits(b) && ModelBytes(a) + x == ModelBytes(b) + y
    ensures SameModel(a, b) && x == y
  {
    hide ModelHead, ModelTail, ModelFits;
    assert ModelBytes(a) + x == ModelHead(a) + (ModelTail(a) + x);
    assert ModelBytes(b) + y == ModelHead(b) + (ModelTail(b) + y);
    HeadApart(a, b, ModelTail(a) + x, ModelTail(b) + y);
    TailApart(a, b, x, y);
  }

  predicate ModelsFit(ms: seq<Model>) {
    forall i :: 0 <= i < |ms| ==> ModelFits(ms[i])
  }

  function ModelsBytes(ms: seq<Model>): seq<byte>
    requires ModelsFit(ms)
  {
    if ms == [] then []
    else
      assert ModelFits(ms[0]);
      ModelBytes(ms[0]) + ModelsBytes(ms[1..])
  }

  predicate SameModels(a: seq<Model>, b: seq<Model>) {
    |a| == |b| && forall i :: 0 <= i < |a| ==> SameModel(a[i], b[i])
  }

  lemma {:induction false} ModelsApart(a: seq<Model>, b: seq<Model>, x: seq<byte>, y: seq<byte>)
    requires ModelsFit(a) && ModelsFit(b) && |a| == |b| && ModelsBytes(a) + x == ModelsBytes(b) + y
    ensures SameModels(a, b) && x == y
  {
    hide ModelBytes, ModelFits, SameModel;
    if a != [] {
      assert ModelBytes(a[0]) + (ModelsBytes(a[1..]) + x) == ModelsBytes(a) + x;
      assert ModelBytes(b[0]) + (ModelsBytes(b[1..]) + y) == ModelsBytes(b) + y;
      ModelApart(a[0], b[0], ModelsBytes(a[1..]) + x, ModelsBytes(b[1..]) + y);
      ModelsApart(a[1..], b[1..], x, y);
      forall i | 0 <= i < |a| ensures SameModel(a[i], b[i]) {
        if i > 0 { assert a[i] == a[1..][i - 1] && b[i] == b[1..][i - 1]; }
      }
    } else {
      assert ModelsBytes(a) + x == x && ModelsBytes(b) + y == y;
    }
  }

  // ----- artifacts -----

  predicate ArtifactFits(a: Artifact) {
    Fits(|a.name|) && Fits(|a.sha256|)
  }

  predicate ArtifactsFit(artifacts: seq<Artifact>) {
    forall i :: 0 <= i < |artifacts| ==> ArtifactFits(artifacts[i])
  }

  function ArtifactBytes(a: Artifact): seq<byte>
    requires ArtifactFits(a)
  {
    TextBytes(a.name) + U64(a.bytes) + TextBytes(a.sha256)
  }

  function ArtifactsBytes(artifacts: seq<Artifact>): seq<byte>
    requires ArtifactsFit(artifacts)
  {
    if artifacts == [] then []
    else
      assert ArtifactFits(artifacts[0]);
      ArtifactBytes(artifacts[0]) + ArtifactsBytes(artifacts[1..])
  }

  predicate SameArtifact(a: Artifact, b: Artifact) {
    a.(file := b.file) == b
  }

  predicate SameArtifacts(a: seq<Artifact>, b: seq<Artifact>) {
    |a| == |b| && forall i :: 0 <= i < |a| ==> SameArtifact(a[i], b[i])
  }

  lemma ArtifactApart(a: Artifact, b: Artifact, x: seq<byte>, y: seq<byte>)
    requires ArtifactFits(a) && ArtifactFits(b) && ArtifactBytes(a) + x == ArtifactBytes(b) + y
    ensures SameArtifact(a, b) && x == y
  {
    hide TextBytes, U64;
    var a1, b1 := TextBytes(a.sha256) + x, TextBytes(b.sha256) + y;
    var a2, b2 := U64(a.bytes) + a1, U64(b.bytes) + b1;
    assert ArtifactBytes(a) + x == TextBytes(a.name) + a2;
    assert ArtifactBytes(b) + y == TextBytes(b.name) + b2;
    TextApart(a.name, b.name, a2, b2);
    U64Apart(a.bytes, b.bytes, a1, b1);
    TextApart(a.sha256, b.sha256, x, y);
  }

  lemma {:induction false} ArtifactsApart(a: seq<Artifact>, b: seq<Artifact>, x: seq<byte>, y: seq<byte>)
    requires ArtifactsFit(a) && ArtifactsFit(b) && |a| == |b| && ArtifactsBytes(a) + x == ArtifactsBytes(b) + y
    ensures SameArtifacts(a, b) && x == y
  {
    hide ArtifactBytes, ArtifactFits, SameArtifact;
    if a != [] {
      assert ArtifactBytes(a[0]) + (ArtifactsBytes(a[1..]) + x) == ArtifactsBytes(a) + x;
      assert ArtifactBytes(b[0]) + (ArtifactsBytes(b[1..]) + y) == ArtifactsBytes(b) + y;
      ArtifactApart(a[0], b[0], ArtifactsBytes(a[1..]) + x, ArtifactsBytes(b[1..]) + y);
      ArtifactsApart(a[1..], b[1..], x, y);
      forall i | 0 <= i < |a| ensures SameArtifact(a[i], b[i]) {
        if i > 0 { assert a[i] == a[1..][i - 1] && b[i] == b[1..][i - 1]; }
      }
    } else {
      assert ArtifactsBytes(a) + x == x && ArtifactsBytes(b) + y == y;
    }
  }

  // ----- sorting by name -----

  function Insert(a: Artifact, sorted: seq<Artifact>): seq<Artifact> {
    if sorted == [] || NameLess(a.name, sorted[0].name) then [a] + sorted
    else [sorted[0]] + Insert(a, sorted[1..])
  }

  /** std::sort by name; with unique names the result does not depend on the algorithm. */
  function SortByName(artifacts: seq<Artifact>): seq<Artifact> {
    if artifacts == [] then [] else Insert(artifacts[0], SortByName(artifacts[1..]))
  }

  predicate UniqueNames(artifacts: seq<Artifact>) {
    forall i, j :: 0 <= i < j < |artifacts| ==> artifacts[i].name != artifacts[j].name
  }

  predicate Above(name: Text, artifacts: seq<Artifact>) {
    forall a :: a in artifacts ==> NameLess(name, a.name)
  }

  /** Strictly ascending by name. */
  predicate InOrder(artifacts: seq<Artifact>) {
    artifacts != [] ==> Above(artifacts[0].name, artifacts[1..]) && InOrder(artifacts[1..])
  }

  lemma {:induction false} InsertKeeps(a: Artifact, sorted: seq<Artifact>)
    ensures multiset(Insert(a, sorted)) == multiset(sorted) + multiset{a}
    ensures forall x :: x in Insert(a, sorted) <==> x == a || x in sorted
  {
    if !(sorted == [] || NameLess(a.name, sorted[0].name)) {
      InsertKeeps(a, sorted[1..]);
      assert sorted == [sorted[0]] + sorted[1..];
    }
  }

  lemma AboveThrough(a: Text, b: Text, rest: seq<Artifact>)
    requires NameLess(a, b) && Above(b, rest)
    ensures Above(a, rest)
  {
    forall x | x in rest ensures NameLess(a, x.name) { NameLessTransitive(a, b, x.name); }
  }

  lemma {:induction false} InsertOrders(a: Artifact, sorted: seq<Artifact>)
    requires InOrder(sorted) && forall x :: x in sorted ==> x.name != a.name
    ensures InOrder(Insert(a, sorted))
  {
    hide NameLess;
    if sorted == [] {
      assert [a][1..] == [];
    } else {
      var first, rest := sorted[0], sorted[1..];
      assert sorted == [first] + rest;
      if NameLess(a.name, first.name) {
        AboveThrough(a.name, first.name, rest);
        assert ([a] + sorted)[1..] == sorted;
      } else {
        NameLessTotal(a.name, first.name);
        InsertOrders(a, rest);
        InsertKeeps(a, rest);
        assert ([first] + Insert(a, rest))[1..] == Insert(a, rest);
      }
    }
  }

  lemma {:induction false} SortSorts(artifacts: seq<Artifact>)
    requires UniqueNames(artifacts)
    ensures InOrder(SortByName(artifacts)) && multiset(SortByName(artifacts)) == multiset(artifacts)
    ensures forall x :: x in SortByName(artifacts) <==> x in artifacts
  {
    hide Insert, NameLess, InOrder;
    if artifacts == [] {
      NothingInOrder();
    } else {
      var first, rest := artifacts[0], artifacts[1..];
      assert artifacts == [first] + rest;
      forall i, j | 0 <= i < j < |rest| ensures rest[i].name != rest[j].name {
        assert rest[i] == artifacts[i + 1] && rest[j] == artifacts[j + 1];
      }
      SortSorts(rest);
      forall x | x in rest ensures x.name != first.name {
        var j :| 0 <= j < |rest| && rest[j] == x;
        assert rest[j] == artifacts[j + 1];
      }
      InsertOrders(first, SortByName(rest));
      InsertKeeps(first, SortByName(rest));
    }
  }

  lemma NothingInOrder()
    ensures InOrder([])
  {
  }

  /** The first of an ordered list is the least of its elements. */
  lemma FirstIsLeast(a: seq<Artifact>, x: Artifact)
    requires InOrder(a) && x in a
    ensures x == a[0] || NameLess(a[0].name, x.name)
  {
    hide NameLess;
    assert a == [a[0]] + a[1..];
  }

  lemma SameElements(a: seq<Artifact>, b: seq<Artifact>, x: Artifact)
    requires multiset(a) == multiset(b) && x in a
    ensures x in b
  {
    assert x in multiset(a);
  }

  lemma FirstsAgree(a: seq<Artifact>, b: seq<Artifact>)
    requires InOrder(a) && InOrder(b) && multiset(a) == multiset(b) && a != [] && b != []
    ensures a[0] == b[0]
  {
    hide NameLess, InOrder;
    SameElements(a, b, a[0]);
    SameElements(b, a, b[0]);
    FirstIsLeast(a, b[0]);
    FirstIsLeast(b, a[0]);
    if a[0] != b[0] { NameLessTransitive(a[0].name, b[0].name, a[0].name); }
    NameLessIrreflexive(a[0].name);
  }

  lemma MultisetTail(a: seq<Artifact>)
    requires a != []
    ensures multiset(a) == multiset{a[0]} + multiset(a[1..])
  {
    assert a == [a[0]] + a[1..];
  }

  /** Two lists in strict name order with the same elements are the same list. */
  lemma {:induction false} OrderIsUnique(a: seq<Artifact>, b: seq<Artifact>)
    requires InOrder(a) && InOrder(b) && multiset(a) == multiset(b)
    ensures a == b
  {
    hide NameLess;
    assert |multiset(a)| == |a| && |multiset(b)| == |b|;
    if a != [] {
      FirstsAgree(a, b);
      MultisetTail(a);
      MultisetTail(b);
      assert multiset(a[1..]) == multiset(a) - multiset{a[0]};
      assert multiset(b[1..]) == multiset(b) - multiset{b[0]};
      OrderIsUnique(a[1..], b[1..]);
      assert a == [a[0]] + a[1..] && b == [b[0]] + b[1..];
    }
  }

  // ----- the bundle -----

  function Ascii(s: string): Text {
    seq(|s|, i requires 0 <= i < |s| => s[i] as int % 256)
  }

  /** The names of the codec's own files. */
  function Required(): set<Text> {
    {Ascii("metadata.json"), Ascii("gaussian_pmf.json"), Ascii("bit_estimator_pmf.json")}
  }

  /** What ValidateRuntimeArtifactSet asks: named, without repeats, the three files of the codec present. */
  predicate ArtifactSetOk(artifacts: seq<Artifact>) {
    && UniqueNames(artifacts)
    && (forall i :: 0 <= i < |artifacts| ==> artifacts[i].name != [])
    && forall name :: name in Required() ==> exists i :: 0 <= i < |artifacts| && artifacts[i].name == name
  }

  predicate ManifestFits(m: Manifest) {
    && Fits(|m.runtime|) && Fits(|m.socVersion|) && Fits(|m.dtype|) && Fits(|m.sidecarSha256|)
    && Fits(|m.artifacts|) && Fits(|m.models|) && ArtifactsFit(m.artifacts) && ModelsFit(m.models)
  }

  const TAG: Text :=
    [0x4D, 0x4C, 0x56, 0x43, 0x2D, 0x4D, 0x4F, 0x44, 0x45, 0x4C, 0x2D, 0x42, 0x55, 0x4E, 0x44, 0x4C, 0x45, 0x2D, 0x56, 0x32]

  function Preamble(m: Manifest): seq<byte>
    requires ManifestFits(m)
  {
    TextBytes(TAG) + TextBytes(m.runtime) + TextBytes(m.socVersion) + TextBytes(m.dtype) + U64(m.sidecarBytes)
    + TextBytes(m.sidecarSha256)
  }

  lemma SortedFits(artifacts: seq<Artifact>)
    requires UniqueNames(artifacts) && ArtifactsFit(artifacts)
    ensures ArtifactsFit(SortByName(artifacts)) && |SortByName(artifacts)| == |artifacts|
  {
    hide SortByName;
    SortSorts(artifacts);
    var sorted := SortByName(artifacts);
    assert |multiset(sorted)| == |sorted| && |multiset(artifacts)| == |artifacts|;
    forall i | 0 <= i < |sorted| ensures ArtifactFits(sorted[i]) {
      assert sorted[i] in artifacts;
    }
  }

  /** The bytes ComputeModelBundleSha256 hashes. */
  function CanonicalBytes(m: Manifest): seq<byte>
    requires ManifestFits(m) && UniqueNames(m.artifacts)
  {
    SortedFits(m.artifacts);
    Preamble(m) + U32(|m.artifacts|) + ArtifactsBytes(SortByName(m.artifacts)) + U32(|m.models|) + ModelsBytes(m.models)
  }

  lemma PreambleApart(m: Manifest, n: Manifest, x: seq<byte>, y: seq<byte>)
    requires ManifestFits(m) && ManifestFits(n) && Preamble(m) + x == Preamble(n) + y
    ensures m.runtime == n.runtime && m.socVersion == n.socVersion && m.dtype == n.dtype
    ensures m.sidecarBytes == n.sidecarBytes && m.sidecarSha256 == n.sidecarSha256 && x == y
  {
    hide TextBytes, U64, ArtifactsFit, ModelsFit;
    var a1, b1 := TextBytes(m.sidecarSha256) + x, TextBytes(n.sidecarSha256) + y;
    var a2, b2 := U64(m.sidecarBytes) + a1, U64(n.sidecarBytes) + b1;
    var a3, b3 := TextBytes(m.dtype) + a2, TextBytes(n.dtype) + b2;
    var a4, b4 := TextBytes(m.socVersion) + a3, TextBytes(n.socVersion) + b3;
    var a5, b5 := TextBytes(m.runtime) + a4, TextBytes(n.runtime) + b4;
    assert Preamble(m) + x == TextBytes(TAG) + a5;
    assert Preamble(n) + y == TextBytes(TAG) + b5;
    TextApart(TAG, TAG, a5, b5);
    TextApart(m.runtime, n.runtime, a4, b4);
    TextApart(m.socVersion, n.socVersion, a3, b3);
    TextApart(m.dtype, n.dtype, a2, b2);
    U64Apart(m.sidecarBytes, n.sidecarBytes, a1, b1);
    TextApart(m.sidecarSha256, n.sidecarSha256, x, y);
  }

  /** Artifacts without what is not hashed, as a set. */
  function ArtifactSet(artifacts: seq<Artifact>): set<Artifact> {
    set a | a in artifacts :: a.(file := [])
  }

  lemma SameSets(a: seq<Artifact>, b: seq<Artifact>)
    requires SameArtifacts(a, b)
    ensures ArtifactSet(a) == ArtifactSet(b)
  {
    forall x | x in a ensures x.(file := []) in ArtifactSet(b) {
      var i :| 0 <= i < |a| && a[i] == x;
      assert SameArtifact(a[i], b[i]) && b[i].(file := []) == x.(file := []);
    }
    forall x | x in b ensures x.(file := []) in ArtifactSet(a) {
      var i :| 0 <= i < |b| && b[i] == x;
      assert SameArtifact(a[i], b[i]) && a[i].(file := []) == x.(file := []);
    }
  }

  lemma SortedSet(artifacts: seq<Artifact>)
    requires UniqueNames(artifacts)
    ensures ArtifactSet(SortByName(artifacts)) == ArtifactSet(artifacts)
  {
    hide SortByName;
    SortSorts(artifacts);
  }

  /** Two manifests with the same canonical bytes agree on every hashed field, on the models in order and
      on the artifacts as sets. */
  lemma CanonicalInjective(m: Manifest, n: Manifest)
    requires ManifestFits(m) && ManifestFits(n) && UniqueNames(m.artifacts) && UniqueNames(n.artifacts)
    requires CanonicalBytes(m) == CanonicalBytes(n)
    ensures m.runtime == n.runtime && m.socVersion == n.socVersion && m.dtype == n.dtype
    ensures m.sidecarBytes == n.sidecarBytes && m.sidecarSha256 == n.sidecarSha256
    ensures |m.artifacts| == |n.artifacts| && ArtifactSet(m.artifacts) == ArtifactSet(n.artifacts)
    ensures SameModels(m.models, n.models)
  {
    hide Preamble, U32, ArtifactsBytes, ModelsBytes, SortByName, SameModels, SameArtifacts, ManifestFits, ArtifactSet;
    FitsParts(m);
    FitsParts(n);
    SortedFits(m.artifacts);
    SortedFits(n.artifacts);
    var sa, sb := SortByName(m.artifacts), SortByName(n.artifacts);
    var a1, b1 := ModelsBytes(m.models), ModelsBytes(n.models);
    var a2, b2 := U32(|m.models|) + a1, U32(|n.models|) + b1;
    var a3, b3 := ArtifactsBytes(sa) + a2, ArtifactsBytes(sb) + b2;
    var a4, b4 := U32(|m.artifacts|) + a3, U32(|n.artifacts|) + b3;
    assert CanonicalBytes(m) == Preamble(m) + a4;
    assert CanonicalBytes(n) == Preamble(n) + b4;
    PreambleApart(m, n, a4, b4);
    U32Apart(|m.artifacts|, |n.artifacts|, a3, b3);
    ArtifactsApart(sa, sb, a2, b2);
    U32Apart(|m.models|, |n.models|, a1, b1);
    assert a1 + [] == a1 && b1 + [] == b1;
    ModelsApart(m.models, n.models, [], []);
    SameSets(sa, sb);
    SortedSet(m.artifacts);
    SortedSet(n.artifacts);
  }

  lemma FitsParts(m: Manifest)
    requires ManifestFits(m)
    ensures Fits(|m.artifacts|) && Fits(|m.models|) && ArtifactsFit(m.artifacts) && ModelsFit(m.models)
  {
  }

  lemma Permuted(a: seq<Artifact>, b: seq<Artifact>)
    requires UniqueNames(a) && UniqueNames(b) && multiset(a) == multiset(b)
    ensures SortByName(a) == SortByName(b) && |a| == |b|
  {
    hide SortByName, InOrder;
    SortSorts(a);
    SortSorts(b);
    OrderIsUnique(SortByName(a), SortByName(b));
    assert |multiset(a)| == |a| && |multiset(b)| == |b|;
  }

  /** The order in which uniquely named artifacts are listed does not matter. */
  lemma ReorderingKeepsBytes(m: Manifest, artifacts: seq<Artifact>)
    requires ManifestFits(m) && ManifestFits(m.(artifacts := artifacts))
    requires UniqueNames(m.artifacts) && UniqueNames(artifacts) && multiset(artifacts) == multiset(m.artifacts)
    ensures CanonicalBytes(m.(artifacts := artifacts)) == CanonicalBytes(m)
  {
    hide SortByName, ArtifactsBytes, ModelsBytes, ManifestFits;
    Permuted(m.artifacts, artifacts);
  }
}
