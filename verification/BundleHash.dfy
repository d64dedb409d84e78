/** ComputeModelBundleSha256: the appends, the checks, and the hash. */
module BundleHash {
  import opened Options
  import opened Bytes
  import opened Wire
  import opened Canonical
  import opened Bundle
  import opened Sha256Buffers

  method AppendString(b: seq<byte>, t: Text) returns (r: Option<seq<byte>>)
    ensures r.Some? <==> Fits(|t|)
    ensures r.Some? ==> r.value == b + TextBytes(t)
  {
    if !Fits(|t|) { return None; }
    var out := Put(b, |t|, 4);
    assert b + U32(|t|) + t == b + (U32(|t|) + t);
    return Some(out + t);
  }

  method AppendU32(b: seq<byte>, v: uint32) returns (r: seq<byte>)
    ensures r == b + U32(v)
  {
    r := Put(b, v, 4);
  }

  method AppendU64(b: seq<byte>, v: uint64) returns (r: seq<byte>)
    ensures r == b + U64(v)
  {
    r := Put(b, v, 8);
  }

  method AppendShape(b: seq<byte>, shape: seq<int64>) returns (r: seq<byte>)
    ensures r == b + ShapeBytes(shape)
  {
    hide U64;
    r := b;
    for i := 0 to |shape|
      invariant r + ShapeBytes(shape[i..]) == b + ShapeBytes(shape)
    {
      var next := AppendU64(r, Unsigned(shape[i]));
      assert shape[i..][1..] == shape[i + 1..];
      assert next + ShapeBytes(shape[i + 1..]) == r + ShapeBytes(shape[i..]);
      r := next;
    }
    assert r + [] == r;
  }

  method AppendSpec(b: seq<byte>, s: TensorSpec) returns (r: Option<seq<byte>>)
    ensures r.Some? <==> SpecFits(s)
    ensures r.Some? ==> r.value == b + SpecBytes(s)
  {
    hide TextBytes, ShapeBytes, U32;
    r := AppendString(b, s.name);
    if r.None? { return; }
    var out := AppendU32(r.value, s.dtype);
    if !Fits(|s.shape|) { return None; }
    out := AppendU32(out, |s.shape|);
    out := AppendShape(out, s.shape);
    assert out == b + SpecBytes(s);
    return Some(out);
  }

  method AppendTensorSpecs(b: seq<byte>, specs: seq<TensorSpec>) returns (r: Option<seq<byte>>)
    ensures r.Some? <==> SpecsFit(specs)
    ensures r.Some? ==> r.value == b + SpecListBytes(specs)
  {
    hide SpecFits, SpecBytes, U32;
    if !Fits(|specs|) { return None; }
    var out := AppendU32(b, |specs|);
    ghost var before := out;
    for i := 0 to |specs|
      invariant forall j :: 0 <= j < i ==> SpecFits(specs[j])
      invariant (forall j :: 0 <= j < |specs| ==> SpecFits(specs[j])) ==>
                  out + SpecsBytes(specs[i..]) == before + SpecsBytes(specs)
    {
      var next := AppendSpec(out, specs[i]);
      if next.None? { return None; }
      if forall j :: 0 <= j < |specs| ==> SpecFits(specs[j]) {
        assert specs[i..][1..] == specs[i + 1..];
        assert next.value + SpecsBytes(specs[i + 1..]) == out + SpecsBytes(specs[i..]);
      }
      out := next.value;
    }
    assert out + [] == out;
    assert before + SpecsBytes(specs) == b + SpecListBytes(specs);
    return Some(out);
  }

  method AppendTexts(b: seq<byte>, ts: seq<Text>) returns (r: Option<seq<byte>>)
    ensures r.Some? <==> TextsFit(ts)
    ensures r.Some? ==> r.value == b + TextsBytes(ts)
  {
    hide TextBytes;
    var out := b;
    for i := 0 to |ts|
      invariant TextsFit(ts[..i])
      invariant TextsFit(ts) ==> out + TextsBytes(ts[i..]) == b + TextsBytes(ts)
    {
      var next := AppendString(out, ts[i]);
      if next.None? { return None; }
      if TextsFit(ts) {
        assert ts[i..][1..] == ts[i + 1..];
        assert next.value + TextsBytes(ts[i + 1..]) == out + TextsBytes(ts[i..]);
      }
      out := next.value;
    }
    assert ts[..|ts|] == ts && out + [] == out;
    return Some(out);
  }

  method AppendModelHead(b: seq<byte>, m: Model) returns (r: Option<seq<byte>>)
    ensures r.Some? <==> Fits(|m.name|) && Fits(|m.frameType|) && Fits(|m.route|) && Fits(|m.backend|) && Fits(|m.sha256|)
    ensures r.Some? && ModelFits(m) ==> r.value == b + ModelHead(m)
  {
    hide TextBytes, U64, TextsFit, SpecsFit;
    r := AppendString(b, m.name);
    if r.None? { return; }
    r := AppendString(r.value, m.frameType);
    if r.None? { return; }
    r := AppendString(r.value, m.route);
    if r.None? { return; }
    r := AppendString(r.value, m.backend);
    if r.None? { return; }
    var out := AppendU64(r.value, m.bytes);
    r := AppendString(out, m.sha256);
    if r.None? { return; }
    assert ModelFits(m) ==> r.value == b + ModelHead(m);
  }

  method AppendModel(b: seq<byte>, m: Model) returns (r: Option<seq<byte>>)
    ensures r.Some? <==> ModelFits(m)
    ensures r.Some? ==> r.value == b + ModelBytes(m)
  {
    hide ModelHead, TextsFit, SpecsFit, TextsBytes, SpecListBytes, U32;
    r := AppendModelHead(b, m);
    if r.None? { return; }
    if !Fits(|m.replaced|) { return None; }
    ghost var head := r.value;
    var out := AppendU32(r.value, |m.replaced|);
    r := AppendTexts(out, m.replaced);
    if r.None? { return; }
    r := AppendTensorSpecs(r.value, m.inputs);
    if r.None? { return; }
    r := AppendTensorSpecs(r.value, m.outputs);
    if r.None? { return; }
    assert r.value == head + ModelTail(m);
    assert b + ModelHead(m) + ModelTail(m) == b + ModelBytes(m);
  }

  method AppendModels(b: seq<byte>, ms: seq<Model>) returns (r: Option<seq<byte>>)
    ensures r.Some? <==> ModelsFit(ms)
    ensures r.Some? ==> r.value == b + ModelsBytes(ms)
  {
    hide ModelFits, ModelBytes;
    var out := b;
    for i := 0 to |ms|
      invariant ModelsFit(ms[..i])
      invariant ModelsFit(ms) ==> out + ModelsBytes(ms[i..]) == b + ModelsBytes(ms)
    {
      var next := AppendModel(out, ms[i]);
      if next.None? { return None; }
      if ModelsFit(ms) {
        assert ms[i..][1..] == ms[i + 1..];
        assert next.value + ModelsBytes(ms[i + 1..]) == out + ModelsBytes(ms[i..]);
      }
      out := next.value;
    }
    assert ms[..|ms|] == ms && out + [] == out;
    return Some(out);
  }

  method AppendArtifact(b: seq<byte>, a: Artifact) returns (r: Option<seq<byte>>)
    ensures r.Some? <==> ArtifactFits(a)
    ensures r.Some? ==> r.value == b + ArtifactBytes(a)
  {
    hide TextBytes, U64;
    r := AppendString(b, a.name);
    if r.None? { return; }
    var out := AppendU64(r.value, a.bytes);
    r := AppendString(out, a.sha256);
    if r.None? { return; }
    assert r.value == b + ArtifactBytes(a);
  }

  method AppendArtifacts(b: seq<byte>, artifacts: seq<Artifact>) returns (r: Option<seq<byte>>)
    ensures r.Some? <==> ArtifactsFit(artifacts)
    ensures r.Some? ==> r.value == b + ArtifactsBytes(artifacts)
  {
    hide ArtifactFits, ArtifactBytes;
    var out := b;
    for i := 0 to |artifacts|
      invariant ArtifactsFit(artifacts[..i])
      invariant ArtifactsFit(artifacts) ==> out + ArtifactsBytes(artifacts[i..]) == b + ArtifactsBytes(artifacts)
    {
      var next := AppendArtifact(out, artifacts[i]);
      if next.None? { return None; }
      if ArtifactsFit(artifacts) {
        assert artifacts[i..][1..] == artifacts[i + 1..];
        assert next.value + ArtifactsBytes(artifacts[i + 1..]) == out + ArtifactsBytes(artifacts[i..]);
      }
      out := next.value;
    }
    assert artifacts[..|artifacts|] == artifacts && out + [] == out;
    return Some(out);
  }

  /** ValidateRuntimeArtifactSet */
  method ValidateRuntimeArtifactSet(artifacts: seq<Artifact>) returns (ok: bool)
    ensures ok <==> ArtifactSetOk(artifacts)
  {
    var found: set<Text> := {};
    for i := 0 to |artifacts|
      invariant UniqueNames(artifacts[..i])
      invariant forall name :: name in found <==> exists j :: 0 <= j < i && artifacts[j].name == name
      invariant forall j :: 0 <= j < i ==> artifacts[j].name != []
    {
      if artifacts[i].name == [] { return false; }
      if artifacts[i].name in found {
        var j :| 0 <= j < i && artifacts[j].name == artifacts[i].name;
        return false;
      }
      found := found + {artifacts[i].name};
    }
    assert artifacts[..|artifacts|] == artifacts;
    ok := Required() <= found;
    if !ok {
      var name :| name in Required() && name !in found;
    }
  }

  /** Fails when a length does not fit or the artifact set is not acceptable; otherwise the hash of the
      canonical bytes. */
  method ComputeModelBundleSha256<S>(step: BlockFunction<S>, start: S, m: Manifest)
    returns (r: Option<S>)
    ensures r.Some? <==> ManifestFits(m) && ArtifactSetOk(m.artifacts)
    ensures r.Some? ==> r.value == Hashed(step, start, CanonicalBytes(m))
  {
    hide ModelsFit, ArtifactsFit, ModelsBytes, ArtifactsBytes, SortByName, Hashed, Preamble, U32, UniqueNames;
    var front := AppendPreamble(m);
    if front.None? { return None; }
    var ok := ValidateRuntimeArtifactSet(m.artifacts);
    if !ok { return None; }
    var sorted := SortByName(m.artifacts);
    SortedLength(m.artifacts);
    if !Fits(|sorted|) { return None; }
    var out := AppendU32(front.value, |sorted|);
    var b := AppendArtifacts(out, sorted);
    SortedFitsBoth(m.artifacts);
    if b.None? || !Fits(|m.models|) { return None; }
    out := AppendU32(b.value, |m.models|);
    b := AppendModels(out, m.models);
    if b.None? { return None; }
    assert b.value == CanonicalBytes(m);
    var digest := HashBytes(step, start, b.value);
    return Some(digest);
  }

  method AppendPreamble(m: Manifest) returns (r: Option<seq<byte>>)
    ensures r.Some? <==> Fits(|m.runtime|) && Fits(|m.socVersion|) && Fits(|m.dtype|) && Fits(|m.sidecarSha256|)
    ensures r.Some? && ManifestFits(m) ==> r.value == Preamble(m)
  {
    hide TextBytes, U64, ModelsFit, ArtifactsFit;
    r := AppendString([], TAG);
    assert [] + TextBytes(TAG) == TextBytes(TAG);
    r := AppendString(r.value, m.runtime);
    if r.None? { return; }
    r := AppendString(r.value, m.socVersion);
    if r.None? { return; }
    r := AppendString(r.value, m.dtype);
    if r.None? { return; }
    var out := AppendU64(r.value, m.sidecarBytes);
    r := AppendString(out, m.sidecarSha256);
  }

  lemma SortedLength(artifacts: seq<Artifact>)
    requires UniqueNames(artifacts)
    ensures |SortByName(artifacts)| == |artifacts|
  {
    hide SortByName;
    SortSorts(artifacts);
    assert |multiset(SortByName(artifacts))| == |SortByName(artifacts)| && |multiset(artifacts)| == |artifacts|;
  }

  lemma SortedFitsBoth(artifacts: seq<Artifact>)
    requires UniqueNames(artifacts)
    ensures ArtifactsFit(SortByName(artifacts)) <==> ArtifactsFit(artifacts)
  {
    hide SortByName, ArtifactFits;
    SortSorts(artifacts);
    var sorted := SortByName(artifacts);
    if ArtifactsFit(sorted) {
      forall i | 0 <= i < |artifacts| ensures ArtifactFits(artifacts[i]) { assert artifacts[i] in sorted; }
    }
    if ArtifactsFit(artifacts) {
      forall i | 0 <= i < |sorted| ensures ArtifactFits(sorted[i]) { assert sorted[i] in artifacts; }
    }
  }
}
