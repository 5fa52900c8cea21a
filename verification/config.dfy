/** The fixed policy of the client: remote models, accepted and compressed
    extensions, and the size-scaled polling timeout. */
module Config {
  import opened Results
  import opened Strings

  /** Base address of the remote enhancement service. */
  const ApiUrl: string := "https://api.ai-coustics.io/v2"
  /** Seconds allowed per MiB of input for uncompressed audio. */
  const RawFactor: nat := 60
  /** Seconds allowed per MiB of compressed input: ten times the raw factor. */
  const CompressedFactor: nat := RawFactor * 10
  /** Bytes in the MiB used to scale the file size. */
  const BytesPerMiB: nat := 1024 * 1024

  /** Extensions the batch accepts, compared against the lowercased path. */
  const AllowedExtensions: seq<string> :=
    [".wav", ".aac", ".opus", ".ogg", ".mp3", ".flac", ".pcm", ".mp4"]
  /** Extensions whose files get the larger timeout factor. */
  const CompressedExtensions: seq<string> :=
    [".aac", ".opus", ".ogg", ".mp3", ".flac", ".mp4"]

  /** The remote model variants; each one's wire value is its own name. */
  datatype EnhancementModel = LarkV2 | Finch {
    function Value(): string {
      match this
      case LarkV2 => "LARK_V2"
      case Finch => "FINCH"
    }
  }

  /** `EnhancementModel[name]`: the member with that name, or nothing (the
      `KeyError` case) for any other name. */
  function Lookup(name: string): (r: Option<EnhancementModel>)
    ensures r.Some? <==> name == "LARK_V2" || name == "FINCH"
    ensures r.Some? ==> r.value.Value() == name
  {
    if name == "LARK_V2" then Some(LarkV2)
    else if name == "FINCH" then Some(Finch)
    else None
  }

  /** Naming a model by its value finds that model again. */
  lemma LookupValue(m: EnhancementModel)
    ensures Lookup(m.Value()) == Some(m)
  {
  }

  /** `s.endswith(exts)` for a tuple of suffixes: some suffix matches. */
  function EndsWithAny(s: string, exts: seq<string>): (b: bool)
    ensures b <==> exists k :: 0 <= k < |exts| && EndsWith(s, exts[k])
  {
    if exts == [] then false
    else EndsWith(s, exts[0]) || EndsWithAny(s, exts[1..])
  }

  /** The extension test of the batch: the lowercased path ends with an allowed suffix. */
  predicate Accepted(path: string) {
    EndsWithAny(Lower(path), AllowedExtensions)
  }

  /** The lowercased path ends with a compressed-format suffix. */
  predicate Compressed(path: string) {
    EndsWithAny(Lower(path), CompressedExtensions)
  }

  /** Every compressed file is accepted. */
  lemma CompressedIsAccepted(path: string)
    ensures Compressed(path) ==> Accepted(path)
  {
    assert CompressedExtensions == AllowedExtensions[1..6] + AllowedExtensions[7..];
    assert forall k :: 0 <= k < |CompressedExtensions| ==> CompressedExtensions[k] in AllowedExtensions;
    EndsWithAnySubset(Lower(path), CompressedExtensions, AllowedExtensions);
  }

  /** Matching one of fewer suffixes matches one of more. */
  lemma EndsWithAnySubset(s: string, fewer: seq<string>, more: seq<string>)
    requires forall k :: 0 <= k < |fewer| ==> fewer[k] in more
    ensures EndsWithAny(s, fewer) ==> EndsWithAny(s, more)
  {
    if EndsWithAny(s, fewer) {
      var k :| 0 <= k < |fewer| && EndsWith(s, fewer[k]);
      var j :| 0 <= j < |more| && more[j] == fewer[k];
    }
  }

  /** `.wav` and `.pcm` files are accepted but get the raw factor. */
  lemma RawExtensions(path: string)
    requires EndsWith(Lower(path), ".wav") || EndsWith(Lower(path), ".pcm")
    ensures Accepted(path) && !Compressed(path)
  {
    var s := Lower(path);
    if EndsWith(s, ".wav") {
      assert EndsWith(s, AllowedExtensions[0]);
      EndsWithLast(s, ".wav");
    } else {
      assert EndsWith(s, AllowedExtensions[6]);
      EndsWithLast(s, ".pcm");
    }
    NoCompressedSuffix(s);
  }

  /** No compressed suffix ends in `v` or `m`. */
  lemma NoCompressedSuffix(s: string)
    requires |s| > 0 && (s[|s| - 1] == 'v' || s[|s| - 1] == 'm')
    ensures !EndsWithAny(s, CompressedExtensions)
  {
    var c := CompressedExtensions;
    assert c[0][3] == 'c' && c[1][4] == 's' && c[2][3] == 'g';
    assert c[3][3] == '3' && c[4][4] == 'c' && c[5][3] == '4';
    NoSuffixEndingIn(s, c);
  }

  /** A string ends with none of the suffixes whose last character differs
      from its own. */
  lemma NoSuffixEndingIn(s: string, exts: seq<string>)
    requires |s| > 0
    requires forall k :: 0 <= k < |exts| ==> |exts[k]| > 0 && exts[k][|exts[k]| - 1] != s[|s| - 1]
    ensures !EndsWithAny(s, exts)
  {
  }

  /** A suffix fixes the last character. */
  lemma EndsWithLast(s: string, e: string)
    requires |e| > 0 && EndsWith(s, e)
    ensures s[|s| - 1] == e[|e| - 1]
  {
    assert s[|s| - |e|..][|e| - 1] == s[|s| - 1];
  }

  /** The extension tests ignore letter case. */
  lemma ExtensionCaseInsensitive(path: string)
    ensures Accepted(Lower(path)) == Accepted(path)
    ensures Compressed(Lower(path)) == Compressed(path)
  {
    LowerIdempotent(path);
  }

  /** Seconds per MiB: the compressed factor for compressed formats, the raw one otherwise. */
  function TimeoutFactor(path: string): nat {
    if Compressed(path) then CompressedFactor else RawFactor
  }

  /** `int(size / 2**20 * factor)`: the scaled size rounded down to whole seconds. */
  function TimeoutSeconds(sizeBytes: nat, path: string): (t: nat)
    ensures t * BytesPerMiB <= sizeBytes * TimeoutFactor(path) < (t + 1) * BytesPerMiB
  {
    sizeBytes * TimeoutFactor(path) / BytesPerMiB
  }

  /** A bigger file never gets a shorter timeout, and a compressed file never
      gets a shorter one than a raw file of the same size. */
  lemma TimeoutMonotone(small: nat, large: nat, raw: string, compressed: string)
    requires small <= large
    requires !Compressed(raw) && Compressed(compressed)
    ensures TimeoutSeconds(small, raw) <= TimeoutSeconds(large, raw)
    ensures TimeoutSeconds(small, compressed) <= TimeoutSeconds(large, compressed)
    ensures TimeoutSeconds(small, raw) <= TimeoutSeconds(small, compressed)
  {
    DivMonotone(small * RawFactor, large * RawFactor);
    DivMonotone(small * CompressedFactor, large * CompressedFactor);
    DivMonotone(small * RawFactor, small * CompressedFactor);
  }

  /** Floor division by the MiB size respects order. */
  lemma DivMonotone(x: nat, y: nat)
    requires x <= y
    ensures x / BytesPerMiB <= y / BytesPerMiB
  {
  }

  /** The timeout is zero exactly for raw files of at most 17476 bytes and
      compressed files of at most 1747 bytes. */
  lemma ZeroTimeoutSizes(sizeBytes: nat, path: string)
    ensures !Compressed(path) ==> (TimeoutSeconds(sizeBytes, path) == 0 <==> sizeBytes <= 17476)
    ensures Compressed(path) ==> (TimeoutSeconds(sizeBytes, path) == 0 <==> sizeBytes <= 1747)
  {
    var t := TimeoutSeconds(sizeBytes, path);
    var f := TimeoutFactor(path);
    assert t * BytesPerMiB <= sizeBytes * f < (t + 1) * BytesPerMiB;
    assert t != 0 ==> t * BytesPerMiB >= BytesPerMiB;
    assert t == 0 <==> sizeBytes * f < BytesPerMiB;
    if Compressed(path) {
      assert f == 600;
      assert sizeBytes <= 1747 ==> sizeBytes * 600 <= 1048200;
      assert sizeBytes > 1747 ==> sizeBytes * 600 >= 1048800;
    } else {
      assert f == 60;
      assert sizeBytes <= 17476 ==> sizeBytes * 60 <= 1048560;
      assert sizeBytes > 17476 ==> sizeBytes * 60 >= 1048620;
    }
  }

  /** The parameter object sent with each upload (batch path: mix at 100 percent). */
  datatype Arguments = Arguments(
    loudnessTargetLevel: int,
    truePeak: int,
    enhancementLevel: int,
    enhancementModel: string,
    fileName: string)

  /** Target loudness in LUFS sent with every upload. */
  const LoudnessTargetLevel: int := -14
  /** Target true peak in dBTP sent with every upload. */
  const TruePeak: int := -1
  /** The mix the batch asks for, `int(100.0)`: full enhancement. */
  const BatchMixPercent: int := 100

  /** The upload parameters for one file: fixed loudness and peak targets,
      full enhancement, the model's wire name and the local path. */
  function UploadArguments(path: string, model: EnhancementModel): (r: Arguments)
    ensures Lookup(r.enhancementModel) == Some(model)
    ensures r.loudnessTargetLevel == -14 && r.truePeak == -1
    ensures r.enhancementLevel == 100
    ensures r.fileName == path
  {
    Arguments(LoudnessTargetLevel, TruePeak, BatchMixPercent, model.Value(), path)
  }
}
