/** Which captures are one session: what a session without an id of its own is known by. */
module IngestIdentity {
  import opened Wrappers
  import opened IngestRecords
  import opened IngestSpec
  import Text

  /** Captured by an enrolled machine from a file it names. */
  predicate FromFile(w: World, meta: ArtifactMeta)
  {
    && w.context.machineId.Some? && w.context.machineId.value != ""
    && meta.sourcePath.Some? && meta.sourcePath.value != ""
  }

  function FirstSixteen(sha256: string): string
  {
    if |sha256| <= 16 then sha256 else sha256[..16]
  }

  /** One file of one machine, or one upload. */
  predicate SameOrigin(w: World, a: ArtifactMeta, v: World, b: ArtifactMeta)
  {
    if FromFile(w, a) && FromFile(v, b)
    then w.context.machineId == v.context.machineId && a.sourcePath == b.sourcePath
    else !FromFile(w, a) && !FromFile(v, b) && FirstSixteen(a.sha256) == FirstSixteen(b.sha256)
  }

  /** A machine id is a UUID. */
  predicate PlainMachine(w: World) { w.context.machineId.Some? ==> ':' !in w.context.machineId.value }

  lemma Pieces(s: string, a: string, x: string)
    requires s == a + ":" + x
    ensures |a| < |s| && s[|a|] == ':' && s[..|a|] == a && s[|a| + 1..] == x
    ensures ':' !in a ==> forall k :: 0 <= k < |a| ==> s[k] != ':'
    ensures ':' !in x ==> forall k :: |a| < k < |s| ==> s[k] != ':'
  {
    assert forall k :: 0 <= k < |a| ==> s[k] == a[k];
    assert forall k :: |a| < k < |s| ==> s[k] == x[k - |a| - 1];
  }

  /** Where the only colon, the first or the last is pinned down, so are the parts. */
  lemma ColonSplits(a: string, x: string, b: string, y: string)
    requires (':' !in a && ':' !in b) || (':' !in x && ':' !in y)
    requires a + ":" + x == b + ":" + y
    ensures a == b && x == y
  {
    Pieces(a + ":" + x, a, x);
    Pieces(a + ":" + x, b, y);
  }

  /** A recapture of one file is known by one name, two uploads by two, and neither by the other's. */
  lemma FallbackExact(w: World, a: ArtifactMeta, v: World, b: ArtifactMeta)
    requires PlainMachine(w) && PlainMachine(v)
    ensures FallbackNativeSessionId(w, a) == FallbackNativeSessionId(v, b) <==> SameOrigin(w, a, v, b)
  {
    var x, y := FallbackNativeSessionId(w, a), FallbackNativeSessionId(v, b);
    assert FromFile(w, a) ==> x[0] == 'p';
    assert !FromFile(w, a) ==> x[0] == 's' && x[4..] == FirstSixteen(a.sha256);
    assert FromFile(v, b) ==> y[0] == 'p';
    assert !FromFile(v, b) ==> y[0] == 's' && y[4..] == FirstSixteen(b.sha256);
    if FromFile(w, a) && FromFile(v, b) {
      var m, n := w.context.machineId.value, v.context.machineId.value;
      assert x[5..] == m + ":" + a.sourcePath.value && y[5..] == n + ":" + b.sourcePath.value;
      if x == y {
        ColonSplits(m, a.sourcePath.value, n, b.sourcePath.value);
      }
    }
  }

  lemma {:induction false} DigitsApart(m: nat, n: nat)
    ensures Text.Digits(m) == Text.Digits(n) <==> m == n
    decreases m + n
  {
    if m >= 10 && n >= 10 {
      DigitsApart(m / 10, n / 10);
      var a, b := Text.Digits(m), Text.Digits(n);
      assert a[..|a| - 1] == Text.Digits(m / 10) && b[..|b| - 1] == Text.Digits(n / 10);
      assert a[|a| - 1] == ('0' as int + m % 10) as char && b[|b| - 1] == ('0' as int + n % 10) as char;
    }
  }

  /** Sessions without an id of their own are one when tool, origin and place in the artifact are. */
  lemma KeyExact(w: World, a: ArtifactMeta, s: Session, i: nat, v: World, b: ArtifactMeta, t: Session, j: nat)
    requires PlainMachine(w) && PlainMachine(v)
    requires s.source.nativeSessionId.None? && t.source.nativeSessionId.None?
    ensures KeyOf(w, a, s, i) == KeyOf(v, b, t, j)
      <==> s.source.tool == t.source.tool && i == j && SameOrigin(w, a, v, b)
  {
    FallbackExact(w, a, v, b);
    DigitsApart(i, j);
    hide FallbackNativeSessionId, SameOrigin;
    if KeyOf(w, a, s, i) == KeyOf(v, b, t, j) {
      ColonSplits(FallbackNativeSessionId(w, a), Text.Digits(i), FallbackNativeSessionId(v, b), Text.Digits(j));
    }
  }

  /** And a session with one is known by it and its tool, wherever it was captured. */
  lemma NativeKeyExact(w: World, a: ArtifactMeta, s: Session, i: nat, v: World, b: ArtifactMeta, t: Session, j: nat)
    requires s.source.nativeSessionId.Some? && t.source.nativeSessionId.Some?
    ensures KeyOf(w, a, s, i) == KeyOf(v, b, t, j)
      <==> s.source.tool == t.source.tool && s.source.nativeSessionId == t.source.nativeSessionId
  {
  }

  /** An encoding of names that keeps them apart, as a name-based UUID does. */
  ghost predicate Apart(uuid: string -> string)
  {
    forall a, b :: uuid(a) == uuid(b) ==> a == b
  }

  /**
   * What the parser is told: captures of one tenant in one format are given
   * one session id exactly when they are of one origin, and the machine is the
   * one that captured, or the tenant's stand-in for uploads.
   */
  lemma SeedExact(w: World, a: ArtifactMeta, v: World, b: ArtifactMeta, format: Format)
    requires PlainMachine(w) && PlainMachine(v) && w.context.tenantId == v.context.tenantId
    requires w.uuidV5 == v.uuidV5 && Apart(w.uuidV5)
    ensures SeedOf(w, a, format).id == SeedOf(v, b, format).id <==> SameOrigin(w, a, v, b)
    ensures w.context.machineId.Some? ==> SeedOf(w, a, format).source.machineId == w.context.machineId.value
    ensures w.context.machineId.None? && v.context.machineId.None? ==>
      SeedOf(w, a, format).source.machineId == SeedOf(v, b, format).source.machineId
    ensures a.sourcePath.Some? ==> SeedOf(w, a, format).workspacePath == a.sourcePath.value
  {
    var lead := w.context.tenantId + ":" + format.source + ":" + format.version + ":";
    var x, y := FallbackNativeSessionId(w, a), FallbackNativeSessionId(v, b);
    FallbackExact(w, a, v, b);
    hide FallbackNativeSessionId, SameOrigin;
    assert (lead + x)[|lead|..] == x && (lead + y)[|lead|..] == y;
  }
}
