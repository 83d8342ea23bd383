/**
  The TypeScript client's buffer code: it fills byte arrays at moving offsets
  where the Python server joins byte strings, and loops over numbers where the
  server sums.
*/
module TsBuffers {
  import opened Prelude
  import opened Framing
  import opened VectorDigest
  import opened Vectors
  import Utf8

  type Uint8Array = array<byte>

  function Contents(arrays: seq<Uint8Array>): (parts: seq<Bytes>)
    reads arrays
    ensures |parts| == |arrays| && forall i | 0 <= i < |parts| :: parts[i] == arrays[i][..]
  {
    seq(|arrays|, i requires 0 <= i < |arrays| reads arrays => arrays[i][..])
  }

  // ---- lengths -----------------------------------------------------------

  /** `setUint32(0, n, false)` on a fresh buffer: wraps at 2^32. */
  method U32be(n: nat) returns (b: Uint8Array)
    ensures fresh(b) && b[..] == BigEndian(n, 4)
  {
    b := new byte[4][n / 256 / 256 / 256 % 256, n / 256 / 256 % 256, n / 256 % 256, n % 256];
    assert BigEndian(n / 256 / 256 / 256, 1) == [n / 256 / 256 / 256 % 256];
    assert BigEndian(n / 256 / 256, 2) == [n / 256 / 256 / 256 % 256, n / 256 / 256 % 256];
    assert BigEndian(n / 256, 3) == [n / 256 / 256 / 256 % 256, n / 256 / 256 % 256, n / 256 % 256];
  }

  /** `setUint16(0, n, false)` on a fresh buffer: wraps at 2^16. */
  method U16be(n: nat) returns (b: Uint8Array)
    ensures fresh(b) && b[..] == BigEndian(n, 2)
  {
    b := new byte[2][n / 256 % 256, n % 256];
    assert BigEndian(n / 256, 1) == [n / 256 % 256];
  }

  method ToArray(bytes: Bytes) returns (b: Uint8Array)
    ensures fresh(b) && b[..] == bytes
  {
    b := new byte[|bytes|](i requires 0 <= i < |bytes| => bytes[i]);
  }

  // ---- concatenation -----------------------------------------------------

  lemma FlattenPrefix(parts: seq<Bytes>, i: nat)
    requires i < |parts|
    ensures Flatten(parts[..i + 1]) == Flatten(parts[..i]) + parts[i]
    ensures |Flatten(parts[..i + 1])| <= |Flatten(parts)|
  {
    assert parts[..i + 1] == parts[..i] + [parts[i]] && parts == parts[..i + 1] + parts[i + 1..];
    FlattenAppend(parts[..i], [parts[i]]);
    FlattenAppend(parts[..i + 1], parts[i + 1..]);
    assert Flatten([parts[i]]) == parts[i] + Flatten([parts[i]][1..]) == parts[i];
  }

  method TotalLength(arrays: seq<Uint8Array>) returns (total: nat)
    ensures total == |Flatten(Contents(arrays))|
  {
    total := 0;
    var i := 0;
    ghost var parts := Contents(arrays);
    while i < |arrays|
      invariant 0 <= i <= |arrays|
      invariant total == |Flatten(parts[..i])|
    {
      FlattenPrefix(parts, i);
      total := total + arrays[i].Length;
      i := i + 1;
    }
    assert parts[..|parts|] == parts;
  }

  /** `out.set(a, offset)`. */
  method Set(out: Uint8Array, a: Uint8Array, offset: nat)
    requires out != a && offset + a.Length <= out.Length
    modifies out
    ensures out[..offset + a.Length] == old(out[..offset]) + a[..]
  {
    forall k | 0 <= k < a.Length {
      out[offset + k] := a[k];
    }
  }

  /** One buffer, filled array by array at a moving offset, holds the concatenation. */
  method ConcatBytes(arrays: seq<Uint8Array>) returns (out: Uint8Array)
    ensures fresh(out) && out[..] == Flatten(Contents(arrays))
  {
    var total := TotalLength(arrays);
    out := new byte[total](_ => 0);
    var offset, i := 0, 0;
    ghost var parts := Contents(arrays);
    while i < |arrays|
      invariant 0 <= i <= |arrays| && 0 <= offset <= total
      invariant Contents(arrays) == parts && out.Length == total
      invariant out[..offset] == Flatten(parts[..i])
    {
      FlattenPrefix(parts, i);
      Set(out, arrays[i], offset);
      offset := offset + arrays[i].Length;
      i := i + 1;
    }
    assert parts[..|parts|] == parts;
  }

  // ---- the hashed payload ------------------------------------------------

  /** The payload that the client hashes; only an empty domain is refused. */
  function TsPayload(parts: seq<Bytes>, domain: string): Option<Bytes> {
    if domain == "" then None else Some(Frame(Utf8.Encode(domain), parts))
  }

  lemma ContentsAppend(a: seq<Uint8Array>, b: seq<Uint8Array>)
    ensures Contents(a + b) == Contents(a) + Contents(b)
  {
  }

  lemma FlattenTwo(a: Bytes, b: Bytes)
    ensures Flatten([a, b]) == a + b && Flatten([a]) == a
  {
    assert [a, b][1..] == [b] && [b][1..] == [] && [a][1..] == [];
    assert Flatten([a]) == a + [] && Flatten([b]) == b + [];
  }

  /** Pushing a length and its part moves that part from the frame still to come to the bytes pushed. */
  lemma PushPart(pushed: seq<Bytes>, all: seq<Bytes>, i: nat)
    requires i < |all|
    ensures Flatten(pushed + [BigEndian(|all[i]|, 4), all[i]]) + FrameParts(all[i + 1..]) ==
      Flatten(pushed) + FrameParts(all[i..])
  {
    var part, length := all[i], BigEndian(|all[i]|, 4);
    FlattenAppend(pushed, [length, part]);
    FlattenTwo(length, part);
    assert all[i..][1..] == all[i + 1..];
    Regroup(Flatten(pushed), length + part, FrameParts(all[i + 1..]));
  }

  lemma Regroup(x: Bytes, y: Bytes, z: Bytes)
    ensures (x + y) + z == x + (y + z)
  {
  }

  /** The list that the client concatenates: the prefix, then a length and a part for every part. */
  method PushParts(prefix: Uint8Array, parts: seq<Uint8Array>) returns (payloadParts: seq<Uint8Array>)
    ensures Flatten(Contents(payloadParts)) == prefix[..] + FrameParts(Contents(parts))
  {
    payloadParts := [prefix];
    ghost var all, pushed := Contents(parts), [prefix[..]];
    ghost var goal := prefix[..] + FrameParts(all);
    FlattenTwo(prefix[..], prefix[..]);
    var i := 0;
    while i < |parts|
      invariant 0 <= i <= |parts|
      invariant Contents(parts) == all && Contents(payloadParts) == pushed
      invariant Flatten(pushed) + FrameParts(all[i..]) == goal
    {
      var length := U32be(parts[i].Length);
      PushPart(pushed, all, i);
      ContentsAppend(payloadParts, [length, parts[i]]);
      payloadParts := payloadParts + [length, parts[i]];
      pushed := pushed + [length[..], parts[i][..]];
      i := i + 1;
    }
    assert Flatten(pushed) + FrameParts([]) == Flatten(pushed);
  }

  /** One concatenation of that list is the frame. */
  method HashPayloadTs(parts: seq<Uint8Array>, domain: string) returns (payload: Option<Uint8Array>)
    ensures payload.Some? <==> TsPayload(Contents(parts), domain).Some?
    ensures payload.Some? ==> fresh(payload.value) && Some(payload.value[..]) == TsPayload(Contents(parts), domain)
  {
    if domain == "" {
      return None;
    }
    var domainBytes := ToArray(Utf8.Encode(domain));
    var domainLength := U16be(domainBytes.Length);
    var prefix := ConcatBytes([domainLength, domainBytes]);
    assert Contents([domainLength, domainBytes]) == [domainLength[..], domainBytes[..]];
    FlattenTwo(domainLength[..], domainBytes[..]);
    var payloadParts := PushParts(prefix, parts);
    var out := ConcatBytes(payloadParts);
    payload := Some(out);
  }

  /**
    The two languages agree, by hashing the same bytes or by both refusing, exactly
    when the domain is empty or the server's expression raises no exception; where
    it does raise one, the client hashes UTF-8 and lengths cut to their low bytes.
  */
  lemma PayloadsAgree(parts: seq<Bytes>, domain: string)
    ensures HashPayload(parts, domain).Ok? ==> TsPayload(parts, domain) == Some(HashPayload(parts, domain).value)
    ensures (HashPayload(parts, domain).Ok? <==> TsPayload(parts, domain).Some?)
       <==> domain == "" || (Ascii(domain) && FitsFrame(domain, parts))
  {
    if Ascii(domain) {
      Utf8.EncodeAscii(domain);
    }
  }

  // ---- identity vectors --------------------------------------------------

  lemma DotStep(u: Vector, v: Vector, i: nat, term: real)
    requires i < |u| && i < |v| && term == u[i] * v[i]
    ensures Dot(u[i..], v[i..]) == term + Dot(u[i + 1..], v[i + 1..])
  {
    assert u[i..][1..] == u[i + 1..] && v[i..][1..] == v[i + 1..];
  }

  /** A JavaScript sum: `None` is NaN, which every further addition keeps. */
  function Plus(sum: Option<real>, term: Option<real>): Option<real> {
    if sum.Some? && term.Some? then Some(sum.value + term.value) else None
  }

  /** `u[i] * v[i]`, where an element past the end of `v` is undefined and makes the product NaN. */
  function TermAt(u: seq<real>, v: seq<real>, i: nat): Option<real>
    requires i < |u|
  {
    if i < |v| then Some(u[i] * v[i]) else None
  }

  /** The server's sum when the second vector is long enough; NaN where the server would stop early. */
  method CosineSimilarity(u: seq<real>, v: seq<real>) returns (sum: Option<real>)
    ensures sum == if |u| <= |v| then Some(Dot(u, v)) else None
  {
    sum := Some(0.0);
    var i := 0;
    while i < |u|
      invariant 0 <= i <= |u|
      invariant i <= |v| ==> sum.Some? && sum.value + Dot(u[i..], v[i..]) == Dot(u, v)
      invariant i > |v| ==> sum == None
    {
      var term := TermAt(u, v, i);
      if i < |v| {
        DotStep(u, v, i, term.value);
      }
      sum := Plus(sum, term);
      i := i + 1;
    }
  }

  method WeightedSumTs(vd: seq<real>, vb: seq<real>, vc: seq<real>, w: LayerWeights) returns (out: array<real>)
    requires |vd| == |vb| == |vc|
    ensures fresh(out) && out[..] == WeightedSum(vd, vb, vc, w)
  {
    out := new real[|vd|];
    ghost var goal := WeightedSum(vd, vb, vc, w);
    var i := 0;
    while i < |vd|
      invariant 0 <= i <= |vd|
      invariant forall k | 0 <= k < i :: out[k] == goal[k]
    {
      out[i] := vd[i] * w.device + vb[i] * w.behavior + vc[i] * w.context;
      i := i + 1;
    }
  }

  method L2NormalizeTs(sqrt: real -> real, v: seq<real>) returns (r: Option<seq<real>>)
    ensures r == L2Normalize(sqrt, v)
  {
    var normSq := 0.0;
    var i := 0;
    while i < |v|
      invariant 0 <= i <= |v|
      invariant normSq + Dot(v[i..], v[i..]) == Dot(v, v)
    {
      var term := v[i] * v[i];
      DotStep(v, v, i, term);
      normSq := normSq + term;
      i := i + 1;
    }
    var norm := sqrt(normSq);
    if norm == 0.0 {
      return None;
    }
    r := Some(Divide(v, norm));
  }

  /** `Math.trunc`: the floor of a positive number and the ceiling of a negative one. */
  function Trunc(y: real): int {
    if y < 0.0 then Ceiling(y) else y.Floor
  }

  function Ceiling(y: real): int {
    if y.Floor as real == y then y.Floor else y.Floor + 1
  }

  /** The client truncates as the server's `int()` does. */
  lemma TruncIsScaled(x: real)
    ensures Trunc(x * 1_000_000_000.0) == Scaled(x)
  {
    var y := x * 1_000_000_000.0;
    assert -x * 1_000_000_000.0 == -y;
  }

  /**
    `setBigInt64` on a fresh buffer, from the truncated count of 1e-9 units: the
    bytes are the server's, and where the server has any they read back as the count
    (2^64 too large when it is negative). Elsewhere they wrap at 2^64.
  */
  method ToBytesBE(x: real) returns (b: Uint8Array)
    ensures fresh(b) && b[..] == SignedBytes(Scaled(x))
    ensures FitsSigned(Scaled(x)) ==>
      FromBigEndian(b[..]) == if Scaled(x) >= 0 then Scaled(x) else Scaled(x) + 0x1_0000_0000_0000_0000
  {
    var scaled := Trunc(x * 1_000_000_000.0);
    TruncIsScaled(x);
    var w := scaled % 0x1_0000_0000_0000_0000;
    var w1 := w / 256;
    var w2 := w1 / 256;
    var w3 := w2 / 256;
    var w4 := w3 / 256;
    var w5 := w4 / 256;
    var w6 := w5 / 256;
    var w7 := w6 / 256;
    b := new byte[8][w7 % 256, w6 % 256, w5 % 256, w4 % 256, w3 % 256, w2 % 256, w1 % 256, w % 256];
    assert BigEndian(w7, 1) == [w7 % 256];
    assert BigEndian(w6, 2) == [w7 % 256, w6 % 256];
    assert BigEndian(w5, 3) == [w7 % 256, w6 % 256, w5 % 256];
    assert BigEndian(w4, 4) == [w7 % 256, w6 % 256, w5 % 256, w4 % 256];
    assert BigEndian(w3, 5) == BigEndian(w4, 4) + [w3 % 256];
    assert BigEndian(w2, 6) == BigEndian(w3, 5) + [w2 % 256];
    assert BigEndian(w1, 7) == BigEndian(w2, 6) + [w1 % 256];
    assert BigEndian(w, 8) == BigEndian(w1, 7) + [w % 256];
    if FitsSigned(Scaled(x)) {
      SignedBytesValue(Scaled(x));
    }
  }

  /** The one buffer that a vector's digest is taken over. */
  method VectorBuffer(v: seq<real>) returns (out: Uint8Array)
    ensures fresh(out) && out[..] == VectorBytes(v)
  {
    var chunks: seq<Uint8Array> := [];
    var i := 0;
    while i < |v|
      invariant 0 <= i <= |v| && |chunks| == i
      invariant forall k | 0 <= k < i :: chunks[k][..] == SignedBytes(Scaled(v[k]))
    {
      var chunk := ToBytesBE(v[i]);
      chunks := chunks + [chunk];
      i := i + 1;
    }
    assert Contents(chunks) == ComponentBytes(v);
    out := ConcatBytes(chunks);
  }

  /** In range, the client's digest payload of a vector is the server's. */
  lemma DigestPayloadsAgree(v: Vector)
    requires DigestPayload(v).Ok?
    ensures TsPayload([VectorBytes(v)], IV_DOMAIN) == Some(DigestPayload(v).value)
  {
    PayloadsAgree([VectorBytes(v)], IV_DOMAIN);
  }
}
