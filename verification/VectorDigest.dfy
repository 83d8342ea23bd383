/** The digest payload of an identity vector: every component as a signed 64-bit count of 1e-9 units. */
module VectorDigest {
  import opened Prelude
  import opened Framing
  import opened Vectors

  const IV_DOMAIN := "IDP-IV-DIGEST-v1"
  const TWO_63: int := 0x8000_0000_0000_0000

  /** `int(x * 1e9)`: truncation towards zero. */
  function Scaled(x: real): int {
    if x >= 0.0 then (x * 1_000_000_000.0).Floor else -((-x * 1_000_000_000.0).Floor)
  }

  function Wrapped(n: int): nat {
    n % 0x1_0000_0000_0000_0000
  }

  /** Two's complement on eight bytes. */
  function SignedBytes(n: int): (bytes: Bytes)
    ensures |bytes| == 8
  {
    BigEndian(Wrapped(n), 8)
  }

  predicate FitsSigned(n: int) {
    -TWO_63 <= n < TWO_63
  }

  function ComponentBytes(v: Vector): (parts: seq<Bytes>)
    ensures |parts| == |v|
    ensures forall i | 0 <= i < |v| :: parts[i] == SignedBytes(Scaled(v[i]))
  {
    seq(|v|, i requires 0 <= i < |v| => SignedBytes(Scaled(v[i])))
  }

  /** One flat concatenation, with no length in front of the components. */
  function VectorBytes(v: Vector): Bytes {
    Flatten(ComponentBytes(v))
  }

  /** `to_bytes(8, signed=True)` refuses a component outside the signed range. */
  function DigestPayload(v: Vector): Result<Bytes, FramingError> {
    if forall i | 0 <= i < |v| :: FitsSigned(Scaled(v[i]))
    then HashPayload([VectorBytes(v)], IV_DOMAIN)
    else Err(LengthOverflow)
  }

  /** Truncation drops the fraction and never passes zero. */
  lemma ScaledTruncates(x: real)
    ensures x >= 0.0 ==> 0 <= Scaled(x) && Scaled(x) as real <= x * 1_000_000_000.0 < Scaled(x) as real + 1.0
    ensures x <= 0.0 ==> Scaled(x) <= 0 && Scaled(x) as real - 1.0 < x * 1_000_000_000.0 <= Scaled(x) as real
  {
    if x == 0.0 {
      assert (0.0 * 1_000_000_000.0).Floor == 0;
    }
  }

  /** Read as an unsigned number, the bytes of a negative one are 2^64 too large. */
  lemma SignedBytesValue(n: int)
    requires FitsSigned(n)
    ensures FromBigEndian(SignedBytes(n)) == if n >= 0 then n else n + 0x1_0000_0000_0000_0000
  {
    assert Capacity(8) == 0x1_0000_0000_0000_0000;
    BigEndianInverse(Wrapped(n), 8);
  }

  lemma SignedBytesInjective(m: int, n: int)
    requires FitsSigned(m) && FitsSigned(n) && SignedBytes(m) == SignedBytes(n)
    ensures m == n
  {
    SignedBytesValue(m);
    SignedBytesValue(n);
  }

  lemma {:induction false} FlatLength(parts: seq<Bytes>, width: nat)
    requires forall i | 0 <= i < |parts| :: |parts[i]| == width
    ensures |Flatten(parts)| == |parts| * width
  {
    if parts != [] {
      FlatLength(parts[1..], width);
    }
  }

  /** Equal-width blocks can be read back from their concatenation. */
  lemma {:induction false} FlatBlocks(p: seq<Bytes>, q: seq<Bytes>)
    requires forall i | 0 <= i < |p| :: |p[i]| == 8
    requires forall i | 0 <= i < |q| :: |q[i]| == 8
    requires Flatten(p) == Flatten(q)
    ensures p == q
  {
    FlatLength(p, 8);
    FlatLength(q, 8);
    if p != [] {
      assert Flatten(p)[..8] == p[0] && Flatten(q)[..8] == q[0];
      assert Flatten(p)[8..] == Flatten(p[1..]) && Flatten(q)[8..] == Flatten(q[1..]);
      FlatBlocks(p[1..], q[1..]);
      assert p == [p[0]] + p[1..] && q == [q[0]] + q[1..];
    }
  }

  lemma {:induction false} BlockAt(parts: seq<Bytes>, i: nat)
    requires i < |parts| && forall k | 0 <= k < |parts| :: |parts[k]| == 8
    ensures 8 * i + 8 <= |Flatten(parts)| && Flatten(parts)[8 * i..8 * i + 8] == parts[i]
  {
    var flat, rest := Flatten(parts), Flatten(parts[1..]);
    FlatLength(parts, 8);
    assert flat[8..] == rest;
    if i > 0 {
      BlockAt(parts[1..], i - 1);
      assert flat[8 * i..8 * i + 8] == rest[8 * (i - 1)..8 * (i - 1) + 8];
    }
  }

  /** What is digested: under its domain, one part of eight bytes for each component, in order. */
  lemma DigestLayout(v: Vector) returns (flat: Bytes)
    requires DigestPayload(v).Ok?
    ensures Laid(DigestPayload(v).value, "IDP-IV-DIGEST-v1", [flat]) && |flat| == 8 * |v|
    ensures forall i | 0 <= i < |v| :: flat[8 * i..8 * i + 8] == SignedBytes(Scaled(v[i]))
  {
    var parts := ComponentBytes(v);
    flat := Flatten(parts);
    PayloadLayout([VectorBytes(v)], IV_DOMAIN);
    FlatLength(parts, 8);
    forall i | 0 <= i < |v| ensures flat[8 * i..8 * i + 8] == SignedBytes(Scaled(v[i])) {
      BlockAt(parts, i);
    }
  }

  /** The payload determines the dimension and every truncated component, and nothing more. */
  lemma DigestPayloadBinds(u: Vector, v: Vector)
    requires DigestPayload(u).Ok? && DigestPayload(v).Ok?
    ensures DigestPayload(u) == DigestPayload(v)
       <==> |u| == |v| && forall i | 0 <= i < |u| :: Scaled(u[i]) == Scaled(v[i])
  {
    PayloadBinds([VectorBytes(u)], IV_DOMAIN, [VectorBytes(v)], IV_DOMAIN);
    if DigestPayload(u) == DigestPayload(v) {
      assert [VectorBytes(u)][0] == [VectorBytes(v)][0];
      FlatBlocks(ComponentBytes(u), ComponentBytes(v));
      forall i | 0 <= i < |u| ensures Scaled(u[i]) == Scaled(v[i]) {
        SignedBytesInjective(Scaled(u[i]), Scaled(v[i]));
      }
    }
    SameComponents(u, v);
  }

  lemma SameComponents(u: Vector, v: Vector)
    ensures |u| == |v| && (forall i | 0 <= i < |u| :: Scaled(u[i]) == Scaled(v[i])) ==>
      ComponentBytes(u) == ComponentBytes(v)
  {
  }

  /**
    Components sharing a truncation differ by less than 1e-9 when neither is
    negative; truncation towards zero doubles the cell around zero.
  */
  lemma ScaledCell(x: real, y: real)
    requires Scaled(x) == Scaled(y)
    ensures -0.000000002 < x - y < 0.000000002
    ensures (x >= 0.0 && y >= 0.0) || Scaled(x) != 0 ==> -0.000000001 < x - y < 0.000000001
  {
  }

  /** The doubled cell is real: these two components are more than 1e-9 apart. */
  lemma ZeroCellIsWide()
    ensures Scaled(0.0000000009) == Scaled(-0.0000000009)
  {
    assert (0.9).Floor == 0;
  }

  /** Unit vectors are always in range, so compiling one never overflows. */
  lemma UnitVectorFits(v: Vector)
    requires Unit(v) && |v| < 0x2000_0000
    ensures DigestPayload(v).Ok?
  {
    forall i | 0 <= i < |v| ensures FitsSigned(Scaled(v[i])) {
      ComponentOfUnit(v, i, 1.0);
    }
    FlatLength(ComponentBytes(v), 8);
  }

  lemma {:induction false} ComponentOfUnit(v: Vector, i: nat, bound: real)
    requires i < |v| && Dot(v, v) <= bound == 1.0
    ensures -1.0 <= v[i] <= 1.0
  {
    var rest, sum := Dot(v[1..], v[1..]), Dot(v, v);
    SquareNonNegative(v[1..]);
    AddProduct(v[0], v[0], rest, sum);
    if i == 0 {
      SquareAtMostOne(v[0], v[0], rest, sum);
    } else {
      ComponentOfUnit(v[1..], i - 1, bound);
    }
  }

  lemma SquareAtMostOne(x: real, y: real, rest: real, sum: real)
    requires sum == x * y + rest && rest >= 0.0 && sum <= 1.0 && x == y
    ensures -1.0 <= x <= 1.0
  {
    if x > 1.0 {
      Exceeds(x, y, sum - rest);
    } else if x < -1.0 {
      Exceeds(-x, -y, sum - rest);
    }
  }
}
