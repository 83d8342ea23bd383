/**
  The length-prefixed payload that is hashed: a two-byte domain length, the
  domain, then a four-byte length in front of every part.
*/
module Framing {
  import opened Prelude

  type Bytes = seq<byte>

  /** `n` on `width` bytes, most significant first; higher bytes are cut off. */
  function BigEndian(n: nat, width: nat): (bytes: Bytes)
    ensures |bytes| == width
  {
    if width == 0 then [] else BigEndian(n / 256, width - 1) + [n % 256]
  }

  function FromBigEndian(bytes: Bytes): nat {
    if bytes == [] then 0
    else 256 * FromBigEndian(bytes[..|bytes| - 1]) + bytes[|bytes| - 1]
  }

  function Capacity(width: nat): nat {
    if width == 0 then 1 else 256 * Capacity(width - 1)
  }

  lemma {:induction false} BigEndianInverse(n: nat, width: nat)
    requires n < Capacity(width)
    ensures FromBigEndian(BigEndian(n, width)) == n
  {
    if width > 0 {
      BigEndianInverse(n / 256, width - 1);
      assert BigEndian(n, width)[..width - 1] == BigEndian(n / 256, width - 1);
    }
  }

  function Flatten(parts: seq<Bytes>): Bytes {
    if parts == [] then [] else parts[0] + Flatten(parts[1..])
  }

  lemma {:induction false} FlattenAppend(a: seq<Bytes>, b: seq<Bytes>)
    ensures Flatten(a + b) == Flatten(a) + Flatten(b)
  {
    if a == [] {
      assert a + b == b;
    } else {
      FlattenAppend(a[1..], b);
      assert (a + b)[1..] == a[1..] + b;
      assert a[0] + (Flatten(a[1..]) + Flatten(b)) == (a[0] + Flatten(a[1..])) + Flatten(b);
    }
  }

  function FrameParts(parts: seq<Bytes>): Bytes {
    if parts == [] then []
    else BigEndian(|parts[0]|, 4) + parts[0] + FrameParts(parts[1..])
  }

  function Frame(domain: Bytes, parts: seq<Bytes>): Bytes {
    BigEndian(|domain|, 2) + domain + FrameParts(parts)
  }

  /** The exceptions of the payload expression. */
  datatype FramingError = DomainRequired | DomainNotAscii | LengthOverflow

  predicate Ascii(s: string) {
    forall i | 0 <= i < |s| :: (s[i] as int) < 128
  }

  function AsciiBytes(s: string): (bytes: Bytes)
    requires Ascii(s)
    ensures |bytes| == |s|
  {
    seq(|s|, i requires 0 <= i < |s| => s[i] as int)
  }

  predicate FitsFrame(domain: string, parts: seq<Bytes>) {
    |domain| < 0x1_0000 && forall i | 0 <= i < |parts| :: |parts[i]| < 0x1_0000_0000
  }

  function HashPayload(parts: seq<Bytes>, domain: string): Result<Bytes, FramingError> {
    if domain == "" then Err(DomainRequired)
    else if !Ascii(domain) then Err(DomainNotAscii)
    else if !FitsFrame(domain, parts) then Err(LengthOverflow)
    else Ok(Frame(AsciiBytes(domain), parts))
  }

  // ---- the layout --------------------------------------------------------

  /** One more byte counts the bytes before it 256 times. */
  lemma FromBigEndianGrows(bytes: Bytes, last: byte)
    ensures FromBigEndian([]) == 0
    ensures FromBigEndian(bytes + [last]) == 256 * FromBigEndian(bytes) + last as int
  {
    assert (bytes + [last])[..|bytes|] == bytes;
  }

  /** Where part `k` begins, its length prefix included. */
  function Offset(start: nat, parts: seq<Bytes>, k: nat): nat
    requires k <= |parts|
  {
    if k == 0 then start else Offset(start, parts, k - 1) + 4 + |parts[k - 1]|
  }

  /** From byte `at` on: the length of `part` on four bytes, then the part. */
  predicate Prefixed(payload: Bytes, at: nat, part: Bytes) {
    && at + 4 + |part| <= |payload|
    && FromBigEndian(payload[at..at + 4]) == |part| && payload[at + 4..at + 4 + |part|] == part
  }

  /** Part `k` is where the parts before it end. */
  predicate PrefixedAt(payload: Bytes, at: nat, parts: seq<Bytes>, k: nat) {
    k < |parts| && Prefixed(payload, Offset(at, parts, k), parts[k])
  }

  /** The domain behind its length on two bytes, then every part behind its own, and nothing else. */
  predicate Laid(payload: Bytes, domain: string, parts: seq<Bytes>) {
    var start := 2 + |domain|;
    && start <= |payload| == Offset(start, parts, |parts|)
    && FromBigEndian(payload[..2]) == |domain|
    && (forall i | 0 <= i < |domain| :: payload[2 + i] == domain[i] as int)
    && (forall k | 0 <= k < |parts| :: PrefixedAt(payload, start, parts, k))
  }

  lemma {:induction false} OffsetPast(start: nat, parts: seq<Bytes>, k: nat)
    requires parts != [] && k <= |parts| - 1
    ensures Offset(start, parts, k + 1) == Offset(start + 4 + |parts[0]|, parts[1..], k)
  {
    if k > 0 {
      OffsetPast(start, parts, k - 1);
    }
  }

  lemma Pieces(s: Bytes, at: nat, a: Bytes, b: Bytes, c: Bytes)
    requires at <= |s| && s[at..] == a + b + c
    ensures at + |a| + |b| <= |s|
    ensures s[at..at + |a|] == a && s[at + |a|..at + |a| + |b|] == b && s[at + |a| + |b|..] == c
  {
    var here := s[at..];
    assert |here| == |a| + |b| + |c|;
    assert here[..|a|] == a && here[|a|..|a| + |b|] == b && here[|a| + |b|..] == c;
    assert s[at..at + |a|] == here[..|a|];
    assert s[at + |a|..at + |a| + |b|] == here[|a|..|a| + |b|];
  }

  lemma PrefixedThere(payload: Bytes, at: nat, length: Bytes, part: Bytes, rest: Bytes)
    requires |length| == 4 && FromBigEndian(length) == |part|
    requires at <= |payload| && payload[at..] == length + part + rest
    ensures Prefixed(payload, at, part) && payload[at + 4 + |part|..] == rest
  {
    Pieces(payload, at, length, part, rest);
  }

  lemma FourBytes(n: nat, length: Bytes)
    requires n < 0x1_0000_0000 && length == BigEndian(n, 4)
    ensures |length| == 4 && FromBigEndian(length) == n
  {
    assert Capacity(4) == 0x1_0000_0000;
    BigEndianInverse(n, 4);
  }

  lemma PrefixedLater(payload: Bytes, at: nat, parts: seq<Bytes>, k: nat)
    requires parts != [] && PrefixedAt(payload, at + 4 + |parts[0]|, parts[1..], k)
    ensures PrefixedAt(payload, at, parts, k + 1)
  {
    OffsetPast(at, parts, k);
  }

  lemma {:induction false} PartsLaid(payload: Bytes, at: nat, parts: seq<Bytes>)
    requires forall i | 0 <= i < |parts| :: |parts[i]| < 0x1_0000_0000
    requires at <= |payload| && payload[at..] == FrameParts(parts)
    ensures |payload| == Offset(at, parts, |parts|)
    ensures forall k | 0 <= k < |parts| :: PrefixedAt(payload, at, parts, k)
    decreases |parts|
  {
    if parts != [] {
      FourBytes(|parts[0]|, BigEndian(|parts[0]|, 4));
      PrefixedThere(payload, at, BigEndian(|parts[0]|, 4), parts[0], FrameParts(parts[1..]));
      PartsLaid(payload, at + 4 + |parts[0]|, parts[1..]);
      OffsetPast(at, parts, |parts| - 1);
      forall k | 0 <= k < |parts| ensures PrefixedAt(payload, at, parts, k) {
        if k > 0 {
          PrefixedLater(payload, at, parts, k - 1);
        }
      }
    }
  }

  /** What is hashed, byte by byte. */
  lemma PayloadLayout(parts: seq<Bytes>, domain: string)
    requires HashPayload(parts, domain).Ok?
    ensures Laid(HashPayload(parts, domain).value, domain, parts)
  {
    var payload, length, d := HashPayload(parts, domain).value, BigEndian(|domain|, 2), AsciiBytes(domain);
    assert Capacity(2) == 0x1_0000;
    BigEndianInverse(|domain|, 2);
    assert payload[2 + |domain|..] == FrameParts(parts);
    PartsLaid(payload, 2 + |domain|, parts);
    assert payload[..2] == length;
    forall i | 0 <= i < |domain| ensures payload[2 + i] == domain[i] as int {
      assert payload[2 + i] == d[i];
    }
  }

  // ---- unique decoding ---------------------------------------------------

  /** A length prefix fixes where its content ends, so both content and rest are determined. */
  lemma PrefixedSplit(width: nat, a: Bytes, x: Bytes, b: Bytes, y: Bytes)
    requires |a| < Capacity(width) && |b| < Capacity(width)
    requires BigEndian(|a|, width) + a + x == BigEndian(|b|, width) + b + y
    ensures a == b && x == y
  {
    SplitAfterPrefix(BigEndian(|a|, width), a, x, BigEndian(|b|, width), b, y);
    BigEndianInverse(|a|, width);
    BigEndianInverse(|b|, width);
    SameLengthSplit(a, x, b, y);
  }

  lemma SplitAfterPrefix(p: Bytes, a: Bytes, x: Bytes, q: Bytes, b: Bytes, y: Bytes)
    requires |p| == |q| && p + a + x == q + b + y
    ensures p == q && a + x == b + y
  {
    assert p + (a + x) == p + a + x && q + (b + y) == q + b + y;
    SameLengthSplit(p, a + x, q, b + y);
  }

  lemma SameLengthSplit(p: Bytes, x: Bytes, q: Bytes, y: Bytes)
    requires |p| == |q| && p + x == q + y
    ensures p == q && x == y
  {
    assert (p + x)[..|p|] == p && (q + y)[..|q|] == q;
    assert (p + x)[|p|..] == x && (q + y)[|q|..] == y;
  }

  lemma {:induction false} PartsSplit(p: seq<Bytes>, q: seq<Bytes>)
    requires forall i | 0 <= i < |p| :: |p[i]| < 0x1_0000_0000
    requires forall i | 0 <= i < |q| :: |q[i]| < 0x1_0000_0000
    requires FrameParts(p) == FrameParts(q)
    ensures p == q
  {
    assert Capacity(4) == 0x1_0000_0000;
    assert p != [] ==> |FrameParts(p)| >= 4;
    assert q != [] ==> |FrameParts(q)| >= 4;
    if p != [] && q != [] {
      PrefixedSplit(4, p[0], FrameParts(p[1..]), q[0], FrameParts(q[1..]));
      PartsSplit(p[1..], q[1..]);
      assert p == [p[0]] + p[1..] && q == [q[0]] + q[1..];
    }
  }

  lemma AsciiBytesInjective(s: string, t: string)
    requires Ascii(s) && Ascii(t) && AsciiBytes(s) == AsciiBytes(t)
    ensures s == t
  {
    forall i | 0 <= i < |s| ensures s[i] == t[i] {
      assert AsciiBytes(s)[i] == AsciiBytes(t)[i];
    }
  }

  /** Two payloads are equal only for the same domain and the same list of parts. */
  lemma PayloadBinds(parts: seq<Bytes>, domain: string, parts': seq<Bytes>, domain': string)
    requires HashPayload(parts, domain).Ok? && HashPayload(parts', domain').Ok?
    ensures HashPayload(parts, domain) == HashPayload(parts', domain') <==> parts == parts' && domain == domain'
  {
    if HashPayload(parts, domain) == HashPayload(parts', domain') {
      assert Capacity(2) == 0x1_0000;
      PrefixedSplit(2, AsciiBytes(domain), FrameParts(parts), AsciiBytes(domain'), FrameParts(parts'));
      AsciiBytesInjective(domain, domain');
      PartsSplit(parts, parts');
    }
  }
}
