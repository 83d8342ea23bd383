/** Identity vectors as the registry and the store hold them, and the constants of a deployment. */
module Identity {
  import opened Prelude
  import opened Framing
  import opened Vectors
  import opened VectorDigest

  datatype IdentityVector = IdentityVector(id: string, vector: Vector, digest: string)

  /**
    What a deployment fixes: the library's square root, the hexadecimal hash of a
    payload, the confidence fade `exp(-1 / tau)`, the history window and the
    dimension of its vectors.
  */
  datatype Config = Config(sqrt: real -> real, hash: Bytes -> string, fade: real, k: nat, dim: nat) {
    ghost predicate Valid() {
      SquareRoot(sqrt) && 0.0 < fade < 1.0 && 0 < dim < 0x2000_0000
    }
  }

  /** `None` is the overflow error of a component that does not fit eight bytes. */
  function DigestOf(c: Config, v: Vector): Option<string> {
    match DigestPayload(v)
    case Ok(payload) => Some(c.hash(payload))
    case Err(_) => None
  }

  /** The digest is the hash of the vector as it is laid out. */
  lemma DigestHashes(c: Config, v: Vector) returns (payload: Bytes, flat: Bytes)
    requires DigestOf(c, v).Some?
    ensures DigestOf(c, v) == Some(c.hash(payload)) && Laid(payload, "IDP-IV-DIGEST-v1", [flat])
    ensures |flat| == 8 * |v| && forall i | 0 <= i < |v| :: flat[8 * i..8 * i + 8] == SignedBytes(Scaled(v[i]))
  {
    payload := DigestPayload(v).value;
    flat := DigestLayout(v);
  }

  datatype CompileError = DegenerateInput | Overflow

  /** Compilation from the expanded bytes of the three layers, under the default weights. */
  function Compile(c: Config, id: string, device: Bytes, behavior: Bytes, context: Bytes)
    : Result<IdentityVector, CompileError>
    requires |device| == |behavior| == |context|
  {
    match CompileVector(c.sqrt, device, behavior, context, DEFAULT_LAYER_WEIGHTS)
    case None => Err(DegenerateInput)
    case Some(v) =>
      match DigestOf(c, v)
      case None => Err(Overflow)
      case Some(digest) => Ok(IdentityVector(id, v, digest))
  }

  function Min(m: nat, n: nat): nat {
    if m <= n then m else n
  }

  /**
    The drift update: blend component by component up to the shorter length,
    renormalise, and digest again under the baseline's own id. `None` is the
    division by a zero norm or the overflow error.
  */
  function Updated(c: Config, baseline: IdentityVector, current: IdentityVector, alpha: real): Option<IdentityVector> {
    var n := Min(|baseline.vector|, |current.vector|);
    match Ewma(c.sqrt, baseline.vector[..n], current.vector[..n], alpha)
    case None => None
    case Some(v) =>
      match DigestOf(c, v)
      case None => None
      case Some(digest) => Some(IdentityVector(baseline.id, v, digest))
  }

  /** A unit vector of the deployment's dimension without negative components, digested correctly. */
  ghost predicate WellFormed(c: Config, iv: IdentityVector) {
    && |iv.vector| == c.dim && Unit(iv.vector) && NonNegativeVector(iv.vector)
    && DigestOf(c, iv.vector) == Some(iv.digest)
  }

  /**
    Compilation succeeds unless all the bytes are zero, it never overflows, and
    what it returns is well formed.
  */
  lemma CompileIsWellFormed(c: Config, id: string, device: Bytes, behavior: Bytes, context: Bytes)
    requires c.Valid() && |device| == |behavior| == |context| == c.dim
    ensures var r := Compile(c, id, device, behavior, context);
      if forall i | 0 <= i < c.dim :: device[i] == behavior[i] == context[i] == 0 then r == Err(DegenerateInput)
      else r.Ok? && r.value.id == id && WellFormed(c, r.value)
  {
    CompiledVector(c.sqrt, device, behavior, context);
    var r := CompileVector(c.sqrt, device, behavior, context, DEFAULT_LAYER_WEIGHTS);
    if r.Some? {
      UnitVectorFits(r.value);
    }
  }

  /** The vector points where half the device, three tenths of the behaviour and a fifth of the context bytes point. */
  ghost predicate PointsAlong(v: Vector, device: Bytes, behavior: Bytes, context: Bytes) {
    exists raw, n :: Weighs(raw, device, behavior, context) && Along(v, raw, n)
  }

  /** A compiled vector weighs the three layers, and there is no other unit vector that does. */
  lemma CompileWeighs(c: Config, id: string, device: Bytes, behavior: Bytes, context: Bytes)
    requires c.Valid() && |device| == |behavior| == |context|
    ensures var r := Compile(c, id, device, behavior, context);
      r.Ok? ==> r.value.id == id && PointsAlong(r.value.vector, device, behavior, context)
  {
    if Compile(c, id, device, behavior, context).Ok? {
      var raw, n := CompiledDirection(c.sqrt, device, behavior, context);
    }
  }

  lemma OneDirection(v: Vector, v': Vector, device: Bytes, behavior: Bytes, context: Bytes)
    requires Unit(v) && Unit(v')
    requires PointsAlong(v, device, behavior, context) && PointsAlong(v', device, behavior, context)
    ensures v == v'
  {
    var raw, n :| Weighs(raw, device, behavior, context) && Along(v, raw, n);
    var raw', n' :| Weighs(raw', device, behavior, context) && Along(v', raw', n');
    forall i | 0 <= i < |raw| ensures raw[i] == raw'[i] {
    }
    assert raw == raw';
    OneUnitVector(v, v', raw, n, n');
  }

  /** A drifted vector points where `1 - alpha` of the baseline and `alpha` of the current vector point. */
  lemma UpdateBlends(c: Config, baseline: IdentityVector, current: IdentityVector, alpha: real, beta: real,
                     blend: Vector) returns (n: real)
    requires c.Valid() && beta == 1.0 - alpha && Updated(c, baseline, current, alpha).Some?
    requires |baseline.vector| == |current.vector| == |blend|
    requires forall i | 0 <= i < |blend| :: blend[i] == beta * baseline.vector[i] + alpha * current.vector[i]
    ensures Along(Updated(c, baseline, current, alpha).value.vector, blend, n)
  {
    var m := |blend|;
    assert baseline.vector[..m] == baseline.vector && current.vector[..m] == current.vector;
    n := EwmaDirection(c.sqrt, baseline.vector, current.vector, alpha, beta, blend);
  }

  /** An update never fails on well-formed vectors; it keeps the id and the form, and re-digests. */
  lemma UpdateIsWellFormed(c: Config, baseline: IdentityVector, current: IdentityVector, alpha: real, d: real)
    requires c.Valid() && 0.0 < alpha < 1.0 && WellFormed(c, baseline) && WellFormed(c, current)
    requires d == Distance(baseline.vector, current.vector)
    ensures Updated(c, baseline, current, alpha).Some?
    ensures var r := Updated(c, baseline, current, alpha).value;
      && WellFormed(c, r) && r.id == baseline.id
      && Distance(r.vector, baseline.vector) <= alpha * d && Distance(r.vector, current.vector) <= (1.0 - alpha) * d
  {
    var b, v := baseline.vector, current.vector;
    assert b[..c.dim] == b && v[..c.dim] == v;
    var beta := 1.0 - alpha;
    EwmaContracts(c.sqrt, b, v, alpha, beta, d);
    UnitVectorFits(Ewma(c.sqrt, b, v, alpha).value);
  }
}
