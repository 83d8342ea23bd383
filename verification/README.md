# IdentityDNA reference server: a verified model

A Dafny model of the IdentityDNA Protocol's reference server, and of the buffer
and canonicalisation code of its TypeScript client. A handshake of three client
messages compiles a subject's signals into an identity vector, checks a signature
over the transcript, scores the session against the subject's enrolled baseline
and its own past outcomes, and issues a rotating session credential.

The modules follow the program:

- `Prelude`, `History`, `Vectors`, `Scoring`: the arithmetic, over `real`. The
  history window, the identity-vector geometry, the score and the decision.
- `Framing`, `VectorDigest`, `Utf8`, `Json`, `CanonicalJson`, `Transcript`: what
  is hashed and signed, byte by byte.
- `TsBuffers`: the TypeScript code that fills byte arrays at moving offsets.
- `Identity`, `Storage`, `Registry`, `TrustHistories`: the store and the two
  caches over it, as classes.
- `TrustLoop`: the closed loop in which a session is judged on the outcomes of
  earlier ones and leaves its own.
- `Sessions`: the session store, its rotation chain, and runs over it.
- `Handshake`, `Gateway`: the handshake's steps as functions on values, and the
  gateway class whose handlers are proved equal to them.
- `Attempts`, `World`: handshakes with what they accepted, and whole runs of
  interleaved handshakes, renewals, revocations and restarts.
- `Service`: the running process as a class, with its context objects, caches and
  restarts, proved to go where `World` goes.
- `Replay`: proofs and sessions across the handshakes of a run.
- `Client`: the client's message builders, the honest run, and a new subject's
  first two handshakes.
- `FirstLogins`: those two handshakes as events of a run, from an empty store on.

## How the program is represented

- Floats are `real`. `exp(-n / tau)` is `fade ** n` for any `fade` strictly
  between 0 and 1, and `lam ** i` is a recursive power.
- The square root is a function parameter, relied on only for being non-negative
  and squaring back (`Vectors.SquareRoot`). The hash is a parameter from payloads
  to strings, signature verification and key agreement are parameters, and the
  two session key derivations are constructors of a term. Where a result needs a
  hash without collisions or a sound signature, it says so in its `requires`.
- Every handler is one atomic step. Clock readings, random values and new ids are
  inputs. `World.Possible` says that the ids of new handshakes and sessions are
  new and that clocks do not run back; nothing is assumed of vector and message
  ids. Only `Replay` assumes more: that the server draws no ephemeral key twice.
- A baseline row and a history row are what the SQLite tables hold; a restart
  drops both caches, all handshakes and all sessions, and keeps the tables.
- An exception other than a protocol error is `Uncaught`; the state it leaves
  behind is modelled.

## Where the code differs from its documentation

- `CHANGELOG.md` (lines 41-43) says that repeated logins progress to STEP_UP
  "instead of being stuck at DENY forever", and section 3.3.1 of
  `docs/mathematics/formal-model.md` that the deadlock is gone. The code has an
  absorbing lockout: a subject is denied for ever exactly when
  `35 * conf + 15 + 0.30 * h < 50` for its history score `h`
  (`TrustLoop.LockoutIsExact`). A denied first recorded session always leads there
  (`TrustLoop.FirstRecordedDenialIsFinal`). Steady use, that is the same vector
  and signals each time, progresses as described exactly when `TrustLoop.Passes`
  holds of those signals (`TrustLoop.SteadyProgression`), and otherwise ends in the
  lockout with the second session (`TrustLoop.SteadyLockout`). Both ends are
  reached by honest clients of an empty server (`FirstLogins.BothEndsAreReached`).
- Under the default weights ALLOW is out of reach, so the drift update never runs
  (`World.ProofInRun`). The same section says a first session can reach STEP_UP at
  best; it is always denied.
- Section 2.3 of the formal model asks for ERR_MALFORMED when a vector has zero
  norm; the gateway lets the compiler's exception escape
  (`Attempts.ZeroNormEscapes`), as it does when a consent expires between its own
  check and the compiler's (`Attempts.ExpiringConsentEscapes`) and when the receipt
  id is a list or a dictionary (`Attempts.UnhashableReceiptEscapes`).
  `Attempts.EntropyOutcome` says exactly when an exception escapes.
- A renewal reads the clock once to validate and once to rotate, so a generation
  can outlive birth plus one interval per generation
  (`Sessions.RenewalLagExtendsLife`). It does not, over a whole run, exactly when
  every generation was issued within its interval after birth
  (`Sessions.BoundOverRun`, `World.BoundInRun`).
- `canonical_json` is described as RFC 8785 style. Section 3.2.3 of RFC 8785 sorts
  keys by UTF-16 code unit; Python sorts by code point and TypeScript by code
  unit, so they disagree on keys that mix characters above U+FFFF with characters
  from U+E000 up (`CanonicalJson.CrossedKeysExist`), and on numbers that they print
  differently (`CanonicalJson.WholeFloatsDiffer`). `CanonicalJson.LanguagesAgree`
  gives the exact condition.
- The documented range of the distance is [0, 2]; compiled vectors stay in [0, 1].

## Model

| member | source | states |
|---|---|---|
| `History.WeightedRecency` | reference/trust-engine/history.py:29-44 | the accumulation loop, newest outcome first, computes the score that `ScoreGrows` determines; the defensive clamp never changes it; an empty window scores 50 |
| `History.ScoreInRange` | reference/trust-engine/history.py:41-44 | every window scores within [0, 100] without the clamp |
| `History.UniformScore` | reference/trust-engine/history.py:27-44 | matches only score exactly 100, failures only exactly 0 |
| `History.ScoreGrows` | reference/trust-engine/history.py:27-44 | the recurrence that determines the score of a growing window, for any decay: the score times 1 - lam ** n takes a new match at 100 * (1 - lam) and what was there before at lam |
| `History.ScoreSlides` | reference/trust-engine/history.py:24-44 | the recurrence of a full window, in which the oldest outcome leaves with the weight it had left |
| `History.RecordIsMonotone` | reference/trust-engine/history.py:18-44 | for any decay in (0, 1), any window size and any window, recording a match never lowers the score and a failure never raises it, also when the full window evicts its oldest outcome |
| `History.AppendedIsWindow` | reference/trust-engine/history.py:24-25 | a bounded deque fed one outcome is the most recent window of the longer log |
| `History.WindowIsEnd` | reference/trust-engine/history.py:24-25 | the window is the log's own end, as long as the log and the bound allow |
| `Vectors.DistanceRange` | reference/identity-engine/identity_vector.py:39-46 | for unit vectors of any dimension the distance lies in [0, 2], is symmetric, is zero only between equal vectors, and is at most 1 without negative components |
| `Vectors.DistanceIsHalfSquare` | reference/identity-engine/identity_vector.py:39-46 | the distance of unit vectors is half the squared length of their difference |
| `Vectors.ExpandVector` | reference/crypto/primitives.py:63-70 | every expanded component lies in [0, 1] and is zero only for a zero byte |
| `Vectors.NormalizedIsUnit` | reference/identity-engine/identity_vector.py:56-60 | normalisation fails on the zero vector only, gives a unit vector, and introduces no negative component |
| `Vectors.CompiledVector` | reference/identity-engine/identity_vector.py:79-84 | under the default layer weights compilation is rejected exactly when all three layers expand to zero bytes, and otherwise gives a non-negative unit vector |
| `Vectors.EwmaUndefined` | reference/identity-engine/relationship.py:58-64 | blending two unit vectors divides by zero exactly when they are opposite and alpha is one half |
| `Vectors.EwmaContracts` | reference/identity-engine/relationship.py:58-74 | one update keeps the baseline a non-negative unit vector, brings it within (1 - alpha) times the old distance of the accepted vector, and moves it by at most alpha times that distance |
| `Vectors.EwmaConverges` | reference/identity-engine/relationship.py:47-74 | n updates towards one vector leave at most (1 - alpha) ** n of the distance |
| `VectorDigest.DigestPayloadBinds` | reference/identity-engine/identity_vector.py:86-90 | two vectors have the same digest payload exactly when they have the same dimension and the same truncated components |
| `VectorDigest.DigestLayout` | reference/identity-engine/identity_vector.py:86-90 | the digested payload is laid out under its domain as one part, eight bytes for each truncated component in order |
| `VectorDigest.ScaledTruncates` | reference/identity-engine/identity_vector.py:88 | the integer of a component is within one unit of it, on the side of zero |
| `VectorDigest.SignedBytesValue` | reference/identity-engine/identity_vector.py:88 | the eight bytes, read as unsigned, are the number or 2^64 more |
| `VectorDigest.SignedBytesInjective` | reference/identity-engine/identity_vector.py:88 | eight big-endian two's complement bytes determine a signed 64-bit number |
| `VectorDigest.ScaledCell` | reference/identity-engine/identity_vector.py:88 | components that share a truncation differ by less than 1e-9 when neither is negative or the truncation is not zero, and by less than 2e-9 always |
| `VectorDigest.ZeroCellIsWide` | reference/identity-engine/identity_vector.py:88 | two components of opposite sign more than 1e-9 apart share the zero cell |
| `VectorDigest.UnitVectorFits` | reference/identity-engine/identity_vector.py:87-90 | digesting a unit vector of fewer than 2^29 components never overflows |
| `Identity.CompileIsWellFormed` | reference/identity-engine/identity_vector.py:63-96 | compilation yields a well-formed vector under its own id, or is rejected exactly on all-zero bytes, and never overflows |
| `Identity.CompileWeighs` | reference/identity-engine/identity_vector.py:49-84 | the compiled vector is a positive multiple of 0.5 times the device bytes plus 0.3 times the behaviour bytes plus 0.2 times the context bytes |
| `Identity.OneDirection` | reference/identity-engine/identity_vector.py:56-60 | no other unit vector is |
| `Identity.DigestHashes` | reference/identity-engine/identity_vector.py:86-90 | the digest is the hash of the vector as it is laid out |
| `Identity.UpdateIsWellFormed` | reference/identity-engine/relationship.py:58-74 | a drift of well-formed vectors never fails, keeps the baseline's id, carries the digest of the new vector, moves by at most alpha times the distance and leaves at most 1 - alpha of it |
| `Identity.UpdateBlends` | reference/identity-engine/relationship.py:58-68 | a drifted vector is a positive multiple of 1 - alpha times the baseline plus alpha times the accepted vector |
| `Framing.PayloadBinds` | reference/crypto/primitives.py:41-45 | two payloads are equal exactly when domain and part list are equal, for all domains under 2^16 and parts under 2^32 bytes |
| `Framing.PayloadLayout` | reference/crypto/primitives.py:43-45 | byte by byte: the domain's length in two bytes, the domain, and for every part its length in four bytes and the part, in order and with nothing else |
| `Utf8.EncodeInjective` | reference/crypto/primitives.py:114 | UTF-8 text determines its string |
| `Utf8.EncodedBits` | reference/crypto/primitives.py:114 | every character has the shortest form of section 3 of RFC 3629, whose bits spell its number |
| `Json.ParsePrinted` | reference/crypto/primitives.py:109-114 | a parser reads every compactly printed value back and leaves what follows, which must not continue a number |
| `Json.PrintInjective` | reference/crypto/primitives.py:109-114 | printed text determines the value, member order included |
| `Json.CompactItems` | reference/crypto/primitives.py:114 | items are separated by a comma alone |
| `Json.CompactMembers` | reference/crypto/primitives.py:114 | members are separated by a comma alone, and a key from its value by a colon alone |
| `Json.EscapedExactly` | reference/crypto/primitives.py:114 | a character stands for itself exactly when it is no quote, no backslash and no control character |
| `CanonicalJson.SortKeepsMeaning` | reference/crypto/primitives.py:114 | sorting keys at every level gives a sorted value with the same meaning, for either key order |
| `CanonicalJson.OrderAscends` | reference/crypto/primitives.py:114 | a key sorts before another exactly when it is its prefix or has the smaller character, in TypeScript the smaller code unit, at their first difference |
| `CanonicalJson.SortAscends` | reference/crypto/primitives.py:114 | after sorting, the keys of every object at every depth ascend in that sense |
| `CanonicalJson.UnitsDecode` | sdk/javascript/src/crypto/primitives.ts:106 | code units are the characters below U+10000 and surrogate pairs that spell the others |
| `CanonicalJson.SortedUnique` | reference/crypto/primitives.py:114 | a meaning has only one sorted value |
| `CanonicalJson.CanonicalIffSameMeaning` | reference/crypto/primitives.py:109-114 | canonical bytes are equal exactly when the values mean the same, independent of insertion order at every depth |
| `CanonicalJson.CanonicalTextParses` | reference/crypto/primitives.py:109-114 | the canonical bytes are the UTF-8 of a text that parses back to a value of the same meaning with ascending keys |
| `CanonicalJson.CanonicalTextTs` | sdk/javascript/src/crypto/primitives.ts:96-113 | TypeScript's are the UTF-8 of such a text in code unit order, of the value with its numbers as they are printed there |
| `CanonicalJson.LanguagesAgree` | sdk/javascript/src/crypto/primitives.ts:96-113 | for every JSON value, Python's and TypeScript's canonical bytes are equal exactly when no dictionary at any depth holds two crossed keys and every number prints alike in both languages |
| `CanonicalJson.RenumberMeaning` | sdk/javascript/src/crypto/primitives.ts:102 | printing numbers another way keeps the meaning only when it changes none of them |
| `CanonicalJson.BmpKeysAreNotCrossed` | sdk/javascript/src/crypto/primitives.ts:106 | keys inside the Basic Multilingual Plane are never crossed |
| `CanonicalJson.BmpValuesAgree` | sdk/javascript/src/crypto/primitives.ts:96-113 | values of any nesting with keys in the Basic Multilingual Plane and integers up to 2^53 have the same bytes in both languages |
| `CanonicalJson.CrossedKeysExist` | sdk/javascript/src/crypto/primitives.ts:106 | a two-key object on which the two languages' bytes differ |
| `CanonicalJson.WholeFloatsDiffer` | sdk/javascript/src/crypto/primitives.ts:102 | a float without a fraction, printed without its point, has different bytes |
| `Transcript.TranscriptBinds` | reference/identity-engine/verification.py:16-26 | two handshakes share a transcript payload exactly when all four messages mean the same, one by one |
| `Transcript.TranscriptLayout` | reference/identity-engine/verification.py:16-26 | the signed payload is laid out under its domain as the canonical bytes of HELLO, CHALLENGE, ENTROPY and IDENTITY_ACK, in this order |
| `Transcript.TranscriptSeparated` | reference/crypto/primitives.py:33-45 | no payload under another domain is a transcript payload |
| `TsBuffers.U32be` | sdk/javascript/src/crypto/primitives.ts:24-28 | the four-byte buffer holds the low 32 bits, most significant byte first |
| `TsBuffers.U16be` | sdk/javascript/src/crypto/primitives.ts:30-34 | the two-byte buffer holds the low 16 bits, most significant byte first |
| `TsBuffers.ConcatBytes` | sdk/javascript/src/crypto/primitives.ts:36-45 | the offset loop writes exactly the concatenation of its arrays |
| `TsBuffers.PushParts` | sdk/javascript/src/crypto/primitives.ts:57-62 | the pushed list concatenates to the prefix followed by every part behind its length |
| `TsBuffers.HashPayloadTs` | sdk/javascript/src/crypto/primitives.ts:54-63 | the client builds the length-prefixed frame over its UTF-8 domain, and refuses only an empty one |
| `TsBuffers.PayloadsAgree` | sdk/javascript/src/crypto/primitives.ts:54-63 | wherever Python's expression is defined the client's bytes are the same, and one of them fails alone exactly outside ASCII domains and in-range lengths |
| `TsBuffers.CosineSimilarity` | sdk/javascript/src/identity/identityVector.ts:39-43 | the index loop is the server's zipped sum, and NaN exactly when the second vector is shorter |
| `TsBuffers.WeightedSumTs` | sdk/javascript/src/identity/identityVector.ts:51-57 | the filled array is the server's weighted sum |
| `TsBuffers.L2NormalizeTs` | sdk/javascript/src/identity/identityVector.ts:59-69 | the loop normalises and rejects as the server does |
| `TsBuffers.TruncIsScaled` | sdk/javascript/src/identity/identityVector.ts:73 | `Math.trunc`, by floor and ceiling, is Python's `int()` |
| `TsBuffers.ToBytesBE` | sdk/javascript/src/identity/identityVector.ts:71-77 | the eight bytes stored one by one are the server's, read back as the truncated count wherever the server has bytes at all, and wrap at 2^64 elsewhere |
| `TsBuffers.VectorBuffer` | sdk/javascript/src/identity/identityVector.ts:79-118 | the chunks fill the server's flat digest buffer |
| `TsBuffers.DigestPayloadsAgree` | sdk/javascript/src/identity/identityVector.ts:114-119 | in range, both sides hash the same bytes for a vector |
| `Scoring.ConfidenceRange` | reference/trust-engine/confidence.py:8-12 | confidence lies in [0, 1) and is positive once a layer is present |
| `Scoring.DoubtMultiplies` | reference/trust-engine/confidence.py:8-12 | what confidence lacks to 1 multiplies over layers; no layer gives 0 and one layer 1 - fade |
| `Scoring.ConfidenceGrows` | reference/trust-engine/confidence.py:8-12 | every further layer raises confidence |
| `Scoring.IdentityIsLinear` | reference/trust-engine/score.py:35-47 | the identity score falls linearly with the distance, and a missing distance counts as 1 |
| `Scoring.ComputeContextScore` | reference/trust-engine/score.py:50-57 | the product loop over clamped priors |
| `Scoring.ContextProductBounds` | reference/trust-engine/score.py:50-57 | the context product is at most its smallest clamped prior |
| `Scoring.ContextScoreOrder` | reference/trust-engine/score.py:50-57 | raising any priors never lowers the context score |
| `Scoring.ContextScoreOrderFree` | reference/trust-engine/score.py:50-57 | the context score ignores the order of the priors |
| `Scoring.ContextScoreGrows` | reference/trust-engine/score.py:50-57 | no prior gives 100; one more multiplies the score, clamped to [0, 1] |
| `Scoring.EvaluateRisk` | reference/trust-engine/rules.py:72-80 | the loop computes the total that `RiskAddsUp` determines and lists the names that `TriggeredInOrder` does; a missing or empty rule list means the defaults |
| `Scoring.TriggeredExactly` | reference/trust-engine/rules.py:75-80 | a name is reported exactly when a rule of that name fires |
| `Scoring.TriggeredInOrder` | reference/trust-engine/rules.py:75-80 | over any two lists of rules the names come one list after the other |
| `Scoring.RiskAddsUp` | reference/trust-engine/rules.py:72-80 | risk adds up over any two lists of rules, and is for one rule its severity if it fires and nothing if not |
| `Scoring.DefaultRisk` | reference/trust-engine/rules.py:60-80 | for every set of signals the default risk is the sum of the eight documented severities of those present |
| `Scoring.RiskOrder` | reference/trust-engine/rules.py:72-80 | with severities that are not negative, risk is not negative and grows with the set of rules that fire |
| `Scoring.ScoreOrder` | reference/trust-engine/score.py:73-88 | for any non-negative weights and any policy the score stays in [0, 100], and neither it nor the decision worsens when distance or risk falls or history or context rises |
| `Scoring.EachWeight` | reference/trust-engine/score.py:79-86 | for any weights, each component moves the composite by its own weight, and risk moves it down |
| `Scoring.ClampIsNearest` | reference/trust-engine/score.py:23-24 | the clamp gives the nearest number within the bounds |
| `Storage.SQLiteStore.constructor` | reference/storage/sqlite_store.py:37-70 | opening a database keeps the rows it holds; a new one has none |
| `Storage.SQLiteStore.RecordHistory` | reference/storage/sqlite_store.py:103-108 | the insert appends one row and leaves the baselines alone |
| `Storage.QueryIsWindow` | reference/storage/sqlite_store.py:110-117 | the newest-first limited query, turned round, is the most recent window of the subject's log |
| `Storage.SQLiteStore.GetHistory` | reference/storage/sqlite_store.py:110-117 | the outcomes come oldest first and are the subject's last ones |
| `Registry.SubjectRegistry.constructor` | reference/identity-engine/relationship.py:25-26 | a plain registry starts without baselines |
| `Registry.SubjectRegistry.RelationshipDistance` | reference/identity-engine/relationship.py:37-45 | the distance to the baseline, none without one |
| `Registry.SubjectRegistry.UpdateBaselineEwma` | reference/identity-engine/relationship.py:47-74 | an unknown subject is enrolled, a known one drifts, and a failing drift changes nothing |
| `Registry.PersistentSubjectRegistry.constructor` | reference/identity-engine/relationship.py:88-90 | a new process starts with an empty, hence coherent, cache |
| `Registry.PersistentSubjectRegistry.Enroll` | reference/identity-engine/relationship.py:92-94 | cache and store get the baseline and stay coherent |
| `Registry.PersistentSubjectRegistry.HasBaseline` | reference/identity-engine/relationship.py:96-99 | the answer is the store's |
| `Registry.PersistentSubjectRegistry.BaselineFor` | reference/identity-engine/relationship.py:101-113 | the answer is the store's, and warming keeps the cache coherent |
| `Registry.PersistentSubjectRegistry.RelationshipDistance` | reference/identity-engine/relationship.py:115-119 | the distance to the stored baseline |
| `Registry.PersistentSubjectRegistry.UpdateBaselineEwma` | reference/identity-engine/relationship.py:121-137 | the store drifts as the plain dictionary would, and the cache follows |
| `Registry.RunBoth` | reference/identity-engine/relationship.py:22-137 | any run of enrolments, drifts, queries and restarts is answered by the cache over the store exactly as by one dictionary that never restarts |
| `Registry.DriftedMoves` | reference/identity-engine/relationship.py:47-74 | a first vector is enrolled as it is; a later one draws the baseline to within (1 - alpha) times its distance and by at most alpha times it; nobody else is touched |
| `TrustHistories.TrustHistory.constructor` | reference/trust-engine/history.py:14-16 | a plain history starts without deques |
| `TrustHistories.TrustHistory.Record` | reference/trust-engine/history.py:18-25 | one subject's bounded deque takes the outcome |
| `TrustHistories.TrustHistory.ScoreOf` | reference/trust-engine/history.py:27-44 | the score of the subject's deque |
| `TrustHistories.PersistentTrustHistory.constructor` | reference/trust-engine/history.py:54-56 | a new process starts with an empty, hence coherent, cache |
| `TrustHistories.PersistentTrustHistory.Record` | reference/trust-engine/history.py:58-60 | deque and log take the outcome, and the cache stays coherent for a subject that was scored before |
| `TrustHistories.PersistentTrustHistory.ScoreOf` | reference/trust-engine/history.py:62-67 | the score of the log's last entries; afterwards the subject may be recorded safely |
| `TrustHistories.RecordKeepsCoherence` | reference/trust-engine/history.py:58-67 | recording keeps the cache coherent exactly when the subject is cached, has no log, or the window holds at most one outcome |
| `TrustHistories.ReplayIsWindow` | reference/trust-engine/history.py:24-25 | a bounded deque fed a whole log holds its last entries |
| `TrustHistories.RunBoth` | reference/trust-engine/history.py:47-67 | any run in which a score precedes every record, with restarts anywhere, gives the scores of a plain history that never restarts |
| `TrustLoop.LearnIsLocal` | reference/gateway/handshake.py:157-199 | a session changes what is known of its own subject only |
| `TrustLoop.Noninterference` | reference/gateway/handshake.py:143-199 | however sessions interleave, a subject's baseline and log come from its own sessions alone |
| `TrustLoop.AfterKeepsInv` | reference/gateway/handshake.py:157-195 | in every run baselines stay well formed and only enrolled subjects have a history |
| `TrustLoop.Plateau` | reference/gateway/handshake.py:161-181 | a first session scores at most 17.5 * conf + 30 and is denied; every session scores at most 35 * conf + 45, below the ALLOW threshold |
| `TrustLoop.VerdictFormula` | reference/trust-engine/score.py:60-101 | every verdict in numbers: 35 * conf - 17.5 * d * conf + 0.30 * history + 0.15 * context - 0.20 * risk, clamped to [0, 100]; ALLOW from 80 on, DENY below 50; the flags of the rules that fired |
| `TrustLoop.RiskLowers` | reference/trust-engine/score.py:77-86 | signals that cost more risk lower an unclamped score by exactly a fifth of what they cost |
| `TrustLoop.HistoryRecurs` | reference/trust-engine/history.py:18-44 | the recurrence that determines a subject's history score, in growing and in full windows |
| `TrustLoop.LearnedExactly` | reference/gateway/handshake.py:157-199 | the baseline never drifts: it stays the first vector enrolled, and every later session is recorded as accepted exactly when it is stepped up |
| `TrustLoop.Conservation` | reference/gateway/handshake.py:157-195 | a subject has a baseline exactly when it had a session, it is its first vector, and its log holds the outcomes of all its sessions but the first, in order |
| `TrustLoop.LockedForever` | reference/gateway/handshake.py:161-195 | the lockout survives any sessions of anybody |
| `TrustLoop.LockoutIsExact` | reference/gateway/handshake.py:161-195 | every later session of a subject is denied, whatever happens, if and only if 35 * conf + 15 + 0.30 * h is below 50 |
| `TrustLoop.FirstRecordedDenialIsFinal` | reference/gateway/handshake.py:181-188 | with a window of at least one outcome, a subject whose first recorded session is denied is denied for ever |
| `TrustLoop.LockoutIsReached` | reference/gateway/handshake.py:157-188 | in any run from an empty store, a subject that presented one vector twice or more under a worthless prior is locked and denied for ever |
| `TrustLoop.AcceptedStaysAccepted` | reference/gateway/handshake.py:161-197 | after an accepted session, sessions at least as good stay accepted and score no less, whatever others do |
| `TrustLoop.SteadyProgression` | reference/gateway/handshake.py:143-199 | a new subject that keeps presenting one vector under the same signals, with new vector ids and whatever others do in between, is denied once and then stepped up for ever or denied for ever, decided by its own signals, with a score that stands still from the third session on |
| `TrustLoop.SteadyLockout` | reference/gateway/handshake.py:157-188 | after two or more such sessions the subject is locked, and denied for ever whatever it does later, exactly when its signals do not pass |
| `TrustLoop.SecondSession` | reference/gateway/handshake.py:161-197 | a subject's first recorded session, with the baseline's vector, is stepped up or denied by its own signals alone |
| `TrustLoop.CleanUsePasses` | reference/trust-engine/score.py:73-88 | with full priors and no risk it is stepped up exactly when confidence is at least 4/7 |
| `Sessions.SessionStore.constructor` | reference/session-engine/validator.py:21-23 | a new store has no sessions |
| `Sessions.SessionStore.Validate` | reference/session-engine/validator.py:31-43 | the first refusal in order: revoked, missing, expired, different value |
| `Sessions.RefusedExactly` | reference/session-engine/validator.py:31-43 | a revoked id is refused as revoked; anything else that is missing, expired or another value is refused as expired; nothing else is refused |
| `Sessions.PutIsAccepted` | reference/session-engine/validator.py:25-43 | a session that is put is accepted by its own value until it expires, unless its id is revoked, and other sessions are answered as before |
| `Sessions.Renew` | reference/session-engine/renewal.py:21-28 | a valid value is replaced by its rotation, an invalid one leaves the store alone |
| `Sessions.FirstValue` | reference/session-engine/generator.py:46-56 | a first session value is determined by the shared secret and the transcript hash and separates both; its session starts at generation 0 and expires one interval after issue |
| `Sessions.NextValue` | reference/session-engine/rotator.py:21-32 | a renewed value is determined by the presented value and the nonce and separates both; its session goes one generation on and lives one interval from the rotation's clock reading |
| `Sessions.StepKeepsInv` | reference/session-engine/rotator.py:21-32 | every event keeps each stored session the newest of its life, one derivation deeper per generation, expiring within its bound |
| `Sessions.OnlyNewestValidates` | reference/session-engine/validator.py:31-43 | a value validates exactly when it is the last one issued to a stored, unrevoked session and less than one interval has passed since; no earlier generation equals it |
| `Sessions.RenewalLifetime` | reference/session-engine/renewal.py:21-28 | a renewal's new generation is refused from birth + (g + 1) * interval on if and only if its rotation read the clock by birth + g * interval |
| `Sessions.LifetimeIsExact` | reference/session-engine/expiration.py:7-9 | in every state a stored session is refused from birth + (g + 1) * interval on, whatever is presented, if and only if it is revoked or its generation was issued by birth + g * interval |
| `Sessions.BoundOverRun` | reference/session-engine/renewal.py:21-28 | a session keeps that bound at every moment of a run if and only if every one of its generations was issued in time |
| `Sessions.RenewalLagExtendsLife` | reference/session-engine/renewal.py:22-26 | a renewal that validates before expiry and rotates after it breaks the bound |
| `Sessions.DeadStaysDead` | reference/session-engine/validator.py:31-43 | superseded, revoked, expired and forgotten values never validate again under any interleaving |
| `Sessions.RevokedForever` | reference/session-engine/validator.py:28-34 | an issued session that is revoked is refused for ever, whatever is presented and whatever follows |
| `Handshake.ReplayRefused` | reference/gateway/handshake.py:70-78 | whatever was accepted once is a replay from then on |
| `Handshake.WhichIdCounts` | reference/gateway/handshake.py:71-78 | the envelope's text id, or else the body's, is the one remembered; with neither the message is malformed |
| `Handshake.BooleanIdsCollide` | reference/gateway/handshake.py:76-78 | the ids `true` and `1` replay each other, in either order |
| `Handshake.SameKeyExactly` | reference/gateway/handshake.py:70-78 | which ids cannot be remembered, and which two count as one |
| `Handshake.FalsyExactly` | reference/gateway/handshake.py:71-73 | which ids count as none |
| `Handshake.OffersExactly` | reference/gateway/handshake.py:84-86 | which values of `supported_suites` offer the suite, and which raise an exception |
| `Handshake.ChallengeCarries` | reference/gateway/handshake.py:93-100 | the challenge carries the suite, the server's nonce, the puzzle, its difficulty and the server's ephemeral key, each under its own key |
| `Handshake.AckCarries` | reference/gateway/handshake.py:117-121 | the acknowledgement carries the vector's id and digest |
| `Handshake.PeerKeyExactly` | reference/gateway/handshake.py:201 | key agreement uses the HELLO's ephemeral key, and the signing key where that is missing or empty |
| `Handshake.FoundExactly` | reference/server/api.py:71-72 | which receipt ids find a consent, and which raise an exception |
| `Handshake.SignedHash` | reference/identity-engine/verification.py:16-36 | what is signed is the hash of the transcript as it is laid out |
| `Handshake.AllowDrifts` | reference/gateway/handshake.py:189-197 | on ALLOW the outcome is recorded and the baseline drifts by at most a tenth of its distance to the accepted vector, leaving at most nine tenths |
| `Handshake.EvaluationLearns` | reference/gateway/handshake.py:143-199 | the gateway's evaluation, in its order of effects, judges and learns as the trust loop does |
| `Gateway.HandshakeContext.constructor` | reference/gateway/handshake.py:44-55 | a new context is fresh |
| `Gateway.HandshakeContext.CheckId` | reference/gateway/handshake.py:70-78 | an id is taken from envelope or body, refused when missing or seen, and remembered otherwise |
| `Gateway.Gateway.HandleHello` | reference/gateway/handshake.py:80-102 | the handler leaves the context and the reply of the HELLO step, on every path |
| `Gateway.Gateway.HandleEntropy` | reference/gateway/handshake.py:104-125 | the handler leaves the context and the reply of the ENTROPY step, on every path |
| `Gateway.Gateway.ComputeTrustScore` | reference/trust-engine/score.py:60-101 | the verdict on the stored history, after which the subject may be recorded safely |
| `Gateway.Gateway.EvaluateTrust` | reference/gateway/handshake.py:142-199 | store, verdict and drift of the evaluation, with both caches still coherent |
| `Gateway.Gateway.HandleProof` | reference/gateway/handshake.py:127-221 | the handler leaves the context, the tables, the sessions and the reply of the PROOF step, on every path, with both caches still coherent |
| `Attempts.HelloOutcome` | reference/gateway/handshake.py:80-102 | exactly when a HELLO is accepted, and which error or exception each refusal has; a refused one changes no more than the ids seen |
| `Attempts.HelloEffect` | reference/gateway/handshake.py:84-102 | an accepted HELLO takes a NEW context to CHALLENGED under an unseen id and offered the suite |
| `Attempts.EntropyOutcome` | reference/gateway/handshake.py:104-125 | exactly when an ENTROPY is accepted, and which error each refusal has: an exception escapes exactly when the body is missing, the consent lookup raises one, or, past the gateway's own checks, the consent has expired by the compiler's check, the signals are rejected, or all three layers are zero |
| `Attempts.UnhashableReceiptEscapes` | reference/server/api.py:71-72 | with the server's own consent lookup, a receipt id that is a non-empty list or dictionary is not answered with a protocol error |
| `Attempts.EntropyEffect` | reference/gateway/handshake.py:109-125 | an accepted ENTROPY stores, for the consent's subject, a well-formed vector under the new id that points where the weighed layer bytes point |
| `Attempts.ZeroNormEscapes` | reference/gateway/handshake.py:115 | a zero-norm vector is not answered with a protocol error |
| `Attempts.ExpiringConsentEscapes` | reference/identity-engine/identity_compiler.py:55-58 | a consent that expires between the two checks is not answered with a protocol error |
| `Attempts.ProofRefused` | reference/gateway/handshake.py:127-140 | a proof whose id or signature does not stand touches no shared state |
| `Attempts.ProofJudged` | reference/gateway/handshake.py:142-221 | a proof that stands is learned from; DENIED exactly on DENY; a session exactly when key agreement follows an accepted verdict: derived from the agreed secret and the transcript hash, of generation 0, for 300 seconds from the issue on |
| `Attempts.StepUpActivates` | reference/gateway/handshake.py:191-208 | a stepped-up proof activates its handshake exactly when key agreement succeeds |
| `Attempts.FinishedIsFinal` | reference/gateway/handshake.py:80-130 | finished handshakes answer everything with ERR_STATE_INVALID and never change |
| `Attempts.HelloKeepsInv` | reference/gateway/handshake.py:80-102 | HELLO keeps the handshake's record in order and lowers its rank when it moves it |
| `Attempts.EntropyKeepsInv` | reference/gateway/handshake.py:104-125 | ENTROPY keeps the handshake's record in order and lowers its rank when it moves it |
| `Attempts.ProofKeepsInv` | reference/gateway/handshake.py:127-221 | PROOF keeps the handshake's record in order and lowers its rank when it moves it |
| `Attempts.TranscriptBindsVector` | reference/identity-engine/verification.py:16-26 | under a hash without collisions, two handshakes with one transcript hash have the same server key and identity vectors of one dimension that agree within 1e-9 in every component |
| `Attempts.ProofStandsOnce` | reference/identity-engine/verification.py:29-36 | under a hash without collisions, a signature that verifies over one hash only stands in no two handshakes with different server keys |
| `World.Run` | reference/gateway/handshake.py:58-221 | every world that any interleaving of handshakes, renewals, revocations and restarts reaches satisfies all the invariants |
| `World.ActiveIsEarned` | reference/gateway/handshake.py:70-221 | an ACTIVE handshake accepted HELLO, ENTROPY and PROOF in order under three different ids, with the suite offered, a consent in scope and in time, and a signature over its own transcript; its session derives from that transcript and the agreed secret |
| `World.SessionsMatchActive` | reference/gateway/handshake.py:201-208 | sessions ever issued and ACTIVE handshakes correspond one to one |
| `World.AcceptedWasEnrolled` | reference/gateway/handshake.py:157-201 | an accepted session is at least its subject's second, enrolled by an earlier one |
| `World.RunConserves` | reference/gateway/handshake.py:157-195 | a subject's log has one outcome per trust-evaluated handshake except the first, in order, and a baseline exists exactly when there was one |
| `World.ProofInRun` | reference/gateway/handshake.py:142-199 | in every run a standing proof never reaches ALLOW, an unknown subject is denied and enrolled, a known one keeps its baseline and has the outcome recorded, and nobody else is affected |
| `World.LockoutInRun` | reference/gateway/handshake.py:161-188 | a locked subject's standing proofs are all denied, whatever messages, renewals and restarts come between |
| `World.AcceptanceInRun` | reference/gateway/handshake.py:161-197 | as long as a subject's audited sessions stay at least as good as one that would be accepted, its next such proof is not denied and scores no less |
| `World.DeadInRun` | reference/session-engine/renewal.py:21-28 | a dead session value stays dead through handshakes, renewals, revocations and restarts |
| `World.RevokedInRun` | reference/session-engine/validator.py:28-34 | so it is through handshakes, renewals and restarts |
| `World.LedgerMoves` | reference/gateway/handshake.py:207 | whatever happens to handshakes, the session store moves by its own possible events only |
| `World.BoundInRun` | reference/session-engine/renewal.py:21-28 | over any run, a session is always refused from birth + (g + 1) * interval on if and only if every generation was issued in time |
| `Replay.ProofNeverStandsAgain` | reference/gateway/handshake.py:127-140 | as long as the server draws no ephemeral key twice, the hash has no collisions and the signature verifies over one hash only, a proof that stood once is refused ever after: later in the run, in any handshake, under any message id |
| `Replay.DistinctTranscripts` | reference/gateway/handshake.py:201-208 | under fresh ephemeral keys and a hash without collisions, the sessions of two ACTIVE handshakes of a run never derive from one transcript hash |
| `Replay.SecretsSeparate` | reference/session-engine/generator.py:46-47 | two ACTIVE handshakes hold equal session values exactly when both the agreed secrets and the transcript hashes are equal |
| `Replay.KeysDiffer` | reference/gateway/handshake.py:89-102 | as long as no key is drawn twice, two handshakes of a run have different server keys, at whatever moments they are compared |
| `Replay.RankOverRun` | reference/gateway/handshake.py:58-221 | over any run no handshake is forgotten and none goes back to an earlier phase |
| `Service.Boot` | reference/server/api.py:52-75 | a new process has empty, coherent caches over whatever the store holds, and no sessions |
| `Service.Process.constructor` | reference/server/api.py:52-75 | a process over a new store shows the starting world |
| `Service.Process.OnOpen` | reference/server/api.py:139-145 | a new handshake gets its own fresh context object |
| `Service.Process.OnHello` | reference/server/api.py:137-146 | the context object of one handshake follows the HELLO step and nothing else moves |
| `Service.Process.OnEntropy` | reference/server/api.py:149-158 | the context object of one handshake follows the ENTROPY step and nothing else moves |
| `Service.Process.OnProof` | reference/server/api.py:161-171 | context object, store, caches and sessions follow the PROOF step |
| `Service.Process.OnSession` | reference/server/api.py:174-209 | renewals and revocations follow the session store's steps |
| `Service.Process.OnRestart` | reference/server/api.py:52-75 | a restart keeps the store and drops caches, contexts and sessions |
| `Service.Process.Handle` | reference/gateway/handshake.py:58-221 | every event keeps the objects of the process equal to the world |
| `Service.Serve` | reference/gateway/handshake.py:58-221 | over any run with interleaved handshakes and restarts, the objects hold exactly the world's tables, sessions and contexts, every cached baseline is the stored one, and every cached deque is its log's last k entries |
| `Client.HonestHello` | reference/verifier/verifier.py:29-40 | the client's HELLO under a new id is accepted and challenged |
| `Client.PeerIsClient` | reference/gateway/handshake.py:201 | key agreement uses the ephemeral key of the client's own HELLO |
| `Client.HonestEntropy` | reference/verifier/verifier.py:42-54 | the client's ENTROPY under a new id and a valid consent is acknowledged |
| `Client.HonestProof` | reference/verifier/verifier.py:56-67 | the client's signed proof stands exactly when all four messages mean the same to both sides, and the handshake is rejected otherwise |
| `Client.HonestRun` | reference/verifier/verifier.py:24-67 | the three client messages take a fresh handshake to its trust evaluation, which is learned from; stepped up, it ends ACTIVE exactly when the server's key agrees with the client's own |
| `Client.NewSubject` | reference/gateway/handshake.py:127-221 | a new subject's first honest handshake is denied, and a second with the same vector ends ACTIVE exactly when its signals pass and key agreement succeeds |
| `FirstLogins.LoginRuns` | reference/gateway/handshake.py:58-221 | an honest login may follow any run, and ends with the context, tables and sessions of the honest handshake, leaving other handshakes alone |
| `FirstLogins.TwoLogins` | reference/gateway/handshake.py:157-208 | after any run, a subject that is not enrolled logs in honestly twice with one vector: DENIED first, then ACTIVE exactly when its signals pass and key agreement succeeds, and locked exactly when they do not pass |
| `FirstLogins.BothEndsAreReached` | reference/gateway/handshake.py:157-208 | the same two logins form a run from an empty store |

## Left out

- VectorDigest.ScaledCell: the bound is 2e-9 around zero for components of unknown sign, because truncation is towards zero.
- The digits that TypeScript prints for a float or a large integer: a parameter, exact on integers up to 2^53, that may print `null` instead.
- Floating-point rounding, non-finite floats, and the reported components and rounded scores (decisions use the unrounded score).
- The hash, HKDF, Ed25519, X25519, Argon2 and AEAD algorithms: parameters or terms.
- Strings with lone surrogates, which have no UTF-8 form.
- The individual risk predicates and the normalisers of raw signals: a session carries the names of the rules that hold and the bytes its layers expand to.
- Ill-typed context priors and risk signals, which raise an exception inside the evaluation and leave the handshake in VERIFYING.
- A message id that is a float is compared by its printed form, not by its value.
- Weights, thresholds, alpha and decay other than the defaults in whole runs; `Scoring` and `History` treat any of them.
- The gateway wired to the plain in-memory registry and history: `Registry.RunBoth` and `TrustHistories.RunBoth` show that they answer alike.
- `/debug/reset`, which clears the tables under live caches, and several processes over one database.
- The HTTP layer drops a context whose HELLO is refused; here it is kept and may be sent another.
- HTTP routes, the command line, the demo clients and `identity_stream.py`.
