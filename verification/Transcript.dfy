/** The transcript of a handshake: what the client signs and the server checks. */
module Transcript {
  import opened Prelude
  import opened CanonicalJson
  import opened Framing
  import opened Json

  const TRANSCRIPT_DOMAIN := "IDP-TRANSCRIPT-v1"

  datatype Messages = Messages(hello: Json, challenge: Json, entropy: Json, identityAck: Json) {

    predicate DistinctKeys() {
      CanonicalJson.DistinctKeys(hello) && CanonicalJson.DistinctKeys(challenge) &&
      CanonicalJson.DistinctKeys(entropy) && CanonicalJson.DistinctKeys(identityAck)
    }

    function Parts(): seq<Bytes> {
      [CanonicalJson.CanonicalJson(hello), CanonicalJson.CanonicalJson(challenge),
       CanonicalJson.CanonicalJson(entropy), CanonicalJson.CanonicalJson(identityAck)]
    }
  }

  function TranscriptPayload(m: Messages): Result<Bytes, FramingError> {
    HashPayload(m.Parts(), TRANSCRIPT_DOMAIN)
  }

  /** What is signed: under its domain, the canonical bytes of the four messages in the order they were sent. */
  lemma TranscriptLayout(m: Messages)
    requires TranscriptPayload(m).Ok?
    ensures Laid(TranscriptPayload(m).value, "IDP-TRANSCRIPT-v1",
                 [CanonicalJson.CanonicalJson(m.hello), CanonicalJson.CanonicalJson(m.challenge),
                  CanonicalJson.CanonicalJson(m.entropy), CanonicalJson.CanonicalJson(m.identityAck)])
  {
    PayloadLayout(m.Parts(), TRANSCRIPT_DOMAIN);
  }

  predicate SameMeaning(m: Messages, m': Messages) {
    Meaning(m.hello) == Meaning(m'.hello) && Meaning(m.challenge) == Meaning(m'.challenge) &&
    Meaning(m.entropy) == Meaning(m'.entropy) && Meaning(m.identityAck) == Meaning(m'.identityAck)
  }

  /** The payload binds all four messages, each up to the order of its object members and no further. */
  lemma TranscriptBinds(m: Messages, m': Messages)
    requires m.DistinctKeys() && m'.DistinctKeys()
    requires TranscriptPayload(m).Ok? && TranscriptPayload(m').Ok?
    ensures TranscriptPayload(m) == TranscriptPayload(m') <==> SameMeaning(m, m')
  {
    PayloadBinds(m.Parts(), TRANSCRIPT_DOMAIN, m'.Parts(), TRANSCRIPT_DOMAIN);
    assert m.Parts() == m'.Parts() <==> forall i | 0 <= i < 4 :: m.Parts()[i] == m'.Parts()[i];
    CanonicalIffSameMeaning(m.hello, m'.hello);
    CanonicalIffSameMeaning(m.challenge, m'.challenge);
    CanonicalIffSameMeaning(m.entropy, m'.entropy);
    CanonicalIffSameMeaning(m.identityAck, m'.identityAck);
  }

  /** No payload hashed under another domain is a transcript payload. */
  lemma TranscriptSeparated(m: Messages, parts: seq<Bytes>, domain: string)
    requires TranscriptPayload(m).Ok? && HashPayload(parts, domain).Ok? && domain != TRANSCRIPT_DOMAIN
    ensures TranscriptPayload(m) != HashPayload(parts, domain)
  {
    PayloadBinds(m.Parts(), TRANSCRIPT_DOMAIN, parts, domain);
  }
}
