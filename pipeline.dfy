/** `NitroAdDoc::from_bytes` (src/lib.rs:140-253): unwrap the COSE_Sign1 envelope, decode
    the CBOR payload, check its fields, validate the leaf certificate's chain against the
    caller's root (a soft failure, kept in the document) and verify the ES384 envelope
    signature with the leaf's key (a fatal failure). */
module Pipeline {
  import opened Wrappers
  import opened Document
  import opened Validation

  /** Lines 145-152: the envelope and the decoded payload. */
  function Unwrap(env: Env, bytes: Bytes): Result<(CoseSign1, Payload), NitroAdError> {
    match env.decodeSign1(bytes)
    case Err(e) => Err(CoseError(e))
    case Ok(sign1) =>
      match env.getPayload(sign1)
      case Err(e) => Err(CoseError(e))
      case Ok(raw) =>
        match env.decodePayload(raw)
        case Err(e) => Err(CborError(e))
        case Ok(p) => Ok((sign1, p))
  }

  /** Lines 199-252, run on a payload whose fields passed: the chain check, whose error is
      kept, then the leaf's structure and the envelope signature, whose failures abort. */
  function CheckIdentity(env: Env, sign1: CoseSign1, p: Payload, rootCert: Bytes, unixTsSec: U64): Verdict {
    if |p.cabundle| == 0 then Panicked(EmptyCaBundle)
    else
      var intermediates := p.cabundle[1..];
      match env.trustAnchor(rootCert)
      case None => Panicked(UnparsableTrustAnchor)
      case Some(anchor) =>
        match env.endEntity(p.certificate)
        case Err(e) => Rejected(VerificationError(e))
        case Ok(ee) =>
          var verifyErr := env.verifyChain(ee, AllSigAlgs(env.allocFeature), [anchor], intermediates, unixTsSec);
          match env.parseX509(p.certificate)
          case Err(e) => Rejected(Error("x509 parsing failed: Err(" + e.debug + ")"))
          case Ok((rem, cert)) =>
            if |rem| != 0 then Rejected(Error("rem isnot empty"))
            else if cert.version != V3 then Rejected(Error("wrong cert version"))
            else
              match env.p384Key(cert.subjectPublicKey)
              case None => Panicked(NotP384Point)
              case Some(key) =>
                match env.verifySignature(sign1, key)
                case Err(e) => Rejected(CoseError(e))
                case Ok(valid) =>
                  if !valid then Rejected(CoseError(UnimplementedError))
                  else Accepted(NitroAdDoc(p, verifyErr))
  }

  /** What `from_bytes(bytes, root_cert, unix_ts_sec)` does when the system clock reads
      `now` milliseconds. */
  function Verify(env: Env, bytes: Bytes, rootCert: Bytes, unixTsSec: U64, now: int): Verdict {
    match Unwrap(env, bytes)
    case Err(e) => Rejected(e)
    case Ok((sign1, p)) =>
      match FieldFault(p, now)
      case Some(e) => Rejected(e)
      case None => CheckIdentity(env, sign1, p, rootCert, unixTsSec)
  }

  /** `from_bytes`, with the PCR loop run by ValidateFields. */
  method FromBytes(env: Env, bytes: Bytes, rootCert: Bytes, unixTsSec: U64, now: int) returns (v: Verdict)
    ensures v == Verify(env, bytes, rootCert, unixTsSec, now)
  {
    var unwrapped := Unwrap(env, bytes);
    if unwrapped.Err? {
      return Rejected(unwrapped.error);
    }
    var (sign1, p) := unwrapped.value;
    var fault := ValidateFields(p, now);
    if fault.Some? {
      return Rejected(fault.value);
    }
    v := CheckIdentity(env, sign1, p, rootCert, unixTsSec);
  }

  /** The leaf's key, when the leaf parses with nothing left over, is X.509 v3 and holds
      a P-384 point. */
  function LeafKey(env: Env, certificate: Bytes): Option<EcKey> {
    match env.parseX509(certificate)
    case Err(_) => None
    case Ok((rem, cert)) =>
      if |rem| == 0 && cert.version == V3 then env.p384Key(cert.subjectPublicKey) else None
  }

  /** A returned document holds the payload exactly as decoded, satisfies every field
      invariant, was checked against the caller's root alone with `cabundle[1..]` as
      intermediates, and its envelope signature verified under the leaf's key. */
  lemma AcceptedDocument(env: Env, bytes: Bytes, rootCert: Bytes, unixTsSec: U64, now: int)
    requires Verify(env, bytes, rootCert, unixTsSec, now).Accepted?
    ensures var doc := Verify(env, bytes, rootCert, unixTsSec, now).doc;
      && Unwrap(env, bytes).Ok?
      && doc.payload == Unwrap(env, bytes).value.1
      && WellFormed(doc.payload, now)
      && doc.payload.pcrs.Keys == ByteRange(|doc.payload.pcrs|)
      && |doc.payload.cabundle| >= 1
      && env.trustAnchor(rootCert).Some?
      && env.endEntity(doc.payload.certificate).Ok?
      && doc.VerificationError() ==
           env.verifyChain(env.endEntity(doc.payload.certificate).value, AllSigAlgs(env.allocFeature),
                           [env.trustAnchor(rootCert).value], doc.payload.cabundle[1..], unixTsSec)
      && LeafKey(env, doc.payload.certificate).Some?
      && env.verifySignature(Unwrap(env, bytes).value.0, LeafKey(env, doc.payload.certificate).value) == Ok(true)
  {
    var p := Unwrap(env, bytes).value.1;
    FieldFaultSound(p, now);
  }

  /** The converse of AcceptedDocument: a document that passes every stage is accepted, with
      the payload as decoded and the chain check's outcome, whatever it is, recorded. */
  lemma ValidDocumentAccepted(env: Env, bytes: Bytes, rootCert: Bytes, unixTsSec: U64, now: int)
    requires Unwrap(env, bytes).Ok?
    requires var p := Unwrap(env, bytes).value.1;
      && WellFormed(p, now)
      && |p.cabundle| >= 1
      && env.trustAnchor(rootCert).Some?
      && env.endEntity(p.certificate).Ok?
      && LeafKey(env, p.certificate).Some?
      && env.verifySignature(Unwrap(env, bytes).value.0, LeafKey(env, p.certificate).value) == Ok(true)
    ensures var p := Unwrap(env, bytes).value.1;
      Verify(env, bytes, rootCert, unixTsSec, now) ==
        Accepted(NitroAdDoc(p, env.verifyChain(env.endEntity(p.certificate).value, AllSigAlgs(env.allocFeature),
                                               [env.trustAnchor(rootCert).value], p.cabundle[1..], unixTsSec)))
  {
    FieldFaultSound(Unwrap(env, bytes).value.1, now);
  }

  /** A signature that does not verify, or a verifier error, aborts the pipeline whatever the
      chain check said. */
  lemma SignatureFailureIsFatal(env: Env, bytes: Bytes, rootCert: Bytes, unixTsSec: U64, now: int)
    requires Unwrap(env, bytes).Ok?
    requires LeafKey(env, Unwrap(env, bytes).value.1.certificate).Some?
    requires env.verifySignature(Unwrap(env, bytes).value.0,
                                 LeafKey(env, Unwrap(env, bytes).value.1.certificate).value) != Ok(true)
    ensures Verify(env, bytes, rootCert, unixTsSec, now).Rejected? ||
            Verify(env, bytes, rootCert, unixTsSec, now).Panicked?
    ensures var (sign1, p) := Unwrap(env, bytes).value;
      var outcome := env.verifySignature(sign1, LeafKey(env, p.certificate).value);
      FieldFault(p, now).None? && |p.cabundle| >= 1 && env.trustAnchor(rootCert).Some? &&
      env.endEntity(p.certificate).Ok? ==>
        Verify(env, bytes, rootCert, unixTsSec, now) ==
          Rejected(CoseError(if outcome.Err? then outcome.error else UnimplementedError))
  {
  }

  /** Chain validation never decides the verdict: with any root that parses and at any
      reference time, the document is accepted or refused alike, with the same payload;
      only the recorded chain error may differ. */
  lemma ChainErrorIsSoft(env: Env, bytes: Bytes, now: int,
                         root1: Bytes, time1: U64, root2: Bytes, time2: U64)
    requires env.trustAnchor(root1).Some? && env.trustAnchor(root2).Some?
    ensures var v1, v2 := Verify(env, bytes, root1, time1, now), Verify(env, bytes, root2, time2, now);
      && v1.Accepted? == v2.Accepted?
      && (v1.Accepted? ==> v1.doc.payload == v2.doc.payload)
      && (!v1.Accepted? ==> v1 == v2)
  {
  }

  /** A leaf that webpki cannot parse is fatal, and is reported before the chain is
      validated; anything the chain validation reports is not. */
  lemma LeafParsedBeforeChain(env: Env, bytes: Bytes, rootCert: Bytes, unixTsSec: U64, now: int)
    requires Unwrap(env, bytes).Ok?
    requires FieldFault(Unwrap(env, bytes).value.1, now).None?
    requires |Unwrap(env, bytes).value.1.cabundle| >= 1 && env.trustAnchor(rootCert).Some?
    ensures var p := Unwrap(env, bytes).value.1;
      env.endEntity(p.certificate).Err? ==>
        Verify(env, bytes, rootCert, unixTsSec, now) == Rejected(VerificationError(env.endEntity(p.certificate).error))
  {
  }

  /** The three panics of `from_bytes`, each reached only after the stages before it pass. */
  lemma PanicSites(env: Env, bytes: Bytes, rootCert: Bytes, unixTsSec: U64, now: int)
    ensures var v := Verify(env, bytes, rootCert, unixTsSec, now);
      v == Panicked(EmptyCaBundle) <==>
        Unwrap(env, bytes).Ok? && FieldFault(Unwrap(env, bytes).value.1, now).None? &&
        |Unwrap(env, bytes).value.1.cabundle| == 0
    ensures var v := Verify(env, bytes, rootCert, unixTsSec, now);
      v == Panicked(UnparsableTrustAnchor) <==>
        Unwrap(env, bytes).Ok? && FieldFault(Unwrap(env, bytes).value.1, now).None? &&
        |Unwrap(env, bytes).value.1.cabundle| >= 1 && env.trustAnchor(rootCert).None?
    ensures var v := Verify(env, bytes, rootCert, unixTsSec, now);
      v == Panicked(NotP384Point) <==>
        && Unwrap(env, bytes).Ok?
        && var p := Unwrap(env, bytes).value.1;
        && FieldFault(p, now).None?
        && |p.cabundle| >= 1 && env.trustAnchor(rootCert).Some?
        && env.endEntity(p.certificate).Ok?
        && env.parseX509(p.certificate).Ok?
        && var (rem, cert) := env.parseX509(p.certificate).value;
        && |rem| == 0 && cert.version == V3
        && env.p384Key(cert.subjectPublicKey).None?
    ensures var v := Verify(env, bytes, rootCert, unixTsSec, now);
      v == Panicked(NotP384Point) ==> WellFormed(Unwrap(env, bytes).value.1, now)
  {
    if Unwrap(env, bytes).Ok? {
      FieldFaultSound(Unwrap(env, bytes).value.1, now);
    }
  }
}
