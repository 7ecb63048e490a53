/** The data of an AWS Nitro Enclaves attestation document as the verifier sees it
    (src/lib.rs), and the foreign libraries it calls, given as the functions they compute. */
module Document {
  import opened Wrappers

  /** An octet; also the type of a PCR index (`u8`). */
  type Byte = b: int | 0 <= b < 256

  type Bytes = seq<Byte>

  /** Seconds since the Unix epoch, the `u64` reference time of certificate validation. */
  type U64 = t: int | 0 <= t < 0x1_0000_0000_0000_0000

  /** The CBOR payload of the document (`NitroAdDocPayload`); `timestamp` is in
      milliseconds since the Unix epoch. */
  datatype Payload = Payload(
    moduleId: string,
    digest: string,
    timestamp: int,
    pcrs: map<Byte, Bytes>,
    certificate: Bytes,
    cabundle: seq<Bytes>,
    publicKey: Option<Bytes>,
    userData: Option<Bytes>,
    nonce: Option<Bytes>)

  /** A COSE_Sign1 structure (section 4.2 of RFC 8152) as decoded, signature not yet checked. */
  datatype CoseSign1 = CoseSign1(
    protectedHeader: Bytes,
    unprotectedHeader: Bytes,
    payload: Bytes,
    signature: Bytes)

  /** Errors of the COSE library; only `UnimplementedError` is produced by the verifier itself. */
  datatype CoseFailure = UnimplementedError | CoseFailure(detail: string)

  datatype CborFailure = CborFailure(detail: string)

  /** A webpki error, named by its variant; its `to_string()` is that name. */
  datatype WebpkiFailure = WebpkiFailure(name: string) {
    function ToString(): string {
      name
    }
  }

  /** An error of x509-parser: its `Display` and its `Debug` renderings. */
  datatype X509ParseError = X509ParseError(display: string, debug: string)

  /** Fields of a parsed X.509 certificate that the verifier and the report use;
      names and dates already rendered as text. */
  datatype X509Certificate = X509Certificate(
    version: nat,
    subjectPublicKey: Bytes,
    issuer: string,
    subject: string,
    notBefore: string,
    notAfter: string)

  /** `X509Version::V3`: the version field holds 2 (section 4.1.2.1 of RFC 5280). */
  const V3: nat := 2

  datatype TrustAnchor = TrustAnchor(der: Bytes)

  datatype EndEntityCert = EndEntityCert(der: Bytes)

  /** A public key on curve P-384. */
  datatype EcKey = EcKey(point: Bytes)

  /** The signature algorithms webpki may accept on a certificate path. */
  datatype SignatureAlgorithm =
    | EcdsaP256Sha256
    | EcdsaP256Sha384
    | EcdsaP384Sha256
    | EcdsaP384Sha384
    | Ed25519
    | RsaPkcs1_2048_8192Sha256
    | RsaPkcs1_2048_8192Sha384
    | RsaPkcs1_2048_8192Sha512
    | RsaPkcs1_3072_8192Sha384
  {
    predicate IsRsa() {
      RsaPkcs1_2048_8192Sha256? || RsaPkcs1_2048_8192Sha384? ||
      RsaPkcs1_2048_8192Sha512? || RsaPkcs1_3072_8192Sha384?
    }
  }

  /** `ALL_SIGALGS`: the ECDSA and Ed25519 algorithms always, the RSA ones only when the
      crate is built with its `alloc` feature; each algorithm once. */
  function AllSigAlgs(alloc: bool): (algs: seq<SignatureAlgorithm>)
    ensures |algs| == if alloc then 9 else 5
    ensures forall j, k :: 0 <= j < k < |algs| ==> algs[j] != algs[k]
  {
    [EcdsaP256Sha256, EcdsaP256Sha384, EcdsaP384Sha256, EcdsaP384Sha384, Ed25519] +
    if alloc then
      [RsaPkcs1_2048_8192Sha256, RsaPkcs1_2048_8192Sha384,
       RsaPkcs1_2048_8192Sha512, RsaPkcs1_3072_8192Sha384]
    else []
  }

  /** An algorithm is allowed exactly when it is not RSA or the `alloc` feature is on. */
  lemma AllSigAlgsMembers(alloc: bool, a: SignatureAlgorithm)
    ensures a in AllSigAlgs(alloc) <==> (a.IsRsa() ==> alloc)
  {
  }

  /** `NitroAdError`. */
  datatype NitroAdError =
    | CoseError(cose: CoseFailure)
    | CborError(cbor: CborFailure)
    | VerificationError(webpki: WebpkiFailure)
    | SerializationError(json: string)
    | X509Error(reason: string)
    | Error(message: string)

  /** A verified document: the payload as decoded and the outcome of chain validation,
      never changed after construction. */
  datatype NitroAdDoc = NitroAdDoc(payload: Payload, verifyErr: Option<WebpkiFailure>) {
    /** `verification_error()`. */
    function VerificationError(): Option<WebpkiFailure> {
      verifyErr
    }
  }

  /** The `unwrap`s and the slice of src/lib.rs that panic instead of returning an error. */
  datatype PanicSite =
    | EmptyCaBundle          // `&interm[1..]` on an empty cabundle
    | UnparsableTrustAnchor  // `cert_der_as_trust_anchor(root_cert).unwrap()`
    | NotP384Point           // `EcPoint::from_bytes(..).unwrap()` / `EcKey::from_public_key(..).unwrap()`

  /** What `from_bytes` does: returns `Ok`, returns `Err`, or panics. */
  datatype Verdict =
    | Accepted(doc: NitroAdDoc)
    | Rejected(error: NitroAdError)
    | Panicked(site: PanicSite)

  /** The foreign code the verifier calls, each as the function it computes.
      `hex`, `base64` and `timestampText` are the report's encoders. */
  datatype Env = Env(
    decodeSign1: Bytes -> Result<CoseSign1, CoseFailure>,
    getPayload: CoseSign1 -> Result<Bytes, CoseFailure>,
    decodePayload: Bytes -> Result<Payload, CborFailure>,
    trustAnchor: Bytes -> Option<TrustAnchor>,
    endEntity: Bytes -> Result<EndEntityCert, WebpkiFailure>,
    verifyChain: (EndEntityCert, seq<SignatureAlgorithm>, seq<TrustAnchor>, seq<Bytes>, U64) -> Option<WebpkiFailure>,
    parseX509: Bytes -> Result<(Bytes, X509Certificate), X509ParseError>,
    p384Key: Bytes -> Option<EcKey>,
    verifySignature: (CoseSign1, EcKey) -> Result<bool, CoseFailure>,
    hex: Bytes -> string,
    base64: Bytes -> string,
    timestampText: int -> string,
    allocFeature: bool)
}
