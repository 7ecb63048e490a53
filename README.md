# Nitro Enclaves attestation document verifier, modelled in Dafny

This project models the core of a Rust library that verifies AWS Nitro Enclaves
attestation documents. That core is `NitroAdDoc::from_bytes` in `src/lib.rs`. It
takes the document bytes, the caller's pinned root certificate and a reference time,
and runs a fixed pipeline:

1. Unwrap the COSE_Sign1 envelope (section 4.2 of RFC 8152) and CBOR-decode the payload.
2. Run fail-fast guards on the decoded fields, in this order: `module_id`, `digest`,
   the timestamp window, the PCR count, then each PCR index from 0 upwards.
3. Validate the leaf certificate's chain. The caller's root is the only trust
   anchor, and `cabundle[1..]` are the intermediates. A failure here is soft: it is
   kept in the document and does not abort.
4. Check that the leaf parses as X.509 v3 with no trailing bytes.
5. Verify the ES384 envelope signature under the leaf's P-384 key. A failure here is
   fatal.

The model also covers the report side of the library:
- `to_json`, `x509s_to_json`, `x509_to_json` and `pcrs_to_json`;
- the sorted PCR serialisation `ser_peer_public`;
- the accessor `verification_error`;
- the signature allow-list `ALL_SIGALGS`.

Modules, one per file:

- `Wrappers` (`wrappers.dfy`): `Option` and `Result`.
- `Decimal` (`decimal.dfy`): the decimal text of a PCR index, as used in error
  messages and report keys, and the parser that reads it back.
- `Document` (`document.dfy`): the payload, envelope, error and verdict datatypes,
  `ALL_SIGALGS`, and `Env`.
  - `Env` holds the foreign libraries (COSE, CBOR, webpki, x509-parser, openssl, hex,
    base64, chrono), each as a field holding the function it computes.
  - Every theorem holds for every such collaborator.
- `Validation` (`validation.dfy`): the field guards.
  - `FieldFault` is the specification function.
  - `ValidateFields` is the method with the PCR loop.
- `Pipeline` (`pipeline.dfy`): the whole of `from_bytes`.
  - `Verify` is the specification function; `FromBytes` is the method.
  - `from_bytes` either returns a document, returns an error, or panics. These are
    the three verdicts `Accepted`, `Rejected` and `Panicked(site)`.
  - The three panics are a distinct outcome, never an ordinary error:
    - `&interm[1..]` on an empty bundle;
    - the `unwrap` of the trust anchor;
    - the `unwrap`s of the P-384 point and key.
- `Report` (`report.dfy`): the report, as a JSON value.

`Utc::now()` is the parameter `now` (milliseconds since the epoch). Timestamps are
integer milliseconds. `pcrs.len() as u8` is written out as `|pcrs| % 256`.

`ALL_SIGALGS` also holds `RSA_PKCS1_3072_8192_SHA384` when `alloc` is on
(src/lib.rs:50); the model follows the code.

## Model

| member | source | states |
|---|---|---|
| Document.AllSigAlgs | src/lib.rs:37-51 | The allow-list has 9 algorithms with `alloc`, 5 without, and no algorithm twice. |
| Document.AllSigAlgsMembers | src/lib.rs:37-51 | An algorithm is allowed iff it is not RSA or the `alloc` feature is on. |
| Decimal.DecimalRoundTrip | src/lib.rs:185 | The decimal text of an index reads back as that index. |
| Decimal.DecimalInjective | src/lib.rs:276-278 | Distinct indices are written as distinct texts. |
| Validation.KeyCountBound | src/lib.rs:174-175 | A `u8`-keyed map has at most 256 entries, so the `as u8` cast changes the count only at 256, where it becomes 0. |
| Validation.PcrKeysExact | src/lib.rs:182-185 | A map of n entries that contains every key 0..n-1 has exactly the keys 0..n-1. |
| Validation.FirstPcrFaultIsFirst | src/lib.rs:182-195 | The index scan reports nothing iff every index passes. Otherwise it reports the error of the smallest failing index, and every smaller index passes. |
| Validation.FieldFaultSound | src/lib.rs:154-195 | The guards report nothing iff: the module id is non-empty; the digest is "SHA384"; 2020-01-01T00:00:00Z < timestamp < now + 1 day; 1 <= \|pcrs\| < 32; the keys are exactly 0..n-1; and every PCR is 32, 48 or 64 bytes. |
| Validation.FieldChecksInOrder | src/lib.rs:154-179 | The guards run in source order, and the first failing one gives its exact message. The count check compares the true entry count with [1, 32). |
| Validation.PcrFaultNamesIndex | src/lib.rs:181-193 | A PCR error message determines the index it was raised for. |
| Validation.ValidateFields | src/lib.rs:154-195 | The guard sequence with the early-exit PCR loop returns exactly the specified first fault. It returns none iff the payload is well formed. |
| Pipeline.FromBytes | src/lib.rs:140-253 | The method's verdict is exactly the specified pipeline's verdict, for every input, clock reading and collaborator. |
| Pipeline.AcceptedDocument | src/lib.rs:197-252 | A returned document satisfies all of the following: its payload is exactly the decoded one and is well formed; the bundle is non-empty; `verification_error()` is the chain check's result, with the caller's root as the sole anchor and `cabundle[1..]` as intermediates; the leaf is v3 with nothing left over and holds a P-384 key; and the envelope signature verified under that key. |
| Pipeline.ValidDocumentAccepted | src/lib.rs:197-252 | A document that decodes, is well formed, has a non-empty bundle and a parsable root, has a leaf webpki accepts that is v3 with nothing left over and holds a P-384 key, and whose envelope signature verifies under that key, is accepted. Its payload is the decoded one, and `verification_error()` is the chain check's result with the caller's root as sole anchor and `cabundle[1..]` as intermediates. |
| Pipeline.SignatureFailureIsFatal | src/lib.rs:215-247 | A signature that does not verify, or a verifier error, never yields a document. Past the earlier stages it yields that COSE error, or `UnimplementedError` for a false result. |
| Pipeline.ChainErrorIsSoft | src/lib.rs:201-213 | For any two parsable roots and any two reference times, acceptance and the accepted payload are the same, and refusals and panics are identical. Only the recorded chain error may differ. |
| Pipeline.LeafParsedBeforeChain | src/lib.rs:207-213 | Once the guards pass, the bundle is non-empty and the root parses, a leaf that webpki cannot parse is reported as `VerificationError`, before any chain result. |
| Pipeline.PanicSites | src/lib.rs:199-231 | The empty-bundle panic happens exactly when the guards pass and the bundle is empty. The root panic happens exactly when the guards pass, the bundle is non-empty and the root does not parse. The P-384 panic happens exactly when all of these hold: the guards pass; the bundle is non-empty; the root and the leaf parse for webpki; the leaf is v3 with nothing left over; and its key is not a P-384 point. A payload that reaches that panic is well formed. |
| Report.SerPeerPublic | src/lib.rs:83-92 | Each PCR appears exactly once, paired with the hex of its value, and indices strictly ascend. |
| Report.PcrsToJson | src/lib.rs:276-282 | Every PCR has a member, named by its decimal index and holding the hex of its value. No member name occurs twice. |
| Report.PcrsToJsonReadsBack | src/lib.rs:276-282 | Every member name is all digits and reads back as a PCR index, and the member holds the hex of that PCR. |
| Report.PcrsToJsonExact | src/lib.rs:276-281 | There is no other member: every member is the decimal name and hex value of some PCR. With Report.PcrsToJson, the members are exactly one per PCR. |
| Report.CertToJson | src/lib.rs:284-296 | A certificate's entry exists iff the parser accepts it. Otherwise the error is `X509Error` with the parser's message. An entry is exactly `issuer` and `subject`, holding the parsed certificate's names, then `validity` holding `not_before` and `not_after`, its validity dates. |
| Report.X509sToJson | src/lib.rs:298-308 | The list succeeds iff every bundle certificate and the leaf parse. It then has \|cabundle\| + 1 entries: the bundle in order, then the leaf. On failure it carries the error of the first certificate that fails. |
| Report.ToJson | src/lib.rs:255-269 | The report fails iff some certificate fails to parse, and then with the first failure's error. Otherwise its members, named in source order, hold: the payload's text fields; the PCR object; the certificate list (\|cabundle\| + 1 entries, in order); base64 of each optional blob or null; and the chain error's name or null. |

`verification_error()` is `Document.NitroAdDoc.VerificationError`. What it returns
for a document from `from_bytes` is stated by `Pipeline.AcceptedDocument` and
`Pipeline.ValidDocumentAccepted`.

## Left out

- COSE_Sign1 decoding, `get_payload`, Sig_structure construction and ECDSA
  verification (src/lib.rs:145, 151, 237) are foreign library code. They are `Env`
  functions.
- CBOR decoding (src/lib.rs:152) is foreign library code. It is an `Env` function
  returning a `Payload` or an error.
- webpki trust-anchor parsing, end-entity parsing and path validation
  (src/lib.rs:207-213) are foreign library code. They are `Env` functions. The
  signature algorithms themselves are only names.
- x509-parser and openssl EC-point parsing (src/lib.rs:215-231, 285) are reduced to
  what the verifier observes:
  - the remainder;
  - the version;
  - the subject key;
  - whether the key is a P-384 point;
  - the issuer, subject and validity rendered as text.
- The text encoders are `Env` functions, with no modelled internals: hex, base64 and
  the chrono `to_string` of the timestamp. A parser error's `Display` text (used by
  `x509_to_json`, src/lib.rs:286) and its `Debug` text (used in the `from_bytes`
  message, src/lib.rs:242-245) are the `display` and `debug` fields of the
  `X509ParseError` that `Env.parseX509` returns; how x509-parser renders them is
  not modelled.
- `json::stringify` (src/lib.rs:268) is not modelled. The report is the JSON value
  before it is rendered as text.
- Report.PcrsToJson: the source inserts members in hash-map iteration order, which is
  unspecified. The model lists them by ascending index. Its contract and
  Report.PcrsToJsonExact state exact membership (one member per PCR, no other) and
  distinct names, which do not depend on order.
- The `Display` impl and the `From` conversions (src/lib.rs:104-132) are plumbing.
  Each error variant is built directly.
- `SerializationError` is never produced by the modelled code. It is kept only as a
  variant.
- The derived serde `Serialize` of the payload is not modelled, apart from its PCR
  serialiser `ser_peer_public`. Nothing in the modelled code calls it.
- The tests use binary fixtures and a fixed test key, so they cannot be reproduced
  (src/lib.rs:314-492). With any root that still parses as a trust anchor, and at
  any reference time, the verifier accepts or refuses alike, with the same payload
  (Pipeline.ChainErrorIsSoft). The document records webpki's verdict as
  `verification_error()` (Pipeline.AcceptedDocument, Pipeline.ValidDocumentAccepted).
  That webpki's verdict is an error for these fixtures is webpki's behaviour and is
  not modelled.
- Clones and slices of the certificate bundle are not modelled separately. They are
  the sequence `cabundle[1..]`.
- Rust's `DateTime` range limits are not modelled. The timestamp is an unbounded
  integer number of milliseconds.
