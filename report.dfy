/** The report of a verified document (src/lib.rs:83-92, 255-308): `to_json` and its helpers,
    and the sorted PCR serialisation `ser_peer_public`. JSON is kept as a value; rendering it
    as text is not modelled. */
module Report {
  import opened Wrappers
  import opened Document
  import Decimal

  /** A JSON value; an object lists its members in insertion order, as the `json` crate
      keeps them. */
  datatype Json = Null | Str(text: string) | Array(items: seq<Json>) | Object(members: seq<(string, Json)>)

  /** An optional string as the `json` crate stores it: `None` becomes null. */
  function OptionalText(s: Option<string>): Json {
    match s
    case None => Null
    case Some(t) => Str(t)
  }

  function OptionalBase64(env: Env, b: Option<Bytes>): Json {
    OptionalText(match b case None => None case Some(v) => Some(env.base64(v)))
  }

  /** The entries of the indices from `from` on, in ascending order. */
  function SortedFrom(pcrs: map<Byte, Bytes>, hex: Bytes -> string, from: nat): (r: seq<(Byte, string)>)
    requires from <= 256
    ensures forall e :: e in r ==> from <= e.0 && e.0 in pcrs && e.1 == hex(pcrs[e.0])
    ensures forall i :: i in pcrs && from <= i ==> (i, hex(pcrs[i])) in r
    ensures forall j, k :: 0 <= j < k < |r| ==> r[j].0 < r[k].0
    decreases 256 - from
  {
    if from == 256 then []
    else (if from in pcrs then [(from as Byte, hex(pcrs[from]))] else []) + SortedFrom(pcrs, hex, from + 1)
  }

  /** `ser_peer_public`: the PCR entries as (index, hex) pairs in ascending index order,
      each PCR exactly once. */
  function SerPeerPublic(pcrs: map<Byte, Bytes>, hex: Bytes -> string): (entries: seq<(Byte, string)>)
    ensures forall e :: e in entries <==> e.0 in pcrs && e.1 == hex(pcrs[e.0])
    ensures forall j, k :: 0 <= j < k < |entries| ==> entries[j].0 < entries[k].0
  {
    SortedFrom(pcrs, hex, 0)
  }

  /** `pcrs_to_json`: one member per PCR, named by the index in decimal and holding the hex
      of its value, and no name twice. (The source lists members in hash-map order; this
      model lists them by index.) */
  function PcrsToJson(pcrs: map<Byte, Bytes>, hex: Bytes -> string): (members: seq<(string, Json)>)
    ensures forall i :: i in pcrs ==> (Decimal.DecimalString(i), Str(hex(pcrs[i]))) in members
    ensures forall j, k :: 0 <= j < k < |members| ==> members[j].0 != members[k].0
  {
    var entries := SerPeerPublic(pcrs, hex);
    var members := PcrMembers(entries);
    PcrMemberNamesDistinct(entries, members);
    members
  }

  /** The members for (index, hex) entries, in the entries' order. */
  function PcrMembers(entries: seq<(Byte, string)>): (members: seq<(string, Json)>)
  {
    seq(|entries|, k requires 0 <= k < |entries| => (Decimal.DecimalString(entries[k].0), Str(entries[k].1)))
  }

  /** Every member of `pcrs_to_json` is named by digits that read back as a PCR index, and
      holds the hex of that PCR. */
  lemma PcrsToJsonReadsBack(pcrs: map<Byte, Bytes>, hex: Bytes -> string)
    ensures forall m :: m in PcrsToJson(pcrs, hex) ==>
              && (forall k :: 0 <= k < |m.0| ==> Decimal.IsDigit(m.0[k]))
              && Decimal.ParseDecimal(m.0) in pcrs
              && m.1 == Str(hex(pcrs[Decimal.ParseDecimal(m.0)]))
  {
    var entries := SerPeerPublic(pcrs, hex);
    PcrMembersReadBack(pcrs, hex, entries, PcrMembers(entries));
  }

  /** `pcrs_to_json` has no member beyond the one per PCR: each member is the decimal
      name and hex value of some PCR. */
  lemma PcrsToJsonExact(pcrs: map<Byte, Bytes>, hex: Bytes -> string)
    ensures forall m :: m in PcrsToJson(pcrs, hex) ==>
              exists i :: i in pcrs && m == (Decimal.DecimalString(i), Str(hex(pcrs[i])))
  {
  }

  /** Every member's name reads back as a PCR index whose hex it holds. */
  lemma PcrMembersReadBack(pcrs: map<Byte, Bytes>, hex: Bytes -> string,
                           entries: seq<(Byte, string)>, members: seq<(string, Json)>)
    requires forall e :: e in entries ==> e.0 in pcrs && e.1 == hex(pcrs[e.0])
    requires |members| == |entries|
    requires forall k :: 0 <= k < |entries| ==>
               members[k] == (Decimal.DecimalString(entries[k].0), Str(entries[k].1))
    ensures forall m :: m in members ==>
              && (forall k :: 0 <= k < |m.0| ==> Decimal.IsDigit(m.0[k]))
              && Decimal.ParseDecimal(m.0) in pcrs
              && m.1 == Str(hex(pcrs[Decimal.ParseDecimal(m.0)]))
  {
    forall m | m in members
      ensures (forall k :: 0 <= k < |m.0| ==> Decimal.IsDigit(m.0[k]))
      ensures Decimal.ParseDecimal(m.0) in pcrs && m.1 == Str(hex(pcrs[Decimal.ParseDecimal(m.0)]))
    {
      var k :| 0 <= k < |members| && members[k] == m;
      var e := entries[k];
      assert e in entries;
      Decimal.DecimalRoundTrip(e.0);
    }
  }

  /** Ascending indices give distinct names. */
  lemma PcrMemberNamesDistinct(entries: seq<(Byte, string)>, members: seq<(string, Json)>)
    requires forall j, k :: 0 <= j < k < |entries| ==> entries[j].0 < entries[k].0
    requires |members| == |entries|
    requires forall k :: 0 <= k < |entries| ==>
               members[k] == (Decimal.DecimalString(entries[k].0), Str(entries[k].1))
    ensures forall j, k :: 0 <= j < k < |members| ==> members[j].0 != members[k].0
  {
    forall j, k | 0 <= j < k < |members|
      ensures members[j].0 != members[k].0
    {
      Decimal.DecimalInjective(entries[j].0, entries[k].0);
    }
  }

  /** `x509_to_json`: issuer, subject and validity window of one certificate, or an
      `X509Error` carrying the parser's message. */
  function CertToJson(env: Env, der: Bytes): (r: Result<Json, NitroAdError>)
    ensures r.Ok? <==> env.parseX509(der).Ok?
    ensures r.Err? ==> r.error == X509Error(env.parseX509(der).error.display)
    ensures r.Ok? ==>
      var cert := env.parseX509(der).value.1;
      r.value == Object([
        ("issuer", Str(cert.issuer)),
        ("subject", Str(cert.subject)),
        ("validity", Object([("not_before", Str(cert.notBefore)), ("not_after", Str(cert.notAfter))]))])
  {
    match env.parseX509(der)
    case Err(e) => Err(X509Error(e.display))
    case Ok((_, cert)) =>
      Ok(Object([
        ("issuer", Str(cert.issuer)),
        ("subject", Str(cert.subject)),
        ("validity", Object([("not_before", Str(cert.notBefore)), ("not_after", Str(cert.notAfter))]))]))
  }

  /** The certificates of the report, in order: the bundle, then the leaf. */
  function ReportCerts(certificate: Bytes, cabundle: seq<Bytes>): seq<Bytes> {
    cabundle + [certificate]
  }

  /** `x509s_to_json`: one entry per bundle certificate in order, then the leaf; the first
      certificate that fails to parse fails the whole list. */
  method X509sToJson(env: Env, certificate: Bytes, cabundle: seq<Bytes>) returns (r: Result<seq<Json>, NitroAdError>)
    ensures var certs := ReportCerts(certificate, cabundle);
      r.Ok? <==> forall k :: 0 <= k < |certs| ==> CertToJson(env, certs[k]).Ok?
    ensures var certs := ReportCerts(certificate, cabundle);
      r.Ok? ==> |r.value| == |cabundle| + 1 &&
                forall k :: 0 <= k < |certs| ==> CertToJson(env, certs[k]) == Ok(r.value[k])
    ensures var certs := ReportCerts(certificate, cabundle);
      r.Err? ==> exists j :: 0 <= j < |certs| && CertToJson(env, certs[j]) == Err(r.error) &&
                   forall k :: 0 <= k < j ==> CertToJson(env, certs[k]).Ok?
  {
    ghost var certs := ReportCerts(certificate, cabundle);
    var result: seq<Json> := [];
    for n := 0 to |cabundle|
      invariant |result| == n
      invariant forall k :: 0 <= k < n ==> CertToJson(env, cabundle[k]) == Ok(result[k])
    {
      var item := CertToJson(env, cabundle[n]);
      if item.Err? {
        assert certs[n] == cabundle[n];
        return Err(item.error);
      }
      result := result + [item.value];
    }
    var leaf := CertToJson(env, certificate);
    if leaf.Err? {
      assert certs[|cabundle|] == certificate;
      return Err(leaf.error);
    }
    result := result + [leaf.value];
    return Ok(result);
  }

  /** The names of the report's members, in order. */
  const ReportMemberNames: seq<string> :=
    ["module_id", "digest", "timestamp", "pcrs", "certs", "public_key", "user_data", "nonce", "verification_error"]

  /** The report object around the already converted PCRs and certificate list. */
  function ReportObject(env: Env, doc: NitroAdDoc, pcrs: seq<(string, Json)>, certs: seq<Json>): (obj: Json)
    ensures var p := doc.payload;
      && obj.Object?
      && |obj.members| == |ReportMemberNames|
      && (forall k :: 0 <= k < |ReportMemberNames| ==> obj.members[k].0 == ReportMemberNames[k])
      && obj.members[0].1 == Str(p.moduleId)
      && obj.members[1].1 == Str(p.digest)
      && obj.members[2].1 == Str(env.timestampText(p.timestamp))
      && obj.members[3].1 == Object(pcrs)
      && obj.members[4].1 == Array(certs)
      && obj.members[5].1 == OptionalBase64(env, p.publicKey)
      && obj.members[6].1 == OptionalBase64(env, p.userData)
      && obj.members[7].1 == OptionalBase64(env, p.nonce)
      && obj.members[8].1 ==
           OptionalText(match doc.VerificationError() case None => None case Some(e) => Some(e.ToString()))
  {
    var p := doc.payload;
    var verificationError := match doc.VerificationError() case None => None case Some(e) => Some(e.ToString());
    var values := [
      Str(p.moduleId),
      Str(p.digest),
      Str(env.timestampText(p.timestamp)),
      Object(pcrs),
      Array(certs),
      OptionalBase64(env, p.publicKey),
      OptionalBase64(env, p.userData),
      OptionalBase64(env, p.nonce),
      OptionalText(verificationError)];
    Object(seq(|ReportMemberNames|, k requires 0 <= k < |ReportMemberNames| => (ReportMemberNames[k], values[k])))
  }

  /** `to_json`: the report object. The payload's text fields are echoed, the PCRs given by
      PcrsToJson, the certificates by X509sToJson (bundle then leaf), the optional blobs in
      base64 or null, and the chain error by name or null. It fails, with the error of the
      first certificate that does not parse, exactly when some certificate does not parse. */
  method ToJson(env: Env, doc: NitroAdDoc) returns (r: Result<Json, NitroAdError>)
    ensures var certs := ReportCerts(doc.payload.certificate, doc.payload.cabundle);
      r.Ok? <==> forall k :: 0 <= k < |certs| ==> CertToJson(env, certs[k]).Ok?
    ensures var certs := ReportCerts(doc.payload.certificate, doc.payload.cabundle);
      r.Err? ==> exists j :: 0 <= j < |certs| && CertToJson(env, certs[j]) == Err(r.error) &&
                   forall k :: 0 <= k < j ==> CertToJson(env, certs[k]).Ok?
    ensures r.Ok? ==>
      var p := doc.payload;
      && r.value.Object?
      && |r.value.members| == |ReportMemberNames|
      && (forall k :: 0 <= k < |ReportMemberNames| ==> r.value.members[k].0 == ReportMemberNames[k])
      && r.value.members[0].1 == Str(p.moduleId)
      && r.value.members[1].1 == Str(p.digest)
      && r.value.members[2].1 == Str(env.timestampText(p.timestamp))
      && r.value.members[3].1 == Object(PcrsToJson(p.pcrs, env.hex))
      && r.value.members[4].1.Array?
      && |r.value.members[4].1.items| == |p.cabundle| + 1
      && (forall k :: 0 <= k < |p.cabundle| + 1 ==>
            CertToJson(env, ReportCerts(p.certificate, p.cabundle)[k]) == Ok(r.value.members[4].1.items[k]))
      && r.value.members[5].1 == OptionalBase64(env, p.publicKey)
      && r.value.members[6].1 == OptionalBase64(env, p.userData)
      && r.value.members[7].1 == OptionalBase64(env, p.nonce)
      && r.value.members[8].1 ==
           OptionalText(match doc.VerificationError() case None => None case Some(e) => Some(e.ToString()))
  {
    var p := doc.payload;
    var certs := X509sToJson(env, p.certificate, p.cabundle);
    if certs.Err? {
      return Err(certs.error);
    }
    r := Ok(ReportObject(env, doc, PcrsToJson(p.pcrs, env.hex), certs.value));
  }
}
