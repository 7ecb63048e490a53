/** The fail-fast field checks of `NitroAdDoc::from_bytes` (src/lib.rs:154-195): module id,
    digest name, timestamp window, PCR count and the PCRs one index at a time. */
module Validation {
  import opened Wrappers
  import opened Document
  import Decimal

  /** 2020-01-01T00:00:00Z in milliseconds since the Unix epoch. */
  const TimestampFloor: int := 1_577_836_800_000

  /** One day in milliseconds: how far in the future a document may be dated. */
  const ClockSkew: int := 86_400_000

  const SupportedDigest: string := "SHA384"

  const ModuleIdEmpty: string := "module_id is empty"
  const DigestUnknown: string := "digest signature is unknown"
  const TimestampWrong: string := "timestamp field has wrong value"
  const WrongPcrCount: string := "wrong number of PCRs in the map"

  const MissingSuffix: string := " is missing"
  const LengthSuffix: string := " len is other than 32/48/64 bytes"

  /** Strictly after the floor and strictly before `now` plus one day; `now` stands for
      the system clock (`Utc::now()`) in milliseconds. */
  predicate TimestampInWindow(timestamp: int, now: int) {
    TimestampFloor < timestamp < now + ClockSkew
  }

  /** The length of a SHA-256, SHA-384 or SHA-512 digest. */
  predicate ValidPcrLength(len: nat) {
    len == 32 || len == 48 || len == 64
  }

  /** `pcrs.len() as u8`: the entry count truncated to eight bits. */
  function PcrCountAsU8(pcrs: map<Byte, Bytes>): Byte {
    |pcrs| % 256
  }

  function MissingPcr(i: Byte): NitroAdError {
    Error("PCR" + Decimal.DecimalString(i) + MissingSuffix)
  }

  function BadPcrLength(i: Byte): NitroAdError {
    Error("PCR" + Decimal.DecimalString(i) + LengthSuffix)
  }

  /** The error for index `i` alone: a missing key first, then a bad length. */
  function PcrFault(pcrs: map<Byte, Bytes>, i: Byte): Option<NitroAdError> {
    if i !in pcrs then Some(MissingPcr(i))
    else if !ValidPcrLength(|pcrs[i]|) then Some(BadPcrLength(i))
    else None
  }

  /** The first error met scanning the indices `from`, `from + 1`, ..., `n - 1`. */
  function FirstPcrFault(pcrs: map<Byte, Bytes>, from: nat, n: nat): Option<NitroAdError>
    requires from <= n <= 256
    decreases n - from
  {
    if from == n then None
    else if PcrFault(pcrs, from).Some? then PcrFault(pcrs, from)
    else FirstPcrFault(pcrs, from + 1, n)
  }

  /** The error `from_bytes` reports for a decoded payload, or None when every check passes. */
  function FieldFault(p: Payload, now: int): Option<NitroAdError> {
    if |p.moduleId| == 0 then Some(Error(ModuleIdEmpty))
    else if p.digest != SupportedDigest then Some(Error(DigestUnknown))
    else if !TimestampInWindow(p.timestamp, now) then Some(Error(TimestampWrong))
    else if !(1 <= PcrCountAsU8(p.pcrs) < 32) then Some(Error(WrongPcrCount))
    else FirstPcrFault(p.pcrs, 0, PcrCountAsU8(p.pcrs))
  }

  /** The indices 0, ..., n - 1. */
  function ByteRange(n: nat): (r: set<Byte>)
    requires n <= 256
    ensures |r| == n
    ensures forall i: Byte :: i in r <==> i < n
  {
    if n == 0 then {} else ByteRange(n - 1) + {n - 1}
  }

  /** The invariants a payload that passes the checks has: PCR keys exactly 0..n-1 for
      n entries with 1 <= n < 32, every PCR 32, 48 or 64 bytes long. */
  predicate PcrsWellFormed(pcrs: map<Byte, Bytes>) {
    && 1 <= |pcrs| < 32
    && pcrs.Keys == ByteRange(|pcrs|)
    && forall i :: i in pcrs ==> ValidPcrLength(|pcrs[i]|)
  }

  predicate WellFormed(p: Payload, now: int) {
    && |p.moduleId| > 0
    && p.digest == SupportedDigest
    && TimestampInWindow(p.timestamp, now)
    && PcrsWellFormed(p.pcrs)
  }

  /** A set of indices below n has at most n elements. */
  lemma IndexSetBound(keys: set<Byte>, n: nat)
    requires n <= 256
    requires forall i :: i in keys ==> i < n
    ensures |keys| <= n
  {
    var all := ByteRange(n);
    assert keys <= all;
    assert all == keys + (all - keys);
    assert keys * (all - keys) == {};
  }

  /** A map keyed by `u8` has at most 256 entries, so the `as u8` cast loses only 256. */
  lemma KeyCountBound(pcrs: map<Byte, Bytes>)
    ensures |pcrs| <= 256
    ensures PcrCountAsU8(pcrs) == if |pcrs| == 256 then 0 else |pcrs|
  {
    IndexSetBound(pcrs.Keys, 256);
  }

  /** n keys that include all of 0..n-1 are exactly 0..n-1. */
  lemma PcrKeysExact(pcrs: map<Byte, Bytes>)
    requires |pcrs| <= 256
    requires forall i: Byte :: i < |pcrs| ==> i in pcrs
    ensures pcrs.Keys == ByteRange(|pcrs|)
  {
    var keys, range := pcrs.Keys, ByteRange(|pcrs|);
    assert range <= keys;
    assert keys == range + (keys - range);
    assert range * (keys - range) == {};
    assert keys - range == {};
  }

  /** The scan reports nothing iff every index passes, and otherwise reports the error of
      the smallest failing index. */
  lemma {:induction false} FirstPcrFaultIsFirst(pcrs: map<Byte, Bytes>, from: nat, n: nat)
    requires from <= n <= 256
    ensures FirstPcrFault(pcrs, from, n).None? <==>
              forall k :: from <= k < n ==> PcrFault(pcrs, k).None?
    ensures FirstPcrFault(pcrs, from, n).Some? ==>
              exists j :: from <= j < n && FirstPcrFault(pcrs, from, n) == PcrFault(pcrs, j) &&
                forall k :: from <= k < j ==> PcrFault(pcrs, k).None?
    decreases n - from
  {
    if from < n && PcrFault(pcrs, from).None? {
      FirstPcrFaultIsFirst(pcrs, from + 1, n);
      var r := FirstPcrFault(pcrs, from + 1, n);
      if r.Some? {
        var j :| from + 1 <= j < n && r == PcrFault(pcrs, j) &&
                 forall k :: from + 1 <= k < j ==> PcrFault(pcrs, k).None?;
        assert forall k :: from <= k < j ==> PcrFault(pcrs, k).None?;
      }
    }
  }

  /** The checks report nothing exactly for the payloads that satisfy the invariants. */
  lemma FieldFaultSound(p: Payload, now: int)
    ensures FieldFault(p, now).None? <==> WellFormed(p, now)
  {
    KeyCountBound(p.pcrs);
    var n := |p.pcrs|;
    if 1 <= n < 32 {
      FirstPcrFaultIsFirst(p.pcrs, 0, n);
      if FirstPcrFault(p.pcrs, 0, n).None? {
        forall i: Byte | i < n
          ensures i in p.pcrs
        {
          assert PcrFault(p.pcrs, i).None?;
        }
        PcrKeysExact(p.pcrs);
        forall i | i in p.pcrs
          ensures ValidPcrLength(|p.pcrs[i]|)
        {
          assert i in ByteRange(n);
          assert PcrFault(p.pcrs, i).None?;
        }
      }
      if PcrsWellFormed(p.pcrs) {
        forall k | 0 <= k < n
          ensures PcrFault(p.pcrs, k).None?
        {
          assert k in ByteRange(n);
        }
      }
    }
  }

  /** The checks run in a fixed order and the first violated one is reported. */
  lemma FieldChecksInOrder(p: Payload, now: int)
    ensures |p.moduleId| == 0 ==> FieldFault(p, now) == Some(Error(ModuleIdEmpty))
    ensures |p.moduleId| > 0 && p.digest != SupportedDigest ==>
              FieldFault(p, now) == Some(Error(DigestUnknown))
    ensures |p.moduleId| > 0 && p.digest == SupportedDigest &&
            !(TimestampFloor < p.timestamp < now + ClockSkew) ==>
              FieldFault(p, now) == Some(Error(TimestampWrong))
    ensures |p.moduleId| > 0 && p.digest == SupportedDigest &&
            TimestampFloor < p.timestamp < now + ClockSkew && !(1 <= |p.pcrs| < 32) ==>
              FieldFault(p, now) == Some(Error(WrongPcrCount))
    ensures |p.moduleId| > 0 && p.digest == SupportedDigest &&
            TimestampFloor < p.timestamp < now + ClockSkew && 1 <= |p.pcrs| < 32 ==>
              FieldFault(p, now) == FirstPcrFault(p.pcrs, 0, |p.pcrs|)
  {
    KeyCountBound(p.pcrs);
  }

  /** An error message names a single PCR index: equal messages come from the same index. */
  lemma PcrFaultNamesIndex(pcrs: map<Byte, Bytes>, i: Byte, pcrs': map<Byte, Bytes>, j: Byte)
    requires PcrFault(pcrs, i).Some? && PcrFault(pcrs, i) == PcrFault(pcrs', j)
    ensures i == j
  {
    var m := PcrFault(pcrs, i).value.message;
    var di, dj := Decimal.DecimalString(i), Decimal.DecimalString(j);
    var si := if i !in pcrs then MissingSuffix else LengthSuffix;
    var sj := if j !in pcrs' then MissingSuffix else LengthSuffix;
    assert m == "PCR" + di + si && m == "PCR" + dj + sj;
    assert m[|m| - 1] == si[|si| - 1];
    assert m[|m| - 1] == sj[|sj| - 1];
    assert si == sj;
    assert |di| == |dj|;
    assert di == m[3..3 + |di|] == dj;
    Decimal.DecimalInjective(i, j);
  }

  /** `from_bytes` lines 154-195: the checks in source order, the PCR indices scanned by a
      loop that stops at the first failing one. */
  method ValidateFields(p: Payload, now: int) returns (fault: Option<NitroAdError>)
    ensures fault == FieldFault(p, now)
    ensures fault.None? <==> WellFormed(p, now)
  {
    FieldFaultSound(p, now);
    if |p.moduleId| == 0 {
      return Some(Error(ModuleIdEmpty));
    }
    if p.digest != SupportedDigest {
      return Some(Error(DigestUnknown));
    }
    if !(TimestampFloor < p.timestamp && p.timestamp < now + ClockSkew) {
      return Some(Error(TimestampWrong));
    }
    var pcrsLen: Byte := |p.pcrs| % 256;
    if !(1 <= pcrsLen < 32) {
      return Some(Error(WrongPcrCount));
    }
    var i: Byte := 0;
    while i < pcrsLen
      invariant i <= pcrsLen
      invariant FirstPcrFault(p.pcrs, i, pcrsLen) == FieldFault(p, now)
    {
      if i !in p.pcrs {
        return Some(MissingPcr(i));
      }
      if !ValidPcrLength(|p.pcrs[i]|) {
        return Some(BadPcrLength(i));
      }
      i := i + 1;
    }
    return None;
  }
}
