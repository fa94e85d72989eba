/**
 Device records, trust and revocation attestations, and key packages: the bytes that
 are signed, the bytes that travel, and the decoders that read them back.
 */
module Records {
  import opened Wrappers
  import opened Wire

  const DEVICE_RECORD_TAG := Ascii("pergamon/v1/device-record")
  const DEVICE_RECORD_WIRE_TAG := Ascii("pergamon/v1/device-record-wire")
  const ATTESTATION_TAG := Ascii("pergamon/v1/attestation")
  const ATTESTATION_WIRE_TAG := Ascii("pergamon/v1/attestation-wire")

  // ----------------------------------------------------------------------
  // Device records
  // ----------------------------------------------------------------------

  datatype DeviceRecord = DeviceRecord(deviceId: Utf8, x25519Pub: Key32, ed25519Pub: Key32, createdAt: I64)

  datatype SignedDeviceRecord = SignedDeviceRecord(record: DeviceRecord, signature: Sig64)

  function DeviceSigningBytes(r: DeviceRecord): Bytes {
    DEVICE_RECORD_TAG + (Prefixed(r.deviceId) + (r.x25519Pub + (r.ed25519Pub + I64Be(r.createdAt))))
  }

  function DeviceToBytes(s: SignedDeviceRecord): Bytes {
    DEVICE_RECORD_WIRE_TAG
    + (Prefixed(s.record.deviceId) + (s.record.x25519Pub + (s.record.ed25519Pub + (I64Be(s.record.createdAt) + s.signature))))
  }

  function DeviceFromBytes(b: Bytes): Result<SignedDeviceRecord, WireError> {
    var b1 :- ReadTag(DEVICE_RECORD_WIRE_TAG, b);
    var (deviceId, b2) :- ReadPrefixed(b1);
    ReadDevice(deviceId, b2)
  }

  /** The rest of a device record, once its handle is read. */
  function ReadDevice(deviceId: Utf8, b: Bytes): Result<SignedDeviceRecord, WireError> {
    var (x25519Pub, b1) :- Take(b, KEY_LEN);
    var (ed25519Pub, b2) :- Take(b1, KEY_LEN);
    var (createdAt, b3) :- ReadI64(b2);
    var (signature, b4) :- Take(b3, SIG_LEN);
    var _ :- ReadEnd(b4);
    Ok(SignedDeviceRecord(DeviceRecord(deviceId, x25519Pub, ed25519Pub, createdAt), signature))
  }

  method EncodeDevice(s: SignedDeviceRecord) returns (b: Bytes)
    ensures b == DeviceToBytes(s)
  {
    b := DEVICE_RECORD_WIRE_TAG;
    b := PushLp(b, s.record.deviceId);
    b := b + s.record.x25519Pub;
    b := b + s.record.ed25519Pub;
    b := b + I64Be(s.record.createdAt);
    b := b + s.signature;
  }

  method DecodeDevice(bytes: Bytes) returns (r: Result<SignedDeviceRecord, WireError>)
    ensures r == DeviceFromBytes(bytes)
  {
    var cursor := new Cursor(bytes);
    var tag := cursor.ExpectTag(DEVICE_RECORD_WIRE_TAG);
    if tag.Err? { return Err(tag.error); }
    var deviceId := cursor.GetPrefixed();
    if deviceId.Err? { return Err(deviceId.error); }
    r := DecodeFields(cursor, deviceId.value);
  }

  method DecodeFields(cursor: Cursor, deviceId: Utf8) returns (r: Result<SignedDeviceRecord, WireError>)
    requires cursor.Valid()
    modifies cursor`pos
    ensures r == ReadDevice(deviceId, old(cursor.Rest()))
  {
    var x25519Pub := cursor.TakeBytes(KEY_LEN);
    if x25519Pub.Err? { return Err(x25519Pub.error); }
    var ed25519Pub := cursor.TakeBytes(KEY_LEN);
    if ed25519Pub.Err? { return Err(ed25519Pub.error); }
    var createdAt := cursor.GetI64();
    if createdAt.Err? { return Err(createdAt.error); }
    var signature := cursor.TakeBytes(SIG_LEN);
    if signature.Err? { return Err(signature.error); }
    var end := cursor.ExpectEnd();
    if end.Err? { return Err(end.error); }
    r := Ok(SignedDeviceRecord(DeviceRecord(deviceId, x25519Pub.value, ed25519Pub.value, createdAt.value), signature.value));
  }

  /** Decoding yields a record exactly from that record's own encoding: a two-way
      inverse, for every byte string and every record. */
  lemma DeviceCodec(b: Bytes, s: SignedDeviceRecord)
    ensures DeviceFromBytes(b) == Ok(s) <==> |s.record.deviceId| < U32_LIMIT && b == DeviceToBytes(s)
  {
    var r := s.record;
    var t5 := I64Be(r.createdAt) + s.signature;
    var t4 := r.ed25519Pub + t5;
    var t3 := r.x25519Pub + t4;
    var t2 := Prefixed(r.deviceId) + t3;
    if |r.deviceId| < U32_LIMIT && b == DeviceToBytes(s) {
      TagReads(DEVICE_RECORD_WIRE_TAG, b, t2);
      PrefixedReads(t2, r.deviceId, t3);
      ArrayReads(t3, r.x25519Pub, t4);
      ArrayReads(t4, r.ed25519Pub, t5);
      I64Reads(t5, r.createdAt, s.signature);
      assert s.signature + [] == s.signature;
      ArrayReads(s.signature, s.signature, []);
    }
    if DeviceFromBytes(b) == Ok(s) {
      var b1 := ReadTag(DEVICE_RECORD_WIRE_TAG, b).value;
      TagReads(DEVICE_RECORD_WIRE_TAG, b, b1);
      var b2 := ReadPrefixed(b1).value.1;
      PrefixedReads(b1, r.deviceId, b2);
      var b3 := Take(b2, KEY_LEN).value.1;
      ArrayReads(b2, r.x25519Pub, b3);
      var b4 := Take(b3, KEY_LEN).value.1;
      ArrayReads(b3, r.ed25519Pub, b4);
      var b5 := ReadI64(b4).value.1;
      I64Reads(b4, r.createdAt, b5);
      ArrayReads(b5, s.signature, []);
      assert s.signature + [] == s.signature;
    }
  }

  // ----------------------------------------------------------------------
  // Attestations
  // ----------------------------------------------------------------------

  datatype AttestationKind = Trust | Revoke

  function KindTag(k: AttestationKind): Byte { if k.Trust? then 1 else 2 }

  function KindFromTag(t: Byte): Option<AttestationKind> {
    if t == 1 then Some(Trust) else if t == 2 then Some(Revoke) else None
  }

  datatype Attestation = Attestation(
    kind: AttestationKind,
    signerDeviceId: Utf8,
    signerEd25519Pub: Key32,
    subjectDeviceId: Utf8,
    subjectEd25519Pub: Key32,
    keyEpoch: U32,
    issuedAt: I64)

  datatype SignedAttestation = SignedAttestation(attestation: Attestation, signature: Sig64)

  /** A device as an attestation names it: its handle, then its verifying key. */
  function PartyBytes(id: Utf8, key: Key32): Bytes { Prefixed(id) + key }

  function ReadParty(b: Bytes): Result<((Utf8, Key32), Bytes), WireError> {
    var (id, b1) :- ReadPrefixed(b);
    var (key, b2) :- Take(b1, KEY_LEN);
    Ok(((id, key), b2))
  }

  lemma PartyReads(b: Bytes, id: Utf8, key: Key32, rest: Bytes)
    ensures ReadParty(b) == Ok(((id, key), rest)) <==> |id| < U32_LIMIT && b == PartyBytes(id, key) + rest
  {
    if |id| < U32_LIMIT && b == PartyBytes(id, key) + rest {
      assert b == Prefixed(id) + (key + rest);
      PrefixedReads(b, id, key + rest);
      ArrayReads(key + rest, key, rest);
    }
    if ReadParty(b) == Ok(((id, key), rest)) {
      var b1 := ReadPrefixed(b).value.1;
      PrefixedReads(b, id, b1);
      ArrayReads(b1, key, rest);
      assert Prefixed(id) + (key + rest) == PartyBytes(id, key) + rest;
    }
  }

  method GetParty(cursor: Cursor) returns (r: Result<(Utf8, Key32), WireError>)
    requires cursor.Valid()
    modifies cursor`pos
    ensures cursor.Valid() && old(cursor.pos) <= cursor.pos
    ensures r.Ok? <==> ReadParty(old(cursor.Rest())).Ok?
    ensures r.Ok? ==> (r.value, cursor.Rest()) == ReadParty(old(cursor.Rest())).value
    ensures r.Err? ==> r.error == ReadParty(old(cursor.Rest())).error
  {
    var id := cursor.GetPrefixed();
    if id.Err? { return Err(id.error); }
    var key := cursor.TakeBytes(KEY_LEN);
    if key.Err? { return Err(key.error); }
    r := Ok((id.value, key.value));
  }

  /** What is said of the subject: who it is, from which epoch, and when. */
  datatype Claim = Claim(subject: (Utf8, Key32), keyEpoch: U32, issuedAt: I64)

  function ClaimBytes(c: Claim): Bytes {
    PartyBytes(c.subject.0, c.subject.1) + (U32Be(c.keyEpoch) + I64Be(c.issuedAt))
  }

  function ReadClaim(b: Bytes): Result<(Claim, Bytes), WireError> {
    var (subject, b1) :- ReadParty(b);
    var (keyEpoch, b2) :- ReadU32(b1);
    var (issuedAt, b3) :- ReadI64(b2);
    Ok((Claim(subject, keyEpoch, issuedAt), b3))
  }

  lemma ClaimReads(b: Bytes, c: Claim, rest: Bytes)
    ensures ReadClaim(b) == Ok((c, rest)) <==> |c.subject.0| < U32_LIMIT && b == ClaimBytes(c) + rest
  {
    if |c.subject.0| < U32_LIMIT && b == ClaimBytes(c) + rest {
      WrittenClaimReads(c, rest);
    }
    if ReadClaim(b) == Ok((c, rest)) {
      ReadClaimWritten(b, c, rest);
    }
  }

  lemma ClaimLayout(c: Claim, rest: Bytes)
    ensures ClaimBytes(c) + rest == PartyBytes(c.subject.0, c.subject.1) + (U32Be(c.keyEpoch) + (I64Be(c.issuedAt) + rest))
  {
  }

  lemma WrittenClaimReads(c: Claim, rest: Bytes)
    requires |c.subject.0| < U32_LIMIT
    ensures ReadClaim(ClaimBytes(c) + rest) == Ok((c, rest))
  {
    var t2 := I64Be(c.issuedAt) + rest;
    var t1 := U32Be(c.keyEpoch) + t2;
    ClaimLayout(c, rest);
    PartyReads(ClaimBytes(c) + rest, c.subject.0, c.subject.1, t1);
    U32Reads(t1, c.keyEpoch, t2);
    I64Reads(t2, c.issuedAt, rest);
  }

  lemma ReadClaimWritten(b: Bytes, c: Claim, rest: Bytes)
    requires ReadClaim(b) == Ok((c, rest))
    ensures |c.subject.0| < U32_LIMIT && b == ClaimBytes(c) + rest
  {
    var b1 := ReadParty(b).value.1;
    PartyReads(b, c.subject.0, c.subject.1, b1);
    var b2 := ReadU32(b1).value.1;
    U32Reads(b1, c.keyEpoch, b2);
    I64Reads(b2, c.issuedAt, rest);
    ClaimLayout(c, rest);
  }

  method GetClaim(cursor: Cursor) returns (r: Result<Claim, WireError>)
    requires cursor.Valid()
    modifies cursor`pos
    ensures cursor.Valid() && old(cursor.pos) <= cursor.pos
    ensures r.Ok? <==> ReadClaim(old(cursor.Rest())).Ok?
    ensures r.Ok? ==> (r.value, cursor.Rest()) == ReadClaim(old(cursor.Rest())).value
    ensures r.Err? ==> r.error == ReadClaim(old(cursor.Rest())).error
  {
    var subject := GetParty(cursor);
    if subject.Err? { return Err(subject.error); }
    var keyEpoch := cursor.GetU32();
    if keyEpoch.Err? { return Err(keyEpoch.error); }
    var issuedAt := cursor.GetI64();
    if issuedAt.Err? { return Err(issuedAt.error); }
    r := Ok(Claim(subject.value, keyEpoch.value, issuedAt.value));
  }

  function ClaimOf(a: Attestation): Claim {
    Claim((a.subjectDeviceId, a.subjectEd25519Pub), a.keyEpoch, a.issuedAt)
  }

  function AttestationOf(kind: AttestationKind, signer: (Utf8, Key32), c: Claim): Attestation {
    Attestation(kind, signer.0, signer.1, c.subject.0, c.subject.1, c.keyEpoch, c.issuedAt)
  }

  function AttestationBody(a: Attestation): Bytes {
    [KindTag(a.kind)] + (PartyBytes(a.signerDeviceId, a.signerEd25519Pub) + ClaimBytes(ClaimOf(a)))
  }

  function AttestationSigningBytes(a: Attestation): Bytes { ATTESTATION_TAG + AttestationBody(a) }

  function AttestationToBytes(s: SignedAttestation): Bytes { WriteAttestation(ATTESTATION_WIRE_TAG, s) }

  function WriteAttestation(wireTag: Bytes, s: SignedAttestation): Bytes {
    wireTag + (AttestationBody(s.attestation) + s.signature)
  }

  function AttestationFromBytes(b: Bytes): Result<SignedAttestation, WireError> {
    ReadAttestation(ATTESTATION_WIRE_TAG, b)
  }

  function ReadAttestation(wireTag: Bytes, b: Bytes): Result<SignedAttestation, WireError> {
    var b1 :- ReadTag(wireTag, b);
    var (tag, b2) :- ReadU8(b1);
    if KindFromTag(tag).None? then Err(UnknownKind) else ReadSigned(KindFromTag(tag).value, b2)
  }

  /** The rest of an attestation, once its kind is known. */
  function ReadSigned(kind: AttestationKind, b: Bytes): Result<SignedAttestation, WireError> {
    var (signer, b1) :- ReadParty(b);
    var (claim, b2) :- ReadClaim(b1);
    var (signature, b3) :- Take(b2, SIG_LEN);
    var _ :- ReadEnd(b3);
    Ok(SignedAttestation(AttestationOf(kind, signer, claim), signature))
  }

  method EncodeAttestation(s: SignedAttestation) returns (b: Bytes)
    ensures b == AttestationToBytes(s)
  {
    var a := s.attestation;
    b := ATTESTATION_WIRE_TAG;
    b := b + [KindTag(a.kind)];
    b := PushLp(b, a.signerDeviceId);
    b := b + a.signerEd25519Pub;
    b := PushLp(b, a.subjectDeviceId);
    b := b + a.subjectEd25519Pub;
    b := b + U32Be(a.keyEpoch);
    b := b + I64Be(a.issuedAt);
    b := b + s.signature;
  }

  method DecodeAttestation(bytes: Bytes) returns (r: Result<SignedAttestation, WireError>)
    ensures r == AttestationFromBytes(bytes)
  {
    var cursor := new Cursor(bytes);
    var tag := cursor.ExpectTag(ATTESTATION_WIRE_TAG);
    if tag.Err? { return Err(tag.error); }
    var kindTag := cursor.GetU8();
    if kindTag.Err? { return Err(kindTag.error); }
    var kind := KindFromTag(kindTag.value);
    if kind.None? { return Err(UnknownKind); }
    r := DecodeSigned(cursor, kind.value);
  }

  method DecodeSigned(cursor: Cursor, kind: AttestationKind) returns (r: Result<SignedAttestation, WireError>)
    requires cursor.Valid()
    modifies cursor`pos
    ensures r == ReadSigned(kind, old(cursor.Rest()))
  {
    var signer := GetParty(cursor);
    if signer.Err? { return Err(signer.error); }
    var claim := GetClaim(cursor);
    if claim.Err? { return Err(claim.error); }
    var signature := cursor.TakeBytes(SIG_LEN);
    if signature.Err? { return Err(signature.error); }
    var end := cursor.ExpectEnd();
    if end.Err? { return Err(end.error); }
    r := Ok(SignedAttestation(AttestationOf(kind, signer.value, claim.value), signature.value));
  }

  ghost predicate AttestationInRange(a: Attestation) {
    |a.signerDeviceId| < U32_LIMIT && |a.subjectDeviceId| < U32_LIMIT
  }

  function SignedBytes(s: SignedAttestation): Bytes {
    PartyBytes(s.attestation.signerDeviceId, s.attestation.signerEd25519Pub) + (ClaimBytes(ClaimOf(s.attestation)) + s.signature)
  }

  lemma SignedReads(s: SignedAttestation, extra: Bytes)
    requires AttestationInRange(s.attestation)
    ensures ReadSigned(s.attestation.kind, SignedBytes(s) + extra) == if extra == [] then Ok(s) else Err(TrailingBytes)
  {
    var a := s.attestation;
    var t2 := s.signature + extra;
    var t1 := ClaimBytes(ClaimOf(a)) + t2;
    RegroupSigned(PartyBytes(a.signerDeviceId, a.signerEd25519Pub), ClaimBytes(ClaimOf(a)), s.signature, extra);
    PartyReads(SignedBytes(s) + extra, a.signerDeviceId, a.signerEd25519Pub, t1);
    ClaimReads(t1, ClaimOf(a), t2);
    ArrayReads(t2, s.signature, extra);
  }

  lemma SignedDecodes(kind: AttestationKind, b: Bytes)
    requires ReadSigned(kind, b).Ok?
    ensures var s := ReadSigned(kind, b).value;
            s.attestation.kind == kind && AttestationInRange(s.attestation) && b == SignedBytes(s)
  {
    var s := ReadSigned(kind, b).value;
    var a := s.attestation;
    var b1 := ReadParty(b).value.1;
    PartyReads(b, a.signerDeviceId, a.signerEd25519Pub, b1);
    var b2 := ReadClaim(b1).value.1;
    ClaimReads(b1, ClaimOf(a), b2);
    ArrayReads(b2, s.signature, []);
    assert s.signature + [] == s.signature;
  }

  lemma RegroupSigned(a: Bytes, b: Bytes, c: Bytes, d: Bytes)
    ensures (a + (b + c)) + d == a + (b + (c + d))
  {
  }

  lemma RegroupWire(tag: Bytes, kind: Bytes, a: Bytes, b: Bytes, c: Bytes, d: Bytes)
    ensures tag + ((kind + (a + b)) + c) + d == tag + (kind + ((a + (b + c)) + d))
  {
  }

  /** Reading an encoding followed by anything. */
  lemma AttestationReads(wireTag: Bytes, s: SignedAttestation, extra: Bytes)
    requires AttestationInRange(s.attestation)
    ensures ReadAttestation(wireTag, WriteAttestation(wireTag, s) + extra) == if extra == [] then Ok(s) else Err(TrailingBytes)
  {
    var a := s.attestation;
    var t2 := SignedBytes(s) + extra;
    var t1 := [KindTag(a.kind)] + t2;
    assert ReadTag(wireTag, WriteAttestation(wireTag, s) + extra) == Ok(t1) by {
      RegroupWire(wireTag, [KindTag(a.kind)], PartyBytes(a.signerDeviceId, a.signerEd25519Pub), ClaimBytes(ClaimOf(a)), s.signature, extra);
      TagReads(wireTag, WriteAttestation(wireTag, s) + extra, t1);
    }
    assert ReadU8(t1) == Ok((KindTag(a.kind), t2)) by {
      U8Reads(t1, KindTag(a.kind), t2);
    }
    assert KindFromTag(KindTag(a.kind)) == Some(a.kind);
    SignedReads(s, extra);
  }

  lemma AttestationDecodes(wireTag: Bytes, b: Bytes)
    requires ReadAttestation(wireTag, b).Ok?
    ensures var s := ReadAttestation(wireTag, b).value;
            AttestationInRange(s.attestation) && b == WriteAttestation(wireTag, s)
  {
    var s := ReadAttestation(wireTag, b).value;
    var a := s.attestation;
    var b1 := ReadTag(wireTag, b).value;
    TagReads(wireTag, b, b1);
    var (tag, b2) := ReadU8(b1).value;
    U8Reads(b1, tag, b2);
    SignedDecodes(KindFromTag(tag).value, b2);
    assert tag == KindTag(a.kind);
    RegroupWire(wireTag, [KindTag(a.kind)], PartyBytes(a.signerDeviceId, a.signerEd25519Pub), ClaimBytes(ClaimOf(a)), s.signature, []);
    assert WriteAttestation(wireTag, s) + [] == WriteAttestation(wireTag, s) && SignedBytes(s) + [] == SignedBytes(s);
  }

  lemma AttestationCodec(b: Bytes, s: SignedAttestation)
    ensures AttestationFromBytes(b) == Ok(s) <==> AttestationInRange(s.attestation) && b == AttestationToBytes(s)
  {
    if AttestationInRange(s.attestation) {
      AttestationReads(ATTESTATION_WIRE_TAG, s, []);
      assert AttestationToBytes(s) + [] == AttestationToBytes(s);
    }
    if AttestationFromBytes(b) == Ok(s) { AttestationDecodes(ATTESTATION_WIRE_TAG, b); }
  }

  // ----------------------------------------------------------------------
  // Layouts, field by field
  // ----------------------------------------------------------------------

  ghost function DeviceFields(r: DeviceRecord): seq<Bytes> {
    [U32Be(U32Len(|r.deviceId|)), r.deviceId, r.x25519Pub, r.ed25519Pub, I64Be(r.createdAt)]
  }

  lemma FiveLaid(a: Bytes, b: Bytes, c: Bytes, d: Bytes, e: Bytes)
    ensures Laid([a, b, c, d, e]) == a + (b + (c + (d + e)))
  {
    LaidOne(e);
    LaidCons(d, [e]);
    LaidCons(c, [d, e]);
    LaidCons(b, [c, d, e]);
    LaidCons(a, [b, c, d, e]);
  }

  /** A device record in bytes: the tag, the handle behind its length, the agreement key, the
      signing key, the time, and on the wire the signature. */
  lemma DeviceLayout(s: SignedDeviceRecord)
    ensures DeviceSigningBytes(s.record) == Laid([Ascii("pergamon/v1/device-record")] + DeviceFields(s.record))
    ensures DeviceToBytes(s) == Laid([Ascii("pergamon/v1/device-record-wire")] + DeviceFields(s.record) + [s.signature])
  {
    var r, fields := s.record, DeviceFields(s.record);
    FiveLaid(U32Be(U32Len(|r.deviceId|)), r.deviceId, r.x25519Pub, r.ed25519Pub, I64Be(r.createdAt));
    LaidCons(DEVICE_RECORD_TAG, fields);
    LaidCons(DEVICE_RECORD_WIRE_TAG, fields);
    LaidConcat([DEVICE_RECORD_WIRE_TAG] + fields, [s.signature]);
    LaidOne(s.signature);
    FlatDevice(DEVICE_RECORD_WIRE_TAG, U32Be(U32Len(|r.deviceId|)), r.deviceId, r.x25519Pub, r.ed25519Pub, I64Be(r.createdAt), s.signature);
  }

  lemma FlatDevice(a: Bytes, b: Bytes, c: Bytes, d: Bytes, e: Bytes, f: Bytes, g: Bytes)
    ensures a + (b + c + (d + (e + f))) == a + (b + (c + (d + (e + f))))
    ensures a + (b + c + (d + (e + (f + g)))) == a + (b + (c + (d + (e + f)))) + g
  {
  }

  ghost function AttestationFields(a: Attestation): seq<Bytes> {
    [[if a.kind.Trust? then 1 else 2]]
    + [U32Be(U32Len(|a.signerDeviceId|)), a.signerDeviceId, a.signerEd25519Pub]
    + [U32Be(U32Len(|a.subjectDeviceId|)), a.subjectDeviceId, a.subjectEd25519Pub, U32Be(a.keyEpoch), I64Be(a.issuedAt)]
  }

  lemma ThreeLaid(a: Bytes, b: Bytes, c: Bytes)
    ensures Laid([a, b, c]) == a + b + c
  {
    LaidOne(c);
    LaidCons(b, [c]);
    LaidCons(a, [b, c]);
  }

  lemma AttestationFieldsLaid(a: Attestation)
    ensures Laid(AttestationFields(a)) == AttestationBody(a)
  {
    var kind: seq<Bytes> := [[if a.kind.Trust? then 1 else 2]];
    var signer := [U32Be(U32Len(|a.signerDeviceId|)), a.signerDeviceId, a.signerEd25519Pub];
    var rest := [U32Be(U32Len(|a.subjectDeviceId|)), a.subjectDeviceId, a.subjectEd25519Pub, U32Be(a.keyEpoch), I64Be(a.issuedAt)];
    LaidConcat(kind, signer);
    LaidConcat(kind + signer, rest);
    LaidOne(kind[0]);
    ThreeLaid(U32Be(U32Len(|a.signerDeviceId|)), a.signerDeviceId, a.signerEd25519Pub);
    FiveLaid(U32Be(U32Len(|a.subjectDeviceId|)), a.subjectDeviceId, a.subjectEd25519Pub, U32Be(a.keyEpoch), I64Be(a.issuedAt));
    FlatClaim([KindTag(a.kind)], Prefixed(a.signerDeviceId) + a.signerEd25519Pub, U32Be(U32Len(|a.subjectDeviceId|)),
              a.subjectDeviceId, a.subjectEd25519Pub, U32Be(a.keyEpoch), I64Be(a.issuedAt));
  }

  lemma FlatClaim(a: Bytes, b: Bytes, c: Bytes, d: Bytes, e: Bytes, f: Bytes, g: Bytes)
    ensures a + b + (c + (d + (e + (f + g)))) == a + (b + (c + d + e + (f + g)))
  {
  }

  /** An attestation in bytes: the tag, one for trust or two for revocation, who signs and who
      is meant, each a handle behind its length and a key, then epoch and time, and on the wire
      the signature. */
  lemma AttestationLayout(s: SignedAttestation)
    ensures AttestationSigningBytes(s.attestation) == Laid([Ascii("pergamon/v1/attestation")] + AttestationFields(s.attestation))
    ensures AttestationToBytes(s) == Laid([Ascii("pergamon/v1/attestation-wire")] + AttestationFields(s.attestation) + [s.signature])
  {
    var fields := AttestationFields(s.attestation);
    AttestationFieldsLaid(s.attestation);
    LaidCons(ATTESTATION_TAG, fields);
    LaidCons(ATTESTATION_WIRE_TAG, fields);
    LaidConcat([ATTESTATION_WIRE_TAG] + fields, [s.signature]);
    LaidOne(s.signature);
    assert ATTESTATION_WIRE_TAG + AttestationBody(s.attestation) + s.signature
        == ATTESTATION_WIRE_TAG + (AttestationBody(s.attestation) + s.signature);
  }

  // ----------------------------------------------------------------------
  // No encoding is a proper prefix of another
  // ----------------------------------------------------------------------

  lemma LongerDeviceRejected(s: SignedDeviceRecord, extra: Bytes)
    requires |s.record.deviceId| < U32_LIMIT && extra != []
    ensures DeviceFromBytes(DeviceToBytes(s) + extra) == Err(TrailingBytes)
  {
    var r := s.record;
    var t5 := I64Be(r.createdAt) + (s.signature + extra);
    var t4 := r.ed25519Pub + t5;
    var t3 := r.x25519Pub + t4;
    var t2 := Prefixed(r.deviceId) + t3;
    var b := DeviceToBytes(s) + extra;
    assert b == DEVICE_RECORD_WIRE_TAG + t2;
    TagReads(DEVICE_RECORD_WIRE_TAG, b, t2);
    PrefixedReads(t2, r.deviceId, t3);
    ArrayReads(t3, r.x25519Pub, t4);
    ArrayReads(t4, r.ed25519Pub, t5);
    I64Reads(t5, r.createdAt, s.signature + extra);
    ArrayReads(s.signature + extra, s.signature, extra);
  }

  /** Cutting an encoded record short or adding to it makes it unreadable. */
  lemma DeviceSelfDelimiting(s: SignedDeviceRecord, b: Bytes, extra: Bytes)
    requires |s.record.deviceId| < U32_LIMIT && extra != []
    requires b == DeviceToBytes(s) + extra || b + extra == DeviceToBytes(s)
    ensures DeviceFromBytes(b).Err?
  {
    if b == DeviceToBytes(s) + extra {
      LongerDeviceRejected(s, extra);
    } else if DeviceFromBytes(b).Ok? {
      DeviceCodec(b, DeviceFromBytes(b).value);
      LongerDeviceRejected(DeviceFromBytes(b).value, extra);
      DeviceCodec(DeviceToBytes(s), s);
    }
  }

  lemma AttestationSelfDelimiting(s: SignedAttestation, b: Bytes, extra: Bytes)
    requires AttestationInRange(s.attestation) && extra != []
    requires b == AttestationToBytes(s) + extra || b + extra == AttestationToBytes(s)
    ensures AttestationFromBytes(b).Err?
  {
    if b == AttestationToBytes(s) + extra {
      AttestationReads(ATTESTATION_WIRE_TAG, s, extra);
    } else if AttestationFromBytes(b).Ok? {
      AttestationDecodes(ATTESTATION_WIRE_TAG, b);
      AttestationReads(ATTESTATION_WIRE_TAG, AttestationFromBytes(b).value, extra);
      AttestationCodec(AttestationToBytes(s), s);
    }
  }

  // ----------------------------------------------------------------------
  // Key packages
  // ----------------------------------------------------------------------

  const KEY_PACKAGE_MAGIC: Bytes := Ascii("PGMKEY") + [1, 0]
  const KEY_PACKAGE_VERSION: Byte := 1
  const ACCOUNT_ID_LEN := 16
  const RECOVERY_SALT_LEN := 16

  type Id16 = b: Bytes | |b| == 16 witness seq(16, _ => 0)

  datatype RecoveryBlob = RecoveryBlob(salt: Id16, wrapped: Bytes)

  datatype KeyPackage = KeyPackage(accountId: Id16, blob: RecoveryBlob)

  datatype PackageError = TooShort | NotAKeyPackage | UnsupportedVersion | BlobTooShort

  function BlobToBytes(blob: RecoveryBlob): Bytes { blob.salt + blob.wrapped }

  function BlobFromBytes(b: Bytes): Result<RecoveryBlob, PackageError> {
    if |b| <= RECOVERY_SALT_LEN then Err(BlobTooShort)
    else Ok(RecoveryBlob(b[..RECOVERY_SALT_LEN], b[RECOVERY_SALT_LEN..]))
  }

  function PackageToBytes(p: KeyPackage): Bytes {
    KEY_PACKAGE_MAGIC + ([KEY_PACKAGE_VERSION] + (p.accountId + BlobToBytes(p.blob)))
  }

  function PackageFromBytes(b: Bytes): Result<KeyPackage, PackageError> {
    if |b| < 25 then Err(TooShort)
    else if b[..8] != KEY_PACKAGE_MAGIC then Err(NotAKeyPackage)
    else if b[8] != KEY_PACKAGE_VERSION then Err(UnsupportedVersion)
    else
      var blob :- BlobFromBytes(b[25..]);
      Ok(KeyPackage(b[9..25], blob))
  }

  /** Reading back a key package gives the package, exactly when something is wrapped in
      it; and only a package's own encoding reads as that package. */
  lemma PackageCodec(b: Bytes, p: KeyPackage)
    ensures PackageFromBytes(b) == Ok(p) <==> p.blob.wrapped != [] && b == PackageToBytes(p)
  {
    if b == PackageToBytes(p) {
      assert b[..8] == KEY_PACKAGE_MAGIC && b[8] == KEY_PACKAGE_VERSION;
      assert b[9..25] == p.accountId && b[25..] == BlobToBytes(p.blob);
      assert BlobToBytes(p.blob)[..16] == p.blob.salt && BlobToBytes(p.blob)[16..] == p.blob.wrapped;
    }
    if PackageFromBytes(b) == Ok(p) {
      assert b[25..] == b[25..][..16] + b[25..][16..];
      assert b == b[..8] + ([b[8]] + (b[9..25] + b[25..]));
    }
  }

  /** What is refused, and as what: too short for a header, the wrong magic, another version,
      or nothing wrapped behind the salt. */
  lemma PackageErrors(b: Bytes)
    requires PackageFromBytes(b).Err?
    ensures var error := PackageFromBytes(b).error;
            && (error == TooShort <==> |b| < 25)
            && (error == NotAKeyPackage <==> |b| >= 25 && b[..8] != Ascii("PGMKEY") + [1, 0])
            && (error == UnsupportedVersion <==> |b| >= 25 && b[..8] == Ascii("PGMKEY") + [1, 0] && b[8] != 1)
            && (error == BlobTooShort <==> 25 <= |b| <= 41 && b[..8] == Ascii("PGMKEY") + [1, 0] && b[8] == 1)
  {
  }

  /** A key package in bytes: magic, version, account, and the recovery blob, which is its salt
      followed by what is wrapped. */
  lemma PackageLayout(p: KeyPackage)
    ensures PackageToBytes(p)
         == Laid([Ascii("PGMKEY") + [1, 0], [1], p.accountId, p.blob.salt, p.blob.wrapped])
  {
    FiveLaid(Ascii("PGMKEY") + [1, 0], [1], p.accountId, p.blob.salt, p.blob.wrapped);
  }

  /** The encoding of a package with nothing wrapped is refused, although it can be written. */
  lemma EmptyPackageRefused(accountId: Id16, salt: Id16)
    ensures PackageFromBytes(PackageToBytes(KeyPackage(accountId, RecoveryBlob(salt, [])))) == Err(BlobTooShort)
  {
    var b := PackageToBytes(KeyPackage(accountId, RecoveryBlob(salt, [])));
    assert b[..8] == KEY_PACKAGE_MAGIC && b[8] == KEY_PACKAGE_VERSION;
    assert b[25..] == salt + [];
  }

  /** Exactly the strings of 42 bytes or more that start with magic and version are key
      packages. */
  lemma PackageAccepts(b: Bytes)
    ensures PackageFromBytes(b).Ok? <==> |b| >= 42 && b[..8] == KEY_PACKAGE_MAGIC && b[8] == KEY_PACKAGE_VERSION
  {
    if |b| >= 42 && b[..8] == KEY_PACKAGE_MAGIC && b[8] == KEY_PACKAGE_VERSION {
      assert BlobFromBytes(b[25..]).Ok?;
    }
  }
}
