/**
 Event envelopes: header bytes, signing bytes, the key hierarchy, sealing and opening.
 */
module Envelope {
  import opened Wrappers
  import opened Wire
  import opened Records

  // The ideal primitives are free constructors. A derived key (HKDF, section 2.3 of
  // RFC 5869) is the pair of its parent and its label; a ciphertext (AEAD, section 2.8 of
  // RFC 8439, with an extended nonce) remembers key, associated data, nonce and plaintext;
  // a signature (Ed25519, section 5.1 of RFC 8032) remembers signer and message.

  const EVENT_AAD_TAG := Ascii("pergamon/v1/event-aad")
  const EVENT_SIG_TAG := Ascii("pergamon/v1/event-sig")
  const ENTITY_REF_TAG := Ascii("pergamon/v1/entity-ref-input")
  const LABEL_ENTITY_REF := Ascii("pergamon/v1/entity-ref")
  const LABEL_ACCOUNT_CONTENT := Ascii("pergamon/v1/account-content")
  const LABEL_EVENT := Ascii("pergamon/v1/event")
  const LABEL_BLOB := Ascii("pergamon/v1/blob")

  // ----------------------------------------------------------------------
  // Header bytes
  // ----------------------------------------------------------------------

  datatype EventHeader = EventHeader(
    protocolVersion: U32,
    accountId: Utf8,
    deviceId: Utf8,
    changeId: Utf8,
    keyEpoch: U32,
    entityRef: Option<Utf8>,
    blobRefs: seq<Utf8>)

  function EntityRefBytes(r: Option<Utf8>): Bytes {
    if r.None? then [0] else [1] + Prefixed(r.value)
  }

  function AllPrefixed(refs: seq<Utf8>): Bytes {
    if refs == [] then [] else Prefixed(refs[0]) + AllPrefixed(refs[1..])
  }

  function AadBytes(h: EventHeader): Bytes {
    EVENT_AAD_TAG
    + (U32Be(h.protocolVersion)
    + (Prefixed(h.accountId)
    + (Prefixed(h.deviceId)
    + (Prefixed(h.changeId)
    + (U32Be(h.keyEpoch)
    + (EntityRefBytes(h.entityRef)
    + (U32Be(U32Len(|h.blobRefs|))
    + AllPrefixed(h.blobRefs))))))))
  }

  method BuildAad(h: EventHeader) returns (aad: Bytes)
    ensures aad == AadBytes(h)
  {
    aad := EVENT_AAD_TAG;
    aad := aad + U32Be(h.protocolVersion);
    aad := PushLp(aad, h.accountId);
    aad := PushLp(aad, h.deviceId);
    aad := PushLp(aad, h.changeId);
    aad := aad + U32Be(h.keyEpoch);
    aad := PushEntityRef(aad, h.entityRef);
    aad := aad + U32Be(U32Len(|h.blobRefs|));
    aad := PushAll(aad, h.blobRefs);
    BuildRegroup(EVENT_AAD_TAG, U32Be(h.protocolVersion), Prefixed(h.accountId), Prefixed(h.deviceId), Prefixed(h.changeId),
                 U32Be(h.keyEpoch), EntityRefBytes(h.entityRef), U32Be(U32Len(|h.blobRefs|)), AllPrefixed(h.blobRefs));
  }

  method PushEntityRef(buffer: Bytes, entityRef: Option<Utf8>) returns (r: Bytes)
    ensures r == buffer + EntityRefBytes(entityRef)
  {
    if entityRef.None? {
      r := buffer + [0];
    } else {
      r := buffer + [1];
      r := PushLp(r, entityRef.value);
    }
  }

  lemma BuildRegroup(a: Bytes, b: Bytes, c: Bytes, d: Bytes, e: Bytes, f: Bytes, g: Bytes, h: Bytes, i: Bytes)
    ensures a + b + c + d + e + f + g + h + i == a + (b + (c + (d + (e + (f + (g + (h + i)))))))
  {
  }

  method PushAll(buffer: Bytes, refs: seq<Utf8>) returns (r: Bytes)
    ensures r == buffer + AllPrefixed(refs)
  {
    r := buffer;
    for i := 0 to |refs|
      invariant r + AllPrefixed(refs[i..]) == buffer + AllPrefixed(refs)
    {
      assert refs[i..][1..] == refs[i + 1..];
      ghost var rest := AllPrefixed(refs[i + 1..]);
      assert r + (Prefixed(refs[i]) + rest) == (r + Prefixed(refs[i])) + rest;
      r := PushLp(r, refs[i]);
    }
    assert r == buffer + AllPrefixed(refs);
  }

  function EventSigningBytes(h: EventHeader, ciphertext: Bytes): Bytes {
    EVENT_SIG_TAG + (AadBytes(h) + (U32Be(U32Len(|ciphertext|)) + ciphertext))
  }

  ghost predicate InRange(h: EventHeader) {
    && |h.accountId| < U32_LIMIT && |h.deviceId| < U32_LIMIT && |h.changeId| < U32_LIMIT
    && (h.entityRef.Some? ==> |h.entityRef.value| < U32_LIMIT)
    && |h.blobRefs| < U32_LIMIT && (forall r <- h.blobRefs :: |r| < U32_LIMIT)
  }

  // ----------------------------------------------------------------------
  // Layouts, field by field
  // ----------------------------------------------------------------------

  /** A text behind its length. */
  ghost function LpFields(t: Bytes): seq<Bytes> { [U32Be(U32Len(|t|)), t] }

  ghost function RefFields(refs: seq<Utf8>): seq<Bytes> {
    if refs == [] then [] else LpFields(refs[0]) + RefFields(refs[1..])
  }

  ghost function HeaderFields(h: EventHeader): seq<Bytes> {
    ([U32Be(h.protocolVersion)] + LpFields(h.accountId) + LpFields(h.deviceId) + LpFields(h.changeId) + [U32Be(h.keyEpoch)])
    + (if h.entityRef.None? then [[0]] else [[1]] + LpFields(h.entityRef.value))
    + ([U32Be(U32Len(|h.blobRefs|))] + RefFields(h.blobRefs))
  }

  lemma LpLaid(t: Bytes)
    ensures Laid(LpFields(t)) == Prefixed(t)
  {
    LaidTwo(U32Be(U32Len(|t|)), t);
  }

  lemma {:induction false} RefsLaid(refs: seq<Utf8>)
    ensures Laid(RefFields(refs)) == AllPrefixed(refs)
  {
    if refs != [] {
      RefsLaid(refs[1..]);
      LpLaid(refs[0]);
      LaidConcat(LpFields(refs[0]), RefFields(refs[1..]));
    }
  }

  lemma EntityRefLaid(r: Option<Utf8>)
    ensures Laid(if r.None? then [[0]] else [[1]] + LpFields(r.value)) == EntityRefBytes(r)
  {
    if r.None? {
      LaidOne([0]);
    } else {
      LaidCons([1], LpFields(r.value));
      LpLaid(r.value);
    }
  }

  lemma HeadLaid(h: EventHeader)
    ensures Laid([U32Be(h.protocolVersion)] + LpFields(h.accountId) + LpFields(h.deviceId) + LpFields(h.changeId) + [U32Be(h.keyEpoch)])
         == U32Be(h.protocolVersion) + Prefixed(h.accountId) + Prefixed(h.deviceId) + Prefixed(h.changeId) + U32Be(h.keyEpoch)
  {
    var a := [U32Be(h.protocolVersion)];
    LaidOne(a[0]);
    LaidConcat(a, LpFields(h.accountId));
    LaidConcat(a + LpFields(h.accountId), LpFields(h.deviceId));
    LaidConcat(a + LpFields(h.accountId) + LpFields(h.deviceId), LpFields(h.changeId));
    LaidConcat(a + LpFields(h.accountId) + LpFields(h.deviceId) + LpFields(h.changeId), [U32Be(h.keyEpoch)]);
    LaidOne(U32Be(h.keyEpoch));
    LpLaid(h.accountId);
    LpLaid(h.deviceId);
    LpLaid(h.changeId);
  }

  lemma HeaderLaid(h: EventHeader)
    ensures Laid([EVENT_AAD_TAG] + HeaderFields(h)) == AadBytes(h)
  {
    var front := [U32Be(h.protocolVersion)] + LpFields(h.accountId) + LpFields(h.deviceId) + LpFields(h.changeId) + [U32Be(h.keyEpoch)];
    var middle := if h.entityRef.None? then [[0]] else [[1]] + LpFields(h.entityRef.value);
    var back := [U32Be(U32Len(|h.blobRefs|))] + RefFields(h.blobRefs);
    HeadLaid(h);
    EntityRefLaid(h.entityRef);
    LaidCons(U32Be(U32Len(|h.blobRefs|)), RefFields(h.blobRefs));
    RefsLaid(h.blobRefs);
    LaidConcat(front, middle);
    LaidConcat(front + middle, back);
    LaidCons(EVENT_AAD_TAG, HeaderFields(h));
    FlatHeader(EVENT_AAD_TAG, U32Be(h.protocolVersion), Prefixed(h.accountId), Prefixed(h.deviceId), Prefixed(h.changeId),
               U32Be(h.keyEpoch), EntityRefBytes(h.entityRef), U32Be(U32Len(|h.blobRefs|)), AllPrefixed(h.blobRefs));
  }

  lemma FlatHeader(a: Bytes, b: Bytes, c: Bytes, d: Bytes, e: Bytes, f: Bytes, g: Bytes, h: Bytes, i: Bytes)
    ensures a + (b + c + d + e + f + g + (h + i)) == a + (b + (c + (d + (e + (f + (g + (h + i)))))))
  {
  }

  /** The associated data of an event: the tag, then version, account, device, change, epoch,
      the entity token behind a byte that says whether there is one, and the count of the blobs
      and each of them; every text behind its length. What is signed is another tag, all of this
      and the ciphertext behind its length. */
  lemma EventLayout(h: EventHeader, ciphertext: Bytes)
    ensures AadBytes(h) == Laid([Ascii("pergamon/v1/event-aad")] + HeaderFields(h))
    ensures EventSigningBytes(h, ciphertext) ==
            Laid([Ascii("pergamon/v1/event-sig")] + ([Ascii("pergamon/v1/event-aad")] + HeaderFields(h)) + LpFields(ciphertext))
  {
    var aad := [EVENT_AAD_TAG] + HeaderFields(h);
    HeaderLaid(h);
    LpLaid(ciphertext);
    LaidCons(EVENT_SIG_TAG, aad);
    LaidConcat([EVENT_SIG_TAG] + aad, LpFields(ciphertext));
    RegroupTwo(EVENT_SIG_TAG, AadBytes(h), Prefixed(ciphertext));
  }

  // ----------------------------------------------------------------------
  // Fields can be split off the front in one way only
  // ----------------------------------------------------------------------

  lemma FixedCancel(a: Bytes, s: Bytes, b: Bytes, t: Bytes)
    requires |a| == |b| && a + s == b + t
    ensures a == b && s == t
  {
    assert (a + s)[..|a|] == a && (b + t)[..|a|] == b;
    assert (a + s)[|a|..] == s && (b + t)[|a|..] == t;
  }

  lemma U32Cancel(v: U32, s: Bytes, w: U32, t: Bytes)
    requires U32Be(v) + s == U32Be(w) + t
    ensures v == w && s == t
  {
    FixedCancel(U32Be(v), s, U32Be(w), t);
    PowersUsed();
    BeRoundTrip(v, 4);
    BeRoundTrip(w, 4);
  }

  lemma PrefixedCancel(a: Bytes, s: Bytes, b: Bytes, t: Bytes)
    requires |a| < U32_LIMIT && |b| < U32_LIMIT
    requires Prefixed(a) + s == Prefixed(b) + t
    ensures a == b && s == t
  {
    assert Prefixed(a) + s == U32Be(|a|) + (a + s);
    assert Prefixed(b) + t == U32Be(|b|) + (b + t);
    U32Cancel(|a|, a + s, |b|, b + t);
    FixedCancel(a, s, b, t);
  }

  lemma EntityRefCancel(a: Option<Utf8>, s: Bytes, b: Option<Utf8>, t: Bytes)
    requires (a.Some? ==> |a.value| < U32_LIMIT) && (b.Some? ==> |b.value| < U32_LIMIT)
    requires EntityRefBytes(a) + s == EntityRefBytes(b) + t
    ensures a == b && s == t
  {
    EntityRefSplit(a, s);
    EntityRefSplit(b, t);
    var x, y := EntityRefRest(a, s), EntityRefRest(b, t);
    FixedCancel([EntityRefFlag(a)], x, [EntityRefFlag(b)], y);
    assert [EntityRefFlag(a)][0] == [EntityRefFlag(b)][0];
    if a.Some? {
      PrefixedCancel(a.value, s, b.value, t);
    }
  }

  function EntityRefFlag(a: Option<Utf8>): Byte { if a.None? then 0 else 1 }

  function EntityRefRest(a: Option<Utf8>, s: Bytes): Bytes { if a.None? then s else Prefixed(a.value) + s }

  lemma EntityRefSplit(a: Option<Utf8>, s: Bytes)
    ensures EntityRefBytes(a) + s == [EntityRefFlag(a)] + EntityRefRest(a, s)
  {
    if a.Some? { RegroupTwo([1], Prefixed(a.value), s); }
  }

  lemma {:induction false} AllPrefixedCancel(a: seq<Utf8>, s: Bytes, b: seq<Utf8>, t: Bytes)
    requires |a| == |b| && (forall r <- a :: |r| < U32_LIMIT) && (forall r <- b :: |r| < U32_LIMIT)
    requires AllPrefixed(a) + s == AllPrefixed(b) + t
    ensures a == b && s == t
  {
    if a == [] {
      assert AllPrefixed(a) + s == s && AllPrefixed(b) + t == t;
    } else {
      var x, y := AllPrefixed(a[1..]) + s, AllPrefixed(b[1..]) + t;
      RegroupTwo(Prefixed(a[0]), AllPrefixed(a[1..]), s);
      RegroupTwo(Prefixed(b[0]), AllPrefixed(b[1..]), t);
      assert a[0] in a && b[0] in b;
      PrefixedCancel(a[0], x, b[0], y);
      AllPrefixedCancel(a[1..], s, b[1..], t);
      assert a == [a[0]] + a[1..] && b == [b[0]] + b[1..];
    }
  }

  lemma RegroupTwo(a: Bytes, b: Bytes, c: Bytes)
    ensures (a + b) + c == a + (b + c)
  {
  }

  /** The second half of the header bytes, from the epoch on. */
  function AadTail(h: EventHeader): Bytes {
    U32Be(h.keyEpoch) + (EntityRefBytes(h.entityRef) + (U32Be(U32Len(|h.blobRefs|)) + AllPrefixed(h.blobRefs)))
  }

  lemma AadTailCancel(h: EventHeader, s: Bytes, g: EventHeader, t: Bytes)
    requires InRange(h) && InRange(g) && AadTail(h) + s == AadTail(g) + t
    ensures h.keyEpoch == g.keyEpoch && h.entityRef == g.entityRef && h.blobRefs == g.blobRefs && s == t
  {
    var h3, g3 := AllPrefixed(h.blobRefs) + s, AllPrefixed(g.blobRefs) + t;
    var h2, g2 := U32Be(|h.blobRefs|) + h3, U32Be(|g.blobRefs|) + g3;
    var h1, g1 := EntityRefBytes(h.entityRef) + h2, EntityRefBytes(g.entityRef) + g2;
    RegroupTail(U32Be(h.keyEpoch), EntityRefBytes(h.entityRef), U32Be(|h.blobRefs|), AllPrefixed(h.blobRefs), s);
    RegroupTail(U32Be(g.keyEpoch), EntityRefBytes(g.entityRef), U32Be(|g.blobRefs|), AllPrefixed(g.blobRefs), t);
    U32Cancel(h.keyEpoch, h1, g.keyEpoch, g1);
    EntityRefCancel(h.entityRef, h2, g.entityRef, g2);
    U32Cancel(|h.blobRefs|, h3, |g.blobRefs|, g3);
    AllPrefixedCancel(h.blobRefs, s, g.blobRefs, t);
  }

  lemma RegroupTail(a: Bytes, b: Bytes, c: Bytes, d: Bytes, e: Bytes)
    ensures (a + (b + (c + d))) + e == a + (b + (c + (d + e)))
  {
  }

  lemma RegroupHead(a: Bytes, b: Bytes, c: Bytes, d: Bytes, e: Bytes, f: Bytes, g: Bytes)
    ensures (a + (b + (c + (d + (e + f))))) + g == a + (b + (c + (d + (e + (f + g)))))
  {
  }

  /** The header bytes of two headers, each followed by anything, agree only if the
      headers and what follows agree. So no two headers share their bytes, and no header's
      bytes begin with another's. */
  lemma AadPrefixFree(h: EventHeader, s: Bytes, g: EventHeader, t: Bytes)
    requires InRange(h) && InRange(g)
    requires AadBytes(h) + s == AadBytes(g) + t
    ensures h == g && s == t
  {
    var h5, g5 := AadTail(h) + s, AadTail(g) + t;
    var h4, g4 := Prefixed(h.changeId) + h5, Prefixed(g.changeId) + g5;
    var h3, g3 := Prefixed(h.deviceId) + h4, Prefixed(g.deviceId) + g4;
    var h2, g2 := Prefixed(h.accountId) + h3, Prefixed(g.accountId) + g3;
    var h1, g1 := U32Be(h.protocolVersion) + h2, U32Be(g.protocolVersion) + g2;
    RegroupHead(EVENT_AAD_TAG, U32Be(h.protocolVersion), Prefixed(h.accountId), Prefixed(h.deviceId), Prefixed(h.changeId), AadTail(h), s);
    RegroupHead(EVENT_AAD_TAG, U32Be(g.protocolVersion), Prefixed(g.accountId), Prefixed(g.deviceId), Prefixed(g.changeId), AadTail(g), t);
    FixedCancel(EVENT_AAD_TAG, h1, EVENT_AAD_TAG, g1);
    U32Cancel(h.protocolVersion, h2, g.protocolVersion, g2);
    PrefixedCancel(h.accountId, h3, g.accountId, g3);
    PrefixedCancel(h.deviceId, h4, g.deviceId, g4);
    PrefixedCancel(h.changeId, h5, g.changeId, g5);
    AadTailCancel(h, s, g, t);
  }

  lemma AadInjective(h: EventHeader, g: EventHeader)
    requires InRange(h) && InRange(g)
    ensures AadBytes(h) == AadBytes(g) <==> h == g
  {
    if AadBytes(h) == AadBytes(g) {
      AadPrefixFree(h, [], g, []);
    }
  }

  /** What a device signs determines header and ciphertext. */
  lemma SigningInjective(h: EventHeader, c: Bytes, g: EventHeader, d: Bytes)
    requires InRange(h) && InRange(g) && |c| < U32_LIMIT && |d| < U32_LIMIT
    ensures EventSigningBytes(h, c) == EventSigningBytes(g, d) <==> h == g && c == d
  {
    if EventSigningBytes(h, c) == EventSigningBytes(g, d) {
      var x, y := U32Be(|c|) + c, U32Be(|d|) + d;
      FixedCancel(EVENT_SIG_TAG, AadBytes(h) + x, EVENT_SIG_TAG, AadBytes(g) + y);
      AadPrefixFree(h, x, g, y);
      U32Cancel(|c|, c, |d|, d);
    }
  }

  lemma AttestationSigningInjective(a: Attestation, b: Attestation)
    requires AttestationInRange(a) && AttestationInRange(b)
    ensures AttestationSigningBytes(a) == AttestationSigningBytes(b) <==> a == b
  {
    if AttestationSigningBytes(a) == AttestationSigningBytes(b) {
      FixedCancel(ATTESTATION_TAG, AttestationBody(a), ATTESTATION_TAG, AttestationBody(b));
      var signature: Sig64 := seq(64, _ => 0);
      AttestationCodec(AttestationToBytes(SignedAttestation(a, signature)), SignedAttestation(a, signature));
      AttestationCodec(AttestationToBytes(SignedAttestation(b, signature)), SignedAttestation(b, signature));
    }
  }

  lemma DeviceSigningInjective(a: DeviceRecord, b: DeviceRecord)
    requires |a.deviceId| < U32_LIMIT && |b.deviceId| < U32_LIMIT
    ensures DeviceSigningBytes(a) == DeviceSigningBytes(b) <==> a == b
  {
    if DeviceSigningBytes(a) == DeviceSigningBytes(b) {
      var a3, b3 := a.ed25519Pub + I64Be(a.createdAt), b.ed25519Pub + I64Be(b.createdAt);
      FixedCancel(DEVICE_RECORD_TAG, Prefixed(a.deviceId) + (a.x25519Pub + a3), DEVICE_RECORD_TAG, Prefixed(b.deviceId) + (b.x25519Pub + b3));
      PrefixedCancel(a.deviceId, a.x25519Pub + a3, b.deviceId, b.x25519Pub + b3);
      FixedCancel(a.x25519Pub, a3, b.x25519Pub, b3);
      FixedCancel(a.ed25519Pub, I64Be(a.createdAt), b.ed25519Pub, I64Be(b.createdAt));
      I64Reads(I64Be(a.createdAt) + [], a.createdAt, []);
      I64Reads(I64Be(b.createdAt) + [], b.createdAt, []);
    }
  }

  // ----------------------------------------------------------------------
  // Signing domains
  // ----------------------------------------------------------------------

  /** Everything a device key ever signs. */
  datatype Statement =
    | Event(header: EventHeader, ciphertext: Bytes)
    | Vouch(attestation: Attestation)
    | Identity(record: DeviceRecord)

  function StatementBytes(m: Statement): Bytes {
    match m
    case Event(h, c) => EventSigningBytes(h, c)
    case Vouch(a) => AttestationSigningBytes(a)
    case Identity(r) => DeviceSigningBytes(r)
  }

  ghost predicate StatementInRange(m: Statement) {
    match m
    case Event(h, c) => InRange(h) && |c| < U32_LIMIT
    case Vouch(a) => AttestationInRange(a)
    case Identity(r) => |r.deviceId| < U32_LIMIT
  }

  /** The tags first differ in their thirteenth byte: e, a and d. */
  lemma StatementKindShows(m: Statement)
    ensures |StatementBytes(m)| > 12
    ensures StatementBytes(m)[12] == (match m case Event(_, _) => 'e' as int case Vouch(_) => 'a' as int case Identity(_) => 'd' as int)
  {
    match m
    case Event(h, c) =>
      assert EVENT_SIG_TAG[12] == "pergamon/v1/event-sig"[12] as int;
    case Vouch(a) =>
      assert ATTESTATION_TAG[12] == "pergamon/v1/attestation"[12] as int;
    case Identity(r) =>
      assert DEVICE_RECORD_TAG[12] == "pergamon/v1/device-record"[12] as int;
  }

  /** Different statements are never signed as the same bytes, across all three kinds. */
  lemma StatementsInjective(m: Statement, n: Statement)
    requires StatementInRange(m) && StatementInRange(n)
    ensures StatementBytes(m) == StatementBytes(n) <==> m == n
  {
    StatementKindShows(m);
    StatementKindShows(n);
    match (m, n) {
      case (Event(h, c), Event(g, d)) => SigningInjective(h, c, g, d);
      case (Vouch(a), Vouch(b)) => AttestationSigningInjective(a, b);
      case (Identity(a), Identity(b)) => DeviceSigningInjective(a, b);
      case _ =>
    }
  }

  /** An ideal signature. */
  datatype Signature = Signed(signer: int, message: Bytes)

  predicate Verifies(signer: int, message: Bytes, signature: Signature) { signature == Signed(signer, message) }

  /** A device's signature under one statement verifies for that statement and that device only. */
  lemma SignatureBindsStatement(signer: int, m: Statement, verifier: int, n: Statement)
    requires StatementInRange(m) && StatementInRange(n)
    ensures Verifies(verifier, StatementBytes(n), Signed(signer, StatementBytes(m))) <==> verifier == signer && n == m
  {
    StatementsInjective(m, n);
  }

  // ----------------------------------------------------------------------
  // Keys
  // ----------------------------------------------------------------------

  datatype Key = Root(secret: int) | Derived(parent: Key, info: Bytes)

  datatype ContentKey = ContentKey(epoch: U32, key: Key)

  function StreamKey(ark: Key): Key { Derived(ark, LABEL_ENTITY_REF) }

  function ContentKeyOf(ark: Key, epoch: U32): ContentKey {
    ContentKey(epoch, Derived(ark, LABEL_ACCOUNT_CONTENT + U32Be(epoch)))
  }

  function EventKey(ack: ContentKey, changeId: Utf8): Key { Derived(ack.key, LABEL_EVENT + changeId) }

  function BlobKey(ack: ContentKey, hash: Key32): Key { Derived(ack.key, LABEL_BLOB + hash) }

  /** What a key of an account is for. */
  datatype Purpose =
    | Stream
    | Content(epoch: U32)
    | EventBody(epoch: U32, changeId: Utf8)
    | Blob(epoch: U32, hash: Key32)

  function KeyFor(ark: Key, p: Purpose): Key {
    match p
    case Stream => StreamKey(ark)
    case Content(epoch) => ContentKeyOf(ark, epoch).key
    case EventBody(epoch, changeId) => EventKey(ContentKeyOf(ark, epoch), changeId)
    case Blob(epoch, hash) => BlobKey(ContentKeyOf(ark, epoch), hash)
  }

  lemma LabelsDiffer(a: Bytes, s: Bytes, b: Bytes, t: Bytes)
    requires |a| > 12 && |b| > 12 && a[12] != b[12]
    ensures a + s != b + t
  {
    assert (a + s)[12] == a[12] && (b + t)[12] == b[12];
  }

  lemma RootLabelsApart(epoch: U32)
    ensures LABEL_ENTITY_REF != LABEL_ACCOUNT_CONTENT + U32Be(epoch)
  {
    assert LABEL_ENTITY_REF[12] == "pergamon/v1/entity-ref"[12] as int;
    assert LABEL_ACCOUNT_CONTENT[12] == "pergamon/v1/account-content"[12] as int;
    LabelsDiffer(LABEL_ENTITY_REF, [], LABEL_ACCOUNT_CONTENT, U32Be(epoch));
    assert LABEL_ENTITY_REF + [] == LABEL_ENTITY_REF;
  }

  lemma ContentLabelsApart(changeId: Utf8, hash: Key32)
    ensures LABEL_EVENT + changeId != LABEL_BLOB + hash
  {
    assert LABEL_EVENT[12] == "pergamon/v1/event"[12] as int;
    assert LABEL_BLOB[12] == "pergamon/v1/blob"[12] as int;
    LabelsDiffer(LABEL_EVENT, changeId, LABEL_BLOB, hash);
  }

  /** How many derivations lie between a key and the root. */
  function Depth(k: Key): nat { if k.Root? then 0 else 1 + Depth(k.parent) }

  /** Under ideal derivation no two purposes, and no two accounts, share a key. */
  lemma KeysSeparated(secret: int, p: Purpose, secret': int, q: Purpose)
    ensures KeyFor(Root(secret), p) == KeyFor(Root(secret'), q) <==> secret == secret' && p == q
  {
    match (p, q) {
      case (Stream, Stream) =>
      case (Content(e), Content(f)) => EpochCancel(e, f);
      case (EventBody(e, c), EventBody(f, d)) => EpochCancel(e, f); ChangeCancel(c, d);
      case (Blob(e, c), Blob(f, d)) => EpochCancel(e, f); HashCancel(c, d);
      case (Stream, Content(f)) => RootLabelsApart(f);
      case (Content(e), Stream) => RootLabelsApart(e);
      case (EventBody(e, c), Blob(f, d)) => ContentLabelsApart(c, d);
      case (Blob(e, c), EventBody(f, d)) => ContentLabelsApart(d, c);
      case _ => KeyDepth(secret, p); KeyDepth(secret', q);
    }
  }

  lemma KeyDepth(secret: int, p: Purpose)
    ensures Depth(KeyFor(Root(secret), p)) == if p.Stream? || p.Content? then 1 else 2
  {
    assert Depth(Root(secret)) == 0;
    assert forall info :: Depth(Derived(Root(secret), info)) == 1;
  }

  lemma ChangeCancel(c: Utf8, d: Utf8)
    ensures LABEL_EVENT + c == LABEL_EVENT + d <==> c == d
  {
    if LABEL_EVENT + c == LABEL_EVENT + d { FixedCancel(LABEL_EVENT, c, LABEL_EVENT, d); }
  }

  lemma HashCancel(c: Key32, d: Key32)
    ensures LABEL_BLOB + c == LABEL_BLOB + d <==> c == d
  {
    if LABEL_BLOB + c == LABEL_BLOB + d { FixedCancel(LABEL_BLOB, c, LABEL_BLOB, d); }
  }

  lemma EpochCancel(e: U32, f: U32)
    ensures LABEL_ACCOUNT_CONTENT + U32Be(e) == LABEL_ACCOUNT_CONTENT + U32Be(f) <==> e == f
  {
    if LABEL_ACCOUNT_CONTENT + U32Be(e) == LABEL_ACCOUNT_CONTENT + U32Be(f) {
      FixedCancel(LABEL_ACCOUNT_CONTENT, U32Be(e), LABEL_ACCOUNT_CONTENT, U32Be(f));
      U32Cancel(e, [], f, []);
    }
  }

  // ----------------------------------------------------------------------
  // Sealing and opening
  // ----------------------------------------------------------------------

  datatype Ciphertext = Ciphertext(key: Key, aad: Bytes, nonce: int, plaintext: Bytes)

  datatype EventError = EpochMismatch | Decryption

  function AeadOpen(key: Key, aad: Bytes, c: Ciphertext): Result<Bytes, EventError> {
    if c.key == key && c.aad == aad then Ok(c.plaintext) else Err(Decryption)
  }

  function EncryptEvent(ack: ContentKey, h: EventHeader, nonce: int, plaintext: Bytes): Result<Ciphertext, EventError> {
    if h.keyEpoch != ack.epoch then Err(EpochMismatch)
    else Ok(Ciphertext(EventKey(ack, h.changeId), AadBytes(h), nonce, plaintext))
  }

  function DecryptEvent(ack: ContentKey, h: EventHeader, c: Ciphertext): Result<Bytes, EventError> {
    if h.keyEpoch != ack.epoch then Err(EpochMismatch)
    else AeadOpen(EventKey(ack, h.changeId), AadBytes(h), c)
  }

  /** A sealed event opens exactly under the header and the epoch key it was sealed with,
      and then yields its plaintext. */
  lemma OpensUnderItsHeaderOnly(ack: ContentKey, h: EventHeader, nonce: int, plaintext: Bytes, ack': ContentKey, h': EventHeader)
    requires InRange(h) && InRange(h') && EncryptEvent(ack, h, nonce, plaintext).Ok?
    ensures DecryptEvent(ack', h', EncryptEvent(ack, h, nonce, plaintext).value)
         == if h'.keyEpoch != ack'.epoch then Err(EpochMismatch)
            else if ack' == ack && h' == h then Ok(plaintext)
            else Err(Decryption)
  {
    AadInjective(h, h');
  }

  /** Whatever opens was sealed under that very header and key. */
  lemma OpenedWasSealed(ack: ContentKey, h: EventHeader, c: Ciphertext)
    ensures DecryptEvent(ack, h, c).Ok? <==> exists nonce, p :: EncryptEvent(ack, h, nonce, p) == Ok(c)
    ensures DecryptEvent(ack, h, c).Ok? ==> EncryptEvent(ack, h, c.nonce, DecryptEvent(ack, h, c).value) == Ok(c)
  {
    if DecryptEvent(ack, h, c).Ok? {
      assert EncryptEvent(ack, h, c.nonce, c.plaintext) == Ok(c);
    }
  }

  /** Two holders of account keys read each other's events exactly if account, epoch and
      header agree. */
  lemma AccountsReadOwnEvents(secret: int, secret': int, h: EventHeader, h': EventHeader, nonce: int, plaintext: Bytes)
    requires InRange(h) && InRange(h')
    ensures var sealed := EncryptEvent(ContentKeyOf(Root(secret), h.keyEpoch), h, nonce, plaintext);
            sealed.Ok? &&
            (DecryptEvent(ContentKeyOf(Root(secret'), h'.keyEpoch), h', sealed.value) == Ok(plaintext) <==> secret == secret' && h == h')
  {
    OpensUnderItsHeaderOnly(ContentKeyOf(Root(secret), h.keyEpoch), h, nonce, plaintext, ContentKeyOf(Root(secret'), h'.keyEpoch), h');
    EpochCancel(h.keyEpoch, h'.keyEpoch);
  }

  // ----------------------------------------------------------------------
  // Entity references and account handles
  // ----------------------------------------------------------------------

  function EntityRefInput(entityType: Utf8, entityId: Utf8): Bytes {
    ENTITY_REF_TAG + (Prefixed(entityType) + Prefixed(entityId))
  }

  /** Type and id cannot be confused: the blinded input determines both. */
  lemma EntityRefInjective(t: Utf8, i: Utf8, t': Utf8, i': Utf8)
    requires |t| < U32_LIMIT && |i| < U32_LIMIT && |t'| < U32_LIMIT && |i'| < U32_LIMIT
    ensures EntityRefInput(t, i) == EntityRefInput(t', i') <==> t == t' && i == i'
  {
    if EntityRefInput(t, i) == EntityRefInput(t', i') {
      FixedCancel(ENTITY_REF_TAG, Prefixed(t) + Prefixed(i), ENTITY_REF_TAG, Prefixed(t') + Prefixed(i'));
      PrefixedCancel(t, Prefixed(i), t', Prefixed(i'));
      assert Prefixed(i) + [] == Prefixed(i) && Prefixed(i') + [] == Prefixed(i');
      PrefixedCancel(i, [], i', []);
    }
  }
}
