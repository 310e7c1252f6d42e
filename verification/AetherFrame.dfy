/** Framing of synchronization frames and heartbeats on an Aether stream: little-endian, bounded lengths. */
module AetherFrames {
  import opened Basics
  import opened SyncFrames
  import opened WireBytes

  datatype Kind = Application | HeartbeatPing | HeartbeatPong | Control

  const HEADER_SIZE: nat := 10
  const MAX_APPLICATION_PAYLOAD: nat := 16 * 1024 * 1024
  const HEARTBEAT_PAYLOAD: nat := 8
  const MAX_CONTROL_PAYLOAD: nat := 1024

  function KindByte(kind: Kind): Byte {
    match kind
    case Application => 1
    case HeartbeatPing => 2
    case HeartbeatPong => 3
    case Control => 4
  }

  function KindOf(b: Byte): (kind: Option<Kind>)
    ensures forall k :: kind == Some(k) <==> KindByte(k) == b
  {
    if b == 1 then Some(Application)
    else if b == 2 then Some(HeartbeatPing)
    else if b == 3 then Some(HeartbeatPong)
    else if b == 4 then Some(Control)
    else None
  }

  /** Payload lengths a receiver takes. */
  predicate Allowed(kind: Kind, size: nat) {
    match kind
    case Application => size <= MAX_APPLICATION_PAYLOAD
    case Control => 0 < size <= MAX_CONTROL_PAYLOAD
    case _ => size == HEARTBEAT_PAYLOAD
  }

  // ----- frames -----

  function AetherBytes(kind: Kind, payload: Bytes): (b: Bytes)
    ensures |b| == HEADER_SIZE + |payload|
  {
    [0x41, 0x54, 0x52, 0x4E, 1, KindByte(kind)] + LeBytes(Size32(payload), 4) + payload
  }

  function ParseAether(b: Bytes): Option<(Kind, Bytes)> {
    if |b| < HEADER_SIZE || b[..5] != [0x41, 0x54, 0x52, 0x4E, 1] then None
    else
      var kind := KindOf(b[5]);
      var size := LeValue(b[6..10]);
      if kind.None? || |b| != HEADER_SIZE + size || !Allowed(kind.value, size) then None
      else Some((kind.value, b[10..]))
  }

  lemma AllowedIsSmall(kind: Kind, size: nat)
    ensures Allowed(kind, size) ==> size < 0x1_0000_0000
  {
  }

  /** A payload survives the stream exactly when its length is allowed for its kind; otherwise the frame is refused. */
  lemma AetherRoundTrip(kind: Kind, payload: Bytes)
    ensures ParseAether(AetherBytes(kind, payload)) == if Allowed(kind, |payload|) then Some((kind, payload)) else None
    ensures Allowed(kind, |payload|) <==>
              || (kind.Application? && |payload| <= 16_777_216)
              || ((kind.HeartbeatPing? || kind.HeartbeatPong?) && |payload| == 8)
              || (kind.Control? && 1 <= |payload| <= 1024)
  {
    hide LeBytes, LeValue, KindOf, Size32;
    var b := AetherBytes(kind, payload);
    assert b[..5] == [0x41, 0x54, 0x52, 0x4E, 1] && b[5] == KindByte(kind);
    assert b[6..10] == LeBytes(Size32(payload), 4) && b[10..] == payload;
    Powers();
    LeRoundTrip(Size32(payload), 4);
    SmallSize(payload);
    AllowedIsSmall(kind, |payload|);
    assert KindOf(b[5]) == Some(kind) && LeValue(b[6..10]) == Size32(payload);
    if Allowed(kind, |payload|) {
      assert ParseAether(b).Some?;
      assert ParseAether(b).value.0 == kind && ParseAether(b).value.1 == payload;
    } else {
      assert |payload| >= 0x1_0000_0000 ==> |b| != HEADER_SIZE + Size32(payload);
      assert ParseAether(b).None?;
    }
  }

  /** Magic, version and kind, the payload's length with its lowest byte first, the payload. */
  lemma AetherLayout(kind: Kind, payload: Bytes)
    requires |payload| < 0x1_0000_0000
    ensures var b, n := AetherBytes(kind, payload), |payload|;
            && b[..4] == [0x41, 0x54, 0x52, 0x4E] && b[4] == 1
            && b[5] == (if kind.Application? then 1 else if kind.HeartbeatPing? then 2
                        else if kind.HeartbeatPong? then 3 else 4)
            && b[6..10] == [n % 0x100, n / 0x100 % 0x100, n / 0x1_0000 % 0x100, n / 0x100_0000]
            && b[10..] == payload
  {
    hide LeBytes;
    SmallSize(payload);
    LeDigits(|payload|);
  }

  lemma AetherCanonical(b: Bytes)
    requires ParseAether(b).Some?
    ensures var (kind, payload) := ParseAether(b).value;
            Allowed(kind, |payload|) && AetherBytes(kind, payload) == b
  {
    hide LeBytes, LeValue, Allowed, Size32;
    var (kind, payload) := ParseAether(b).value;
    LeCanonical(b[6..10]);
    AllowedIsSmall(kind, |payload|);
    SmallSize(payload);
    assert b == b[..5] + [b[5]] + b[6..10] + b[10..];
    assert [0x41, 0x54, 0x52, 0x4E, 1] + [KindByte(kind)] == [0x41, 0x54, 0x52, 0x4E, 1, KindByte(kind)];
  }

  /** Accepted byte strings are exactly the encodings of payloads of allowed length. */
  lemma AetherFramesAreBytes(b: Bytes)
    ensures ParseAether(b).Some? <==>
              exists kind, payload :: Allowed(kind, |payload|) && AetherBytes(kind, payload) == b
  {
    hide ParseAether, AetherBytes, Allowed;
    if ParseAether(b).Some? {
      AetherCanonical(b);
      var (kind, payload) := ParseAether(b).value;
      assert Allowed(kind, |payload|) && AetherBytes(kind, payload) == b;
    } else if kind, payload :| Allowed(kind, |payload|) && AetherBytes(kind, payload) == b {
      AetherRoundTrip(kind, payload);
    }
  }

  /**
  Nesting: an event frame sent inside an application frame arrives as itself if and only if it is valid
  and its encoding is at most 16 MiB.
   */
  lemma NestedEventRoundTrip(derives: U32 -> bool, f: EventFrame)
    ensures var arrived := ParseAether(AetherBytes(Application, EventBytes(f)));
            (arrived.Some? && arrived.value.0.Application? && ParseEvent(derives, arrived.value.1) == Some(f))
            <==> ValidEvent(derives, f) && |EventBytes(f)| <= MAX_APPLICATION_PAYLOAD
  {
    hide ParseAether, AetherBytes, ParseEvent, EventBytes;
    AetherRoundTrip(Application, EventBytes(f));
    EventRoundTripIff(derives, f);
  }

  lemma NestedNodeStateRoundTrip(f: NodeStateFrame)
    ensures var arrived := ParseAether(AetherBytes(Application, NodeStateBytes(f)));
            (arrived.Some? && arrived.value.0.Application? && ParseNodeState(arrived.value.1) == Some(f))
            <==> f.address.Valid() && |f.payload| <= MAX_APPLICATION_PAYLOAD - 18
  {
    hide ParseAether, AetherBytes, ParseNodeState;
    AetherRoundTrip(Application, NodeStateBytes(f));
    NodeStateRoundTrip(f);
    assert |NodeStateBytes(f)| == |f.payload| + 18;
  }

  // ----- the code -----

  /** The buffer is allocated at its final size and written by index. */
  method EncodeAetherFrame(kind: Kind, payload: Bytes) returns (bytes: array<Byte>)
    ensures fresh(bytes) && bytes[..] == AetherBytes(kind, payload)
  {
    hide LeBytes, Low, High, Size32;
    bytes := new Byte[HEADER_SIZE + |payload|](_ => 0);
    bytes[0], bytes[1], bytes[2], bytes[3] := 0x41, 0x54, 0x52, 0x4E;
    bytes[4], bytes[5] := 1, KindByte(kind);
    var size := Size32(payload);
    bytes[6] := Low(size);
    bytes[7] := Low(High(size));
    bytes[8] := Low(High(High(size)));
    bytes[9] := Low(High(High(High(size))));
    FourBytes(size);
    assert bytes[..HEADER_SIZE] == [0x41, 0x54, 0x52, 0x4E, 1, KindByte(kind)] + LeBytes(size, 4);
    CopyTail(bytes, payload);
    assert bytes[..] == bytes[..HEADER_SIZE] + bytes[HEADER_SIZE..];
  }

  /** The memcpy behind the header. */
  method CopyTail(bytes: array<Byte>, payload: Bytes)
    requires bytes.Length == HEADER_SIZE + |payload|
    modifies bytes
    ensures bytes[..HEADER_SIZE] == old(bytes[..HEADER_SIZE]) && bytes[HEADER_SIZE..] == payload
  {
    for i := 0 to |payload|
      invariant bytes[..HEADER_SIZE] == old(bytes[..HEADER_SIZE])
      invariant bytes[HEADER_SIZE..HEADER_SIZE + i] == payload[..i]
    {
      bytes[HEADER_SIZE + i] := payload[i];
    }
    assert bytes[HEADER_SIZE..] == bytes[HEADER_SIZE..HEADER_SIZE + |payload|] && payload[..|payload|] == payload;
  }

  lemma FourBytes(v: nat)
    ensures LeBytes(v, 4) == [Low(v), Low(High(v)), Low(High(High(v))), Low(High(High(High(v))))]
  {
    hide LeBytes, Low, High;
    LeStep(v, 4);
    LeStep(High(v), 3);
    LeStep(High(High(v)), 2);
    LeStep(High(High(High(v))), 1);
    LeStep(High(High(High(High(v)))), 0);
  }

  method DecodeAetherFrame(bytes: Bytes) returns (frame: Option<(Kind, Bytes)>)
    ensures frame == ParseAether(bytes)
  {
    if |bytes| < HEADER_SIZE {
      return None;
    }
    if bytes[0] != 0x41 || bytes[1] != 0x54 || bytes[2] != 0x52 || bytes[3] != 0x4E || bytes[4] != 1 {
      return None;
    }
    assert bytes[..5] == [0x41, 0x54, 0x52, 0x4E, 1];
    var kind := KindOf(bytes[5]);
    if kind.None? {
      return None;
    }
    var size: int := Push(bytes[6], Push(bytes[7], Push(bytes[8], bytes[9])));
    FourValue(bytes[6..10]);
    if |bytes| != HEADER_SIZE + size || !Allowed(kind.value, size) {
      return None;
    }
    frame := Some((kind.value, bytes[HEADER_SIZE..]));
  }

  lemma FourValue(b: Bytes)
    requires |b| == 4
    ensures LeValue(b) == Push(b[0], Push(b[1], Push(b[2], b[3])))
  {
    assert b[1..][1..] == b[2..] && b[2..][1..] == b[3..] && b[3..][1..] == [];
    assert LeValue(b[3..]) == b[3];
    assert LeValue(b[2..]) == Push(b[2], b[3]);
    assert LeValue(b[1..]) == Push(b[1], Push(b[2], b[3]));
  }

  // ----- heartbeats -----

  /** The nonce a heartbeat payload names: its first eight bytes, or zero when it is short. */
  function Nonce(payload: Bytes): nat {
    if |payload| < HEARTBEAT_PAYLOAD then 0 else LeValue(payload[..HEARTBEAT_PAYLOAD])
  }

  method EncodeHeartbeatNonce(nonce: U64) returns (payload: Bytes)
    ensures payload == LeBytes(nonce, HEARTBEAT_PAYLOAD)
  {
    hide LeBytes, Low, High;
    payload := [];
    var rest: nat := nonce;
    for i := 0 to HEARTBEAT_PAYLOAD
      invariant |payload| == i
      invariant LeBytes(nonce, HEARTBEAT_PAYLOAD) == payload + LeBytes(rest, HEARTBEAT_PAYLOAD - i)
    {
      LeStep(rest, HEARTBEAT_PAYLOAD - i);
      payload := payload + [Low(rest)];
      rest := High(rest);
    }
    LeStep(rest, 0);
  }

  method DecodeHeartbeatNonce(payload: Bytes) returns (nonce: nat)
    ensures nonce == Nonce(payload)
  {
    if |payload| < HEARTBEAT_PAYLOAD {
      return 0;
    }
    nonce := 0;
    assert payload[..0] == [];
    var weight: nat := 1;
    for i := 0 to HEARTBEAT_PAYLOAD
      invariant weight == Pow256(i) && nonce == LeValue(payload[..i])
    {
      LeAppend(payload[..i], payload[i]);
      assert payload[..i + 1] == payload[..i] + [payload[i]];
      nonce := nonce + weight * payload[i];
      weight := 0x100 * weight;
    }
  }

  /** Nonces and eight-byte payloads correspond one to one. */
  lemma HeartbeatRoundTrip(nonce: U64, payload: Bytes)
    ensures Nonce(LeBytes(nonce, HEARTBEAT_PAYLOAD)) == nonce
    ensures |payload| < 8 ==> Nonce(payload) == 0
    ensures |payload| >= 8 ==> Nonce(payload) == Nonce(payload[..8])
    ensures |payload| == HEARTBEAT_PAYLOAD ==>
              Nonce(payload) <= MAX_U64 && LeBytes(Nonce(payload), HEARTBEAT_PAYLOAD) == payload
  {
    Powers();
    LeRoundTrip(nonce, HEARTBEAT_PAYLOAD);
    var b := LeBytes(nonce, HEARTBEAT_PAYLOAD);
    assert b[..HEARTBEAT_PAYLOAD] == b;
    assert |payload| >= 8 ==> payload[..8][..8] == payload[..8];
    if |payload| == HEARTBEAT_PAYLOAD {
      assert payload[..HEARTBEAT_PAYLOAD] == payload;
      LeCanonical(payload);
    }
  }
}
