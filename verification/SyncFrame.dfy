/** Wire format of the synchronization protocol, version 1: integers big-endian, lengths canonical. */
module SyncFrames {
  import opened Basics
  import opened WireBytes

  const VERSION: Byte := 1
  const NODE_STATE: Byte := 1
  const ACK: Byte := 2
  const EVENT: Byte := 3
  const MAX_ORIGIN_UID_BYTES: nat := 256

  /** What all frames start with: the packet, the node it is about and the Share it is for. */
  datatype Address = Address(packetId: U32, targetNodeId: U32, shareId: U32) {
    predicate Valid() {
      packetId != 0 && targetNodeId != 0 && shareId != 0
    }
  }

  datatype NodeStateFrame = NodeStateFrame(address: Address, payload: Bytes)

  datatype AckFrame = AckFrame(address: Address)

  datatype EventFrame = EventFrame(
    address: Address,
    originUid: Bytes,
    originSequence: U64,
    timestampUs: U64,
    classId: U32,
    payload: Bytes)

  // ----- integers -----

  function Be64(v: U64): (b: Bytes)
    ensures |b| == 8
  {
    Be32(Upper(v)) + Be32(Lower(v))
  }

  datatype Read<+T> = Fail | Got(value: T, rest: Bytes)

  function TakeU32(b: Bytes): Read<U32> {
    if |b| < 4 then Fail else Got(BeValue(b[0], b[1], b[2], b[3]), b[4..])
  }

  function TakeU64(b: Bytes): Read<U64> {
    var hi := TakeU32(b);
    if hi.Fail? then Fail
    else
      var lo := TakeU32(hi.rest);
      if lo.Fail? then Fail else Got(Join(hi.value, lo.value), lo.rest)
  }

  lemma TakesU32(v: U32, t: Bytes)
    ensures TakeU32(Be32(v) + t) == Got(v, t)
  {
    hide Be32;
    BeRoundTrip(v);
  }

  lemma TookU32(b: Bytes)
    ensures TakeU32(b).Got? ==> b == Be32(TakeU32(b).value) + TakeU32(b).rest
  {
    hide Be32;
    if TakeU32(b).Got? {
      assert b == [b[0], b[1], b[2], b[3]] + b[4..];
    }
  }

  lemma TakesU64(v: U64, t: Bytes)
    ensures TakeU64(Be64(v) + t) == Got(v, t)
  {
    hide Be32, TakeU32, Join, Upper, Lower;
    assert Be64(v) + t == Be32(Upper(v)) + (Be32(Lower(v)) + t);
    TakesU32(Upper(v), Be32(Lower(v)) + t);
    TakesU32(Lower(v), t);
    JoinHalves(v);
  }

  lemma TookU64(b: Bytes)
    ensures TakeU64(b).Got? ==> b == Be64(TakeU64(b).value) + TakeU64(b).rest
  {
    hide Be32, TakeU32, Join, Upper, Lower;
    if TakeU64(b).Got? {
      var hi := TakeU32(b);
      var lo := TakeU32(hi.rest);
      TookU32(b);
      TookU32(hi.rest);
      HalvesOfJoin(hi.value, lo.value);
      assert Be32(hi.value) + (Be32(lo.value) + lo.rest) == Be32(hi.value) + Be32(lo.value) + lo.rest;
    }
  }

  // ----- fields -----

  function AddressBytes(a: Address): Bytes {
    Be32(a.packetId) + (Be32(a.targetNodeId) + Be32(a.shareId))
  }

  /** Three ids, none of which may be zero. */
  function TakeAddress(b: Bytes): Read<Address> {
    var p := TakeU32(b);
    if p.Fail? || p.value == 0 then Fail
    else
      var n := TakeU32(p.rest);
      if n.Fail? || n.value == 0 then Fail
      else
        var s := TakeU32(n.rest);
        if s.Fail? || s.value == 0 then Fail else Got(Address(p.value, n.value, s.value), s.rest)
  }

  lemma TakesAddress(a: Address, t: Bytes)
    ensures TakeAddress(AddressBytes(a) + t) == if a.Valid() then Got(a, t) else Fail
  {
    hide Be32, TakeU32;
    var s := Be32(a.shareId) + t;
    var n := Be32(a.targetNodeId) + s;
    assert AddressBytes(a) + t == Be32(a.packetId) + n;
    TakesU32(a.packetId, n);
    TakesU32(a.targetNodeId, s);
    TakesU32(a.shareId, t);
  }

  lemma TookAddress(b: Bytes)
    ensures TakeAddress(b).Got? ==>
              TakeAddress(b).value.Valid() && b == AddressBytes(TakeAddress(b).value) + TakeAddress(b).rest
  {
    hide Be32, TakeU32;
    if TakeAddress(b).Got? {
      var p := TakeU32(b);
      var n := TakeU32(p.rest);
      var s := TakeU32(n.rest);
      TookU32(b);
      TookU32(p.rest);
      TookU32(n.rest);
      var x, y, z := Be32(p.value), Be32(n.value), Be32(s.value);
      assert x + (y + (z + s.rest)) == x + (y + z) + s.rest;
    }
  }

  /** A length-prefixed string of 1 to `max` bytes. */
  function TakeBounded(b: Bytes, max: nat): Read<Bytes> {
    var size := TakeU32(b);
    if size.Fail? || size.value == 0 || size.value > max || size.value > |size.rest| then Fail
    else Got(size.rest[..size.value], size.rest[size.value..])
  }

  lemma TakesBounded(s: Bytes, max: nat, t: Bytes)
    requires |s| < 0x1_0000_0000
    ensures TakeBounded(Be32(|s|) + (s + t), max) == if 0 < |s| <= max then Got(s, t) else Fail
  {
    hide TakeU32, Be32;
    TakesU32(|s|, s + t);
  }

  lemma TookBounded(b: Bytes, max: nat)
    requires max < 0x1_0000_0000
    ensures TakeBounded(b, max).Got? ==>
              var s := TakeBounded(b, max).value;
              0 < |s| <= max && b == Be32(|s|) + (s + TakeBounded(b, max).rest)
  {
    hide TakeU32, Be32;
    if TakeBounded(b, max).Got? {
      TookU32(b);
      var size := TakeU32(b);
      assert size.rest == size.rest[..size.value] + size.rest[size.value..];
    }
  }

  /** The declared payload is exactly the rest. */
  function TakePayload(b: Bytes): Option<Bytes> {
    var size := TakeU32(b);
    if size.Fail? || size.value != |size.rest| then None else Some(size.rest)
  }

  lemma TakesPayload(payload: Bytes)
    ensures TakePayload(Be32(Size32(payload)) + payload) == if |payload| < 0x1_0000_0000 then Some(payload) else None
  {
    hide TakeU32, Be32, Size32;
    SmallSize(payload);
    TakesU32(Size32(payload), payload);
  }

  lemma TookPayload(b: Bytes)
    ensures TakePayload(b).Some? ==>
              |TakePayload(b).value| < 0x1_0000_0000 && b == Be32(Size32(TakePayload(b).value)) + TakePayload(b).value
  {
    hide Be32, TakeU32, Size32;
    if TakePayload(b).Some? {
      SmallSize(TakePayload(b).value);
      TookU32(b);
    }
  }

  // ----- frames -----

  function NodeStateBytes(f: NodeStateFrame): Bytes {
    [NODE_STATE, VERSION] + (AddressBytes(f.address) + (Be32(Size32(f.payload)) + f.payload))
  }

  function AckBytes(f: AckFrame): Bytes {
    [ACK, VERSION] + AddressBytes(f.address)
  }

  function EventTail(f: EventFrame): Bytes {
    Be64(f.originSequence) + (Be64(f.timestampUs) + (Be32(f.classId) + (Be32(Size32(f.payload)) + f.payload)))
  }

  function EventBytes(f: EventFrame): Bytes {
    [EVENT, VERSION] + (AddressBytes(f.address) + (Be32(Size32(f.originUid)) + (f.originUid + EventTail(f))))
  }

  predicate HasHeader(b: Bytes, kind: Byte) {
    |b| >= 2 && b[0] == kind && b[1] == VERSION
  }

  function ParseNodeState(b: Bytes): Option<NodeStateFrame> {
    if !HasHeader(b, NODE_STATE) then None
    else
      var a := TakeAddress(b[2..]);
      if a.Fail? then None
      else
        var payload := TakePayload(a.rest);
        if payload.None? then None else Some(NodeStateFrame(a.value, payload.value))
  }

  function ParseAck(b: Bytes): Option<AckFrame> {
    if !HasHeader(b, ACK) then None
    else
      var a := TakeAddress(b[2..]);
      if a.Fail? || a.rest != [] then None else Some(AckFrame(a.value))
  }

  /** `derives` says that a class id is registered and inherits from Event. */
  function ParseEventTail(derives: U32 -> bool, a: Address, uid: Bytes, b: Bytes): Option<EventFrame> {
    var sequence := TakeU64(b);
    if sequence.Fail? || sequence.value == 0 then None
    else
      var ts := TakeU64(sequence.rest);
      if ts.Fail? || ts.value == 0 then None
      else
        var classId := TakeU32(ts.rest);
        if classId.Fail? || classId.value == 0 || !derives(classId.value) then None
        else
          var payload := TakePayload(classId.rest);
          if payload.None? then None
          else Some(EventFrame(a, uid, sequence.value, ts.value, classId.value, payload.value))
  }

  function ParseEvent(derives: U32 -> bool, b: Bytes): Option<EventFrame> {
    if !HasHeader(b, EVENT) then None
    else
      var a := TakeAddress(b[2..]);
      if a.Fail? then None
      else
        var uid := TakeBounded(a.rest, MAX_ORIGIN_UID_BYTES);
        if uid.Fail? then None else ParseEventTail(derives, a.value, uid.value, uid.rest)
  }

  predicate ValidNodeState(f: NodeStateFrame) {
    f.address.Valid() && |f.payload| < 0x1_0000_0000
  }

  predicate ValidEvent(derives: U32 -> bool, f: EventFrame) {
    && f.address.Valid()
    && 0 < |f.originUid| <= MAX_ORIGIN_UID_BYTES
    && f.originSequence != 0 && f.timestampUs != 0
    && f.classId != 0 && derives(f.classId)
    && |f.payload| < 0x1_0000_0000
  }

  // ----- round trips -----

  /** Decoding an encoded frame gives it back exactly when the frame is valid, and nothing otherwise. */
  lemma NodeStateRoundTrip(f: NodeStateFrame)
    ensures ParseNodeState(NodeStateBytes(f)) == if ValidNodeState(f) then Some(f) else None
    ensures ValidNodeState(f) <==>
              && f.address.packetId != 0 && f.address.targetNodeId != 0 && f.address.shareId != 0
              && |f.payload| < 0x1_0000_0000
  {
    hide TakeAddress, TakePayload, Be32, AddressBytes;
    var t := Be32(Size32(f.payload)) + f.payload;
    assert NodeStateBytes(f)[2..] == AddressBytes(f.address) + t;
    TakesAddress(f.address, t);
    TakesPayload(f.payload);
  }

  lemma NodeStateCanonical(b: Bytes)
    ensures ParseNodeState(b).Some? ==>
              ValidNodeState(ParseNodeState(b).value) && NodeStateBytes(ParseNodeState(b).value) == b
  {
    hide TakeAddress, TakePayload, Be32, AddressBytes;
    if ParseNodeState(b).Some? {
      TookAddress(b[2..]);
      TookPayload(TakeAddress(b[2..]).rest);
      assert b == [NODE_STATE, VERSION] + b[2..];
    }
  }

  lemma AckRoundTrip(f: AckFrame)
    ensures ParseAck(AckBytes(f)) == if f.address.Valid() then Some(f) else None
    ensures f.address.Valid() <==> f.address.packetId != 0 && f.address.targetNodeId != 0 && f.address.shareId != 0
  {
    hide TakeAddress, AddressBytes;
    assert AckBytes(f)[2..] == AddressBytes(f.address) + [];
    TakesAddress(f.address, []);
  }

  lemma AckCanonical(b: Bytes)
    ensures ParseAck(b).Some? ==> ParseAck(b).value.address.Valid() && AckBytes(ParseAck(b).value) == b
  {
    hide TakeAddress, AddressBytes;
    if ParseAck(b).Some? {
      TookAddress(b[2..]);
      assert b == [ACK, VERSION] + b[2..];
      assert AddressBytes(TakeAddress(b[2..]).value) + [] == AddressBytes(TakeAddress(b[2..]).value);
    }
  }

  lemma EventTailRoundTrip(derives: U32 -> bool, f: EventFrame)
    ensures ParseEventTail(derives, f.address, f.originUid, EventTail(f)) ==
            if f.originSequence != 0 && f.timestampUs != 0 && f.classId != 0 && derives(f.classId) &&
                |f.payload| < 0x1_0000_0000
            then Some(f) else None
  {
    hide TakeU32, TakeU64, TakePayload, Be32, Be64;
    var t3 := Be32(Size32(f.payload)) + f.payload;
    var t2 := Be32(f.classId) + t3;
    var t1 := Be64(f.timestampUs) + t2;
    TakesU64(f.originSequence, t1);
    TakesU64(f.timestampUs, t2);
    TakesU32(f.classId, t3);
    TakesPayload(f.payload);
  }

  lemma EventTailCanonical(derives: U32 -> bool, a: Address, uid: Bytes, b: Bytes)
    ensures ParseEventTail(derives, a, uid, b).Some? ==> EventTail(ParseEventTail(derives, a, uid, b).value) == b
  {
    hide TakeU32, TakeU64, TakePayload, Be32, Be64;
    if ParseEventTail(derives, a, uid, b).Some? {
      var sequence := TakeU64(b);
      var ts := TakeU64(sequence.rest);
      var classId := TakeU32(ts.rest);
      TookU64(b);
      TookU64(sequence.rest);
      TookU32(ts.rest);
      TookPayload(classId.rest);
    }
  }

  lemma EventRoundTrip(derives: U32 -> bool, f: EventFrame)
    requires |f.originUid| < 0x1_0000_0000
    ensures ParseEvent(derives, EventBytes(f)) == if ValidEvent(derives, f) then Some(f) else None
  {
    hide TakeAddress, TakeBounded, ParseEventTail, EventTail, Be32, AddressBytes, Size32;
    var t := f.originUid + EventTail(f);
    var u := Be32(Size32(f.originUid)) + t;
    assert EventBytes(f)[2..] == AddressBytes(f.address) + u;
    TakesAddress(f.address, u);
    SmallSize(f.originUid);
    TakesBounded(f.originUid, MAX_ORIGIN_UID_BYTES, EventTail(f));
    EventTailRoundTrip(derives, f);
  }

  lemma EventCanonical(derives: U32 -> bool, b: Bytes)
    ensures ParseEvent(derives, b).Some? ==>
              ValidEvent(derives, ParseEvent(derives, b).value) && EventBytes(ParseEvent(derives, b).value) == b
  {
    hide TakeAddress, TakeBounded, EventTail, Be32, Be64, AddressBytes, TakePayload, TakeU32, TakeU64;
    if ParseEvent(derives, b).Some? {
      var a := TakeAddress(b[2..]);
      var uid := TakeBounded(a.rest, MAX_ORIGIN_UID_BYTES);
      TookAddress(b[2..]);
      TookBounded(a.rest, MAX_ORIGIN_UID_BYTES);
      SmallSize(uid.value);
      EventTailCanonical(derives, a.value, uid.value, uid.rest);
      TookPayload(TakeU32(TakeU64(TakeU64(uid.rest).rest).rest).rest);
      assert b == [EVENT, VERSION] + b[2..];
    }
  }

  /**
  The codecs are bijections between valid frames and accepted byte strings, and no byte string is accepted
  by two decoders.
   */
  lemma FramesAreBytes(derives: U32 -> bool, b: Bytes)
    ensures ParseNodeState(b).Some? <==> exists f :: ValidNodeState(f) && NodeStateBytes(f) == b
    ensures ParseAck(b).Some? <==> exists f: AckFrame :: f.address.Valid() && AckBytes(f) == b
    ensures ParseEvent(derives, b).Some? <==> exists f :: ValidEvent(derives, f) && EventBytes(f) == b
    ensures !(ParseNodeState(b).Some? && ParseAck(b).Some?)
    ensures !(ParseNodeState(b).Some? && ParseEvent(derives, b).Some?)
    ensures !(ParseAck(b).Some? && ParseEvent(derives, b).Some?)
  {
    hide TakeAddress, TakeBounded, ParseEventTail, TakePayload, NodeStateBytes, AckBytes, EventBytes;
    if ParseNodeState(b).Some? {
      NodeStateCanonical(b);
    } else if f :| ValidNodeState(f) && NodeStateBytes(f) == b {
      NodeStateRoundTrip(f);
    }
    if ParseAck(b).Some? {
      AckCanonical(b);
    } else if f: AckFrame :| f.address.Valid() && AckBytes(f) == b {
      AckRoundTrip(f);
    }
    if ParseEvent(derives, b).Some? {
      EventCanonical(derives, b);
    } else if f :| ValidEvent(derives, f) && EventBytes(f) == b {
      EventRoundTrip(derives, f);
    }
  }

  /** Without any assumption on the frame: it survives the round trip if and only if it is valid. */
  lemma EventRoundTripIff(derives: U32 -> bool, f: EventFrame)
    ensures ParseEvent(derives, EventBytes(f)) == Some(f) <==> ValidEvent(derives, f)
    ensures ValidEvent(derives, f) <==>
              && f.address.packetId != 0 && f.address.targetNodeId != 0 && f.address.shareId != 0
              && 1 <= |f.originUid| <= 256 && f.originSequence != 0 && f.timestampUs != 0
              && f.classId != 0 && derives(f.classId) && |f.payload| < 0x1_0000_0000
  {
    hide ParseEvent, EventBytes;
    if ValidEvent(derives, f) {
      EventRoundTrip(derives, f);
    } else if ParseEvent(derives, EventBytes(f)) == Some(f) {
      EventCanonical(derives, EventBytes(f));
      assert false;
    }
  }

  const SOME_ADDRESS: Address := Address(0x01020304, 0x05060708, 0x090A0B0C)

  lemma AddressSpelled()
    ensures AddressBytes(SOME_ADDRESS) == [1, 2, 3, 4, 5, 6, 7, 8, 9, 10, 11, 12]
  {
    hide Be32;
    BeDigits(0x01020304);
    BeDigits(0x05060708);
    BeDigits(0x090A0B0C);
  }

  /** One frame of each type, byte for byte. */
  lemma NodeStateSpelled()
    ensures NodeStateBytes(NodeStateFrame(SOME_ADDRESS, [0xFF]))
         == [1, 1, 1, 2, 3, 4, 5, 6, 7, 8, 9, 10, 11, 12, 0, 0, 0, 1, 0xFF]
  {
    hide Be32, AddressBytes;
    AddressSpelled();
    BeDigits(1);
  }

  lemma AckSpelled()
    ensures AckBytes(AckFrame(SOME_ADDRESS)) == [2, 1, 1, 2, 3, 4, 5, 6, 7, 8, 9, 10, 11, 12]
  {
    hide AddressBytes;
    AddressSpelled();
  }

  const SOME_EVENT: EventFrame :=
    EventFrame(SOME_ADDRESS, [0x41, 0x42], 0x1112131415161718, 0x2122232425262728, 0x31323334, [0xFF])

  lemma EventSpelled()
    ensures EventBytes(SOME_EVENT)
         == [3, 1, 1, 2, 3, 4, 5, 6, 7, 8, 9, 10, 11, 12, 0, 0, 0, 2, 0x41, 0x42]
            + ([0x11, 0x12, 0x13, 0x14, 0x15, 0x16, 0x17, 0x18] + ([0x21, 0x22, 0x23, 0x24, 0x25, 0x26, 0x27, 0x28]
               + [0x31, 0x32, 0x33, 0x34, 0, 0, 0, 1, 0xFF]))
  {
    hide Be32, AddressBytes, EventTail;
    AddressSpelled();
    TailSpelled();
    BeDigits(2);
    assert [3, 1] + ([1, 2, 3, 4, 5, 6, 7, 8, 9, 10, 11, 12] + ([0, 0, 0, 2] + [0x41, 0x42]))
        == [3, 1, 1, 2, 3, 4, 5, 6, 7, 8, 9, 10, 11, 12, 0, 0, 0, 2, 0x41, 0x42];
  }

  lemma TailSpelled()
    ensures EventTail(SOME_EVENT)
         == [0x11, 0x12, 0x13, 0x14, 0x15, 0x16, 0x17, 0x18] + ([0x21, 0x22, 0x23, 0x24, 0x25, 0x26, 0x27, 0x28]
            + [0x31, 0x32, 0x33, 0x34, 0, 0, 0, 1, 0xFF])
  {
    hide Be32, Be64;
    LongSpelled();
    BeDigits(1);
    BeDigits(0x31323334);
    assert [0x31, 0x32, 0x33, 0x34] + ([0, 0, 0, 1] + [0xFF]) == [0x31, 0x32, 0x33, 0x34, 0, 0, 0, 1, 0xFF];
  }

  lemma LongSpelled()
    ensures Be64(0x1112131415161718) == [0x11, 0x12, 0x13, 0x14, 0x15, 0x16, 0x17, 0x18]
    ensures Be64(0x2122232425262728) == [0x21, 0x22, 0x23, 0x24, 0x25, 0x26, 0x27, 0x28]
  {
    hide Be32;
    BeDigits(0x11121314);
    BeDigits(0x15161718);
    BeDigits(0x21222324);
    BeDigits(0x25262728);
  }

  /** Where the fields of a snapshot frame are on the wire. */
  lemma NodeStateLayout(f: NodeStateFrame)
    ensures var b := NodeStateBytes(f);
            && |b| == 18 + |f.payload| && b[..2] == [1, 1]
            && b[2..6] == Be32(f.address.packetId) && b[6..10] == Be32(f.address.targetNodeId)
            && b[10..14] == Be32(f.address.shareId) && b[14..18] == Be32(Size32(f.payload)) && b[18..] == f.payload
  {
    hide Be32, Size32;
  }

  /** Where the fields of an acknowledgement are on the wire. */
  lemma AckLayout(f: AckFrame)
    ensures var b := AckBytes(f);
            && |b| == 14 && b[..2] == [2, 1]
            && b[2..6] == Be32(f.address.packetId) && b[6..10] == Be32(f.address.targetNodeId)
            && b[10..14] == Be32(f.address.shareId)
  {
    hide Be32;
  }

  /** Where the fields of an event frame are on the wire. */
  lemma EventLayout(f: EventFrame)
    ensures var b, u := EventBytes(f), 18 + |f.originUid|;
            && |b| == u + 24 + |f.payload| && b[..2] == [3, 1]
            && b[2..6] == Be32(f.address.packetId) && b[6..10] == Be32(f.address.targetNodeId)
            && b[10..14] == Be32(f.address.shareId)
            && b[14..18] == Be32(Size32(f.originUid)) && b[18..u] == f.originUid
            && b[u..u + 8] == Be64(f.originSequence) && b[u + 8..u + 16] == Be64(f.timestampUs)
            && b[u + 16..u + 20] == Be32(f.classId) && b[u + 20..u + 24] == Be32(Size32(f.payload))
            && b[u + 24..] == f.payload
  {
    hide Be32, Be64, Size32, EventTail;
    var head := [EVENT, VERSION] + AddressBytes(f.address) + Be32(Size32(f.originUid)) + f.originUid;
    assert EventBytes(f) == head + EventTail(f);
    assert head[2..6] == Be32(f.address.packetId) && head[6..10] == Be32(f.address.targetNodeId);
    TailLayout(f);
    Shifted(head, EventTail(f));
  }

  lemma TailLayout(f: EventFrame)
    ensures var t := EventTail(f);
            && |t| == 24 + |f.payload| && t[..8] == Be64(f.originSequence) && t[8..16] == Be64(f.timestampUs)
            && t[16..20] == Be32(f.classId) && t[20..24] == Be32(Size32(f.payload)) && t[24..] == f.payload
  {
    hide Be32, Be64, Size32;
  }

  lemma Shifted(a: Bytes, b: Bytes)
    ensures |a + b| == |a| + |b|
    ensures forall i, j {:trigger b[i..j]} :: 0 <= i <= j <= |b| ==> (a + b)[|a| + i..|a| + j] == b[i..j]
    ensures forall i {:trigger b[i..]} :: 0 <= i <= |b| ==> (a + b)[|a| + i..] == b[i..]
    ensures forall i, j {:trigger a[i..j]} :: 0 <= i <= j <= |a| ==> (a + b)[i..j] == a[i..j]
  {
  }

  /** Different valid frames have different bytes. */
  lemma EventBytesInjective(derives: U32 -> bool, f: EventFrame, g: EventFrame)
    requires ValidEvent(derives, f) && ValidEvent(derives, g) && EventBytes(f) == EventBytes(g)
    ensures f == g
  {
    hide ParseEvent, EventBytes;
    EventRoundTrip(derives, f);
    EventRoundTrip(derives, g);
  }

  // ----- the code -----

  method AppendU32(out: Bytes, value: U32) returns (more: Bytes)
    ensures more == out + Be32(value)
  {
    more := out + [Low(High(High(High(value))))];
    more := more + [Low(High(High(value)))];
    more := more + [Low(High(value))];
    more := more + [Low(value)];
  }

  method AppendU64(out: Bytes, value: U64) returns (more: Bytes)
    ensures more == out + Be64(value)
  {
    more := AppendU32(out, Upper(value));
    more := AppendU32(more, Lower(value));
  }

  method AppendAddress(out: Bytes, a: Address) returns (more: Bytes)
    ensures more == out + AddressBytes(a)
  {
    more := AppendU32(out, a.packetId);
    more := AppendU32(more, a.targetNodeId);
    more := AppendU32(more, a.shareId);
  }

  method EncodeNodeStateFrame(f: NodeStateFrame) returns (out: Bytes)
    ensures out == NodeStateBytes(f)
  {
    hide Be32, AddressBytes;
    out := [NODE_STATE, VERSION];
    out := AppendAddress(out, f.address);
    out := AppendU32(out, Size32(f.payload));
    out := out + f.payload;
  }

  method EncodeAckFrame(f: AckFrame) returns (out: Bytes)
    ensures out == AckBytes(f)
  {
    out := [ACK, VERSION];
    out := AppendAddress(out, f.address);
  }

  method EncodeEventFrame(f: EventFrame) returns (out: Bytes)
    ensures out == EventBytes(f)
  {
    hide Be32, Be64, AddressBytes;
    out := [EVENT, VERSION];
    out := AppendAddress(out, f.address);
    out := AppendU32(out, Size32(f.originUid));
    out := out + f.originUid;
    ghost var head := out;
    out := AppendU64(out, f.originSequence);
    out := AppendU64(out, f.timestampUs);
    out := AppendU32(out, f.classId);
    out := AppendU32(out, Size32(f.payload));
    out := out + f.payload;
    assert out == head + EventTail(f);
  }

  /** Four bytes at `pos`, if there are four. */
  method ReadU32(bytes: Bytes, pos: nat) returns (ok: bool, value: U32, next: nat)
    requires pos <= |bytes|
    ensures next <= |bytes|
    ensures TakeU32(bytes[pos..]) == if ok then Got(value, bytes[next..]) else Fail
  {
    if pos + 4 > |bytes| {
      return false, 0, pos;
    }
    value := BeValue(bytes[pos], bytes[pos + 1], bytes[pos + 2], bytes[pos + 3]);
    assert bytes[pos..][4..] == bytes[pos + 4..];
    ok, next := true, pos + 4;
  }

  method ReadU64(bytes: Bytes, pos: nat) returns (ok: bool, value: U64, next: nat)
    requires pos <= |bytes|
    ensures next <= |bytes|
    ensures TakeU64(bytes[pos..]) == if ok then Got(value, bytes[next..]) else Fail
  {
    hide TakeU32;
    var hi, lo;
    value := 0;
    ok, hi, next := ReadU32(bytes, pos);
    if !ok {
      return;
    }
    ok, lo, next := ReadU32(bytes, next);
    if !ok {
      return;
    }
    value := Join(hi, lo);
  }

  method ReadAddress(bytes: Bytes, pos: nat) returns (ok: bool, a: Address, next: nat)
    requires pos <= |bytes|
    ensures next <= |bytes|
    ensures TakeAddress(bytes[pos..]) == if ok then Got(a, bytes[next..]) else Fail
  {
    hide TakeU32;
    a := Address(0, 0, 0);
    var p, n, s;
    ok, p, next := ReadU32(bytes, pos);
    if !ok || p == 0 {
      return false, a, next;
    }
    ok, n, next := ReadU32(bytes, next);
    if !ok || n == 0 {
      return false, a, next;
    }
    ok, s, next := ReadU32(bytes, next);
    if !ok || s == 0 {
      return false, a, next;
    }
    a := Address(p, n, s);
  }

  method ReadBoundedBytes(bytes: Bytes, pos: nat, max: nat) returns (ok: bool, s: Bytes, next: nat)
    requires pos <= |bytes|
    ensures next <= |bytes|
    ensures TakeBounded(bytes[pos..], max) == if ok then Got(s, bytes[next..]) else Fail
  {
    hide TakeU32;
    var size;
    ok, size, next := ReadU32(bytes, pos);
    if !ok || size == 0 || size > max || next + size > |bytes| {
      return false, [], next;
    }
    s := bytes[next..next + size];
    assert bytes[next..][..size] == s && bytes[next..][size..] == bytes[next + size..];
    next := next + size;
  }

  method DecodeNodeStateFrame(bytes: Bytes) returns (frame: Option<NodeStateFrame>)
    ensures frame == ParseNodeState(bytes)
  {
    hide TakeU32, TakeAddress;
    if |bytes| < 2 || bytes[0] != NODE_STATE || bytes[1] != VERSION {
      return None;
    }
    var pos, size;
    var ok, a;
    ok, a, pos := ReadAddress(bytes, 2);
    if !ok {
      return None;
    }
    ok, size, pos := ReadU32(bytes, pos);
    if !ok || pos + size != |bytes| {
      return None;
    }
    assert bytes[pos..] == bytes[pos..pos + size];
    frame := Some(NodeStateFrame(a, bytes[pos..pos + size]));
  }

  method DecodeAckFrame(bytes: Bytes) returns (frame: Option<AckFrame>)
    ensures frame == ParseAck(bytes)
  {
    hide TakeAddress;
    if |bytes| < 2 || bytes[0] != ACK || bytes[1] != VERSION {
      return None;
    }
    var ok, a, pos := ReadAddress(bytes, 2);
    if !ok || pos != |bytes| {
      return None;
    }
    frame := Some(AckFrame(a));
  }

  method DecodeEventFrame(derives: U32 -> bool, bytes: Bytes) returns (frame: Option<EventFrame>)
    ensures frame == ParseEvent(derives, bytes)
  {
    hide TakeU32, TakeU64, TakeAddress, TakeBounded;
    if |bytes| < 2 || bytes[0] != EVENT || bytes[1] != VERSION {
      return None;
    }
    var ok, pos, a, uid, sequence, ts, classId, size;
    ok, a, pos := ReadAddress(bytes, 2);
    if !ok {
      return None;
    }
    ok, uid, pos := ReadBoundedBytes(bytes, pos, MAX_ORIGIN_UID_BYTES);
    if !ok {
      return None;
    }
    ok, sequence, pos := ReadU64(bytes, pos);
    if !ok || sequence == 0 {
      return None;
    }
    ok, ts, pos := ReadU64(bytes, pos);
    if !ok || ts == 0 {
      return None;
    }
    ok, classId, pos := ReadU32(bytes, pos);
    if !ok || classId == 0 || !derives(classId) {
      return None;
    }
    ok, size, pos := ReadU32(bytes, pos);
    if !ok || pos + size != |bytes| {
      return None;
    }
    assert bytes[pos..] == bytes[pos..pos + size];
    frame := Some(EventFrame(a, uid, sequence, ts, classId, bytes[pos..pos + size]));
  }

  /** Which decoder to call: the only one that can accept. */
  method PeekSyncFrameType(derives: U32 -> bool, bytes: Bytes) returns (kind: Option<Byte>)
    ensures ParseNodeState(bytes).Some? ==> kind == Some(NODE_STATE)
    ensures ParseAck(bytes).Some? ==> kind == Some(ACK)
    ensures ParseEvent(derives, bytes).Some? ==> kind == Some(EVENT)
    ensures kind.Some? <==> exists k :: k in {NODE_STATE, ACK, EVENT} && HasHeader(bytes, k)
  {
    if |bytes| < 2 || bytes[1] != VERSION {
      return None;
    }
    if bytes[0] == NODE_STATE || bytes[0] == ACK || bytes[0] == EVENT {
      assert HasHeader(bytes, bytes[0]);
      return Some(bytes[0]);
    }
    kind := None;
  }
}
