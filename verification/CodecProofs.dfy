/** The frame codec is two-way: what is built parses back, and what parses was built. */
module CodecProofs {
  import opened Common
  import opened MacAddress
  import opened Codec

  // ---------- trailing NULs of the packet type ----------

  /** The packet type without the NUL characters at its end. */
  function TrimNul(s: string): string {
    if s != "" && s[|s| - 1] == '\0' then TrimNul(s[..|s| - 1]) else s
  }

  lemma {:induction false} StripNulUnique(r: Bytes, k: nat)
    requires r == [] || r[|r| - 1] != 0
    ensures StripNul(r + Zeros(k)) == r
  {
    if k == 0 {
      assert r + Zeros(0) == r;
    } else {
      StripNulUnique(r, k - 1);
      var bs := r + Zeros(k);
      assert bs[..|bs| - 1] == r + Zeros(k - 1);
    }
  }

  lemma {:induction false} StripNulOfText(s: string, k: nat)
    requires IsAsciiText(s)
    ensures IsAsciiText(TrimNul(s))
    ensures StripNul(AsciiBytes(s) + Zeros(k)) == AsciiBytes(TrimNul(s))
  {
    if s != "" && s[|s| - 1] == '\0' {
      var t := s[..|s| - 1];
      StripNulOfText(t, k + 1);
      assert AsciiBytes(s) + Zeros(k) == AsciiBytes(t) + Zeros(k + 1);
    } else {
      StripNulUnique(AsciiBytes(s), k);
    }
  }

  lemma AsciiRoundTrip(s: string)
    requires IsAsciiText(s)
    ensures AsciiText(AsciiBytes(s)) == s
  {
  }

  lemma DecodeBuiltType(packetType: string)
    requires PacketTypeBytes(packetType).Ok?
    ensures DecodePacketType(PacketTypeBytes(packetType).value) == Ok(TrimNul(packetType))
  {
    StripNulOfText(packetType, PACKET_TYPE_LEN - |packetType|);
    AsciiRoundTrip(TrimNul(packetType));
  }

  lemma EncodeDecodedType(raw: Bytes)
    requires |raw| == PACKET_TYPE_LEN && DecodePacketType(raw).Ok?
    ensures PacketTypeBytes(DecodePacketType(raw).value) == Ok(raw)
  {
    assert raw == StripNul(raw) + Zeros(PACKET_TYPE_LEN - |StripNul(raw)|);
  }

  // ---------- main results ----------

  /** The packet types and payloads the hub understands. */
  predicate Understood(packetType: string, payload: Bytes) {
    packetType == "ALERT" || (packetType == "RAWDATA" && |payload| == RAWDATA_PAYLOAD_LEN)
  }

  lemma DataParts(data: Bytes)
    requires |data| >= MIN_FRAME_LEN && |data| == FrameLen(data)
    ensures var n := LengthField(data);
            && U16Bytes(n) == data[14..16]
            && data == data[..6] + data[6..14] + data[14..16] + data[16..16 + n] + data[|data| - 2..]
  {
  }

  /** Any frame the parser accepts is what `build_frame` makes of its parsed fields. */
  lemma ParsedFrameRebuilds(data: Bytes)
    requires ParseFrame(data).Ok?
    ensures var f := ParseFrame(data).value;
            && BuildFrame(f.mac, f.packetType, f.payload) == Ok(data)
            && MacToBytes(f.mac) == Ok(f.macBytes) && f.macBytes == data[..MAC_LEN]
            && f.packetLength == |f.payload|
            && Understood(f.packetType, f.payload)
            && (f.parsed.RawData? <==> f.packetType == "RAWDATA")
            && (f.parsed.RawData? ==> ParseRawData(f.payload) == Ok(f.parsed.packet))
  {
    var f := ParseFrame(data).value;
    NormalizeMacText(f.macBytes);
    MacBytesIff(f.mac, f.macBytes);
    EncodeDecodedType(data[6..14]);
    DataParts(data);
  }

  /** A built frame is accepted exactly when its type, without trailing NULs, is one the hub
      understands; every field then comes back, and otherwise the type is what is blamed. */
  lemma BuiltFrameParses(mac: string, packetType: string, payload: Bytes)
    requires BuildFrame(mac, packetType, payload).Ok?
    ensures var r := ParseFrame(BuildFrame(mac, packetType, payload).value);
            var t := TrimNul(packetType);
            && (r.Ok? <==> Understood(t, payload))
            && (r.Ok? ==>
                  && MacToBytes(mac) == Ok(r.value.macBytes)
                  && Normalize(mac) == Ok(r.value.mac)
                  && r.value.packetType == t
                  && r.value.payload == payload)
            && (r.Err? ==> r.error == if t == "RAWDATA" then RawDataLength else UnknownType)
  {
    var data := BuildFrame(mac, packetType, payload).value;
    BuildFrameLayout(mac, packetType, payload);
    DecodeBuiltType(packetType);
    MacBytesIff(mac, data[..6]);
  }

  /** The parser accepts exactly the frames the hub's builder makes for a type it understands. */
  lemma AcceptedIffBuilt(data: Bytes)
    ensures ParseFrame(data).Ok? <==>
            exists mac, packetType, payload ::
              Understood(packetType, payload) && BuildFrame(mac, packetType, payload) == Ok(data)
  {
    if ParseFrame(data).Ok? {
      ParsedFrameRebuilds(data);
    }
    forall mac, packetType, payload
      | Understood(packetType, payload) && BuildFrame(mac, packetType, payload) == Ok(data)
      ensures ParseFrame(data).Ok?
    {
      BuiltFrameParses(mac, packetType, payload);
      assert TrimNul("ALERT") == "ALERT" && TrimNul("RAWDATA") == "RAWDATA";
    }
  }

  // ---------- the RAWDATA payload ----------

  function ByteOfSigned(v: int): byte
    requires -128 <= v < 128
  {
    if v >= 0 then v as byte else (v + 256) as byte
  }

  /** Field ranges of the packed structure. */
  predicate PackableRawData(p: RawDataPacket) {
    && 0 <= p.flagHumanPresence < 256 && 0 <= p.detected < 256 && 0 <= p.flagSound < 256
    && 0 <= p.flagEnv <= MAX_PAYLOAD_LEN && 0 <= p.temperatureRaw <= MAX_PAYLOAD_LEN
    && 0 <= p.humidity <= MAX_PAYLOAD_LEN && 0 <= p.iaq <= MAX_PAYLOAD_LEN
    && 0 <= p.eco2 <= MAX_PAYLOAD_LEN && 0 <= p.bvoc <= MAX_PAYLOAD_LEN
    && 0 <= p.accuracy <= MAX_PAYLOAD_LEN
    && |p.sound| == 16 && forall i :: 0 <= i < 16 ==> -128 <= p.sound[i] < 128
  }

  /** The node's side of the layout: little-endian, packed, in field order. */
  function PackRawData(p: RawDataPacket): (payload: Bytes)
    requires PackableRawData(p)
    ensures |payload| == RAWDATA_PAYLOAD_LEN
  {
    [p.flagHumanPresence as byte, p.detected as byte]
    + U16Bytes(p.flagEnv) + U16Bytes(p.temperatureRaw) + U16Bytes(p.humidity) + U16Bytes(p.iaq)
    + U16Bytes(p.eco2) + U16Bytes(p.bvoc) + U16Bytes(p.accuracy)
    + [p.flagSound as byte]
    + seq(16, i requires 0 <= i < 16 && -128 <= p.sound[i] < 128 => ByteOfSigned(p.sound[i]))
  }

  /** Every 33-byte payload unpacks, and packing the fields gives the payload back. */
  lemma {:induction false} RawDataRepacks(payload: Bytes)
    ensures ParseRawData(payload).Ok? <==> |payload| == RAWDATA_PAYLOAD_LEN
    ensures ParseRawData(payload).Ok? ==>
              var p := ParseRawData(payload).value;
              PackableRawData(p) && PackRawData(p) == payload
  {
    if |payload| == RAWDATA_PAYLOAD_LEN {
      var p := ParseRawData(payload).value;
      U16Inverse(payload, 2); U16Inverse(payload, 4); U16Inverse(payload, 6);
      U16Inverse(payload, 8); U16Inverse(payload, 10); U16Inverse(payload, 12);
      U16Inverse(payload, 14);
      assert PackRawData(p)[17..] == payload[17..];
      assert PackRawData(p)[..17] == payload[..17];
      assert payload == payload[..17] + payload[17..];
    }
  }

  lemma U16Inverse(bs: Bytes, i: nat)
    requires i + 2 <= |bs|
    ensures U16Bytes(U16(bs[i], bs[i + 1])) == bs[i..i + 2]
  {
  }

  /** Unpacking recovers every field of a packed structure; the event flag is derived. */
  lemma PackedRawDataParses(p: RawDataPacket)
    requires PackableRawData(p)
    ensures ParseRawData(PackRawData(p)).Ok?
    ensures var q := ParseRawData(PackRawData(p)).value;
            q.(isPirHumanDetectionEvent := p.isPirHumanDetectionEvent) == p
  {
    var payload := PackRawData(p);
    var q := ParseRawData(payload).value;
    assert payload[2..4] == U16Bytes(p.flagEnv);
    assert payload[4..6] == U16Bytes(p.temperatureRaw);
    assert payload[6..8] == U16Bytes(p.humidity);
    assert payload[8..10] == U16Bytes(p.iaq);
    assert payload[10..12] == U16Bytes(p.eco2);
    assert payload[12..14] == U16Bytes(p.bvoc);
    assert payload[14..16] == U16Bytes(p.accuracy);
    forall i | 0 <= i < 16 ensures q.sound[i] == p.sound[i] {
      assert payload[17 + i] == ByteOfSigned(p.sound[i]);
    }
    assert q.sound == p.sound;
  }

  lemma PirPayload(p: RawDataPacket)
    requires PackableRawData(p) && IsPirEvent(p)
    ensures PackRawData(p) == [1, 1] + Zeros(31)
  {
    assert U16Bytes(0) == [0, 0];
    assert PackRawData(p)[17..] == Zeros(16);
  }

  /** Exactly one payload means "PIR human detection": two ones followed by zeros. */
  lemma PirEventPayload(payload: Bytes)
    requires |payload| == RAWDATA_PAYLOAD_LEN
    ensures ParseRawData(payload).value.isPirHumanDetectionEvent <==> payload == [1, 1] + Zeros(31)
  {
    var p := ParseRawData(payload).value;
    RawDataRepacks(payload);
    var pir := RawDataPacket(1, 1, 0, 0, 0, 0, 0, 0, 0, 0, seq(16, _ => 0), true);
    PirPayload(pir);
    PackedRawDataParses(pir);
    if p.isPirHumanDetectionEvent {
      PirPayload(p);
    }
  }

  // ---------- commands ----------

  /** A command frame exists exactly for a valid command and a twelve-digit address; it
      carries the address bytes and the canonical command, and the hub's own parser refuses
      it as an unknown type. */
  lemma CommandFrameMeaning(mac: string, command: string)
    ensures BuildCommandFrame(mac, command).Ok? <==>
            command in VALID_COMMANDS && |Compact(mac)| == 12
    ensures BuildCommandFrame(mac, command).Ok? ==>
              var data := BuildCommandFrame(mac, command).value;
              var canonical := ValidateCommand(command).value;
              && MacToBytes(mac) == Ok(data[..6])
              && IsAsciiText(canonical)
              && data[HEADER_LEN..|data| - END_FLAG_LEN] == AsciiBytes(canonical)
              && |data| <= 32
              && ParseFrame(data) == Err(UnknownType)
  {
    if command in VALID_COMMANDS {
      var canonical := ValidateCommand(command).value;
      ValidCommandText(canonical);
      BuildFrameLayout(mac, "COMMAND", AsciiBytes(canonical));
      if BuildCommandFrame(mac, command).Ok? {
        BuiltFrameParses(mac, "COMMAND", AsciiBytes(canonical));
      }
    }
  }

  /** Two command frames are equal exactly when they address the same node with the same
      command up to the `enter`/`exit` spellings. */
  lemma CommandFrameInjective(mac1: string, command1: string, mac2: string, command2: string)
    requires BuildCommandFrame(mac1, command1).Ok? && BuildCommandFrame(mac2, command2).Ok?
    ensures BuildCommandFrame(mac1, command1) == BuildCommandFrame(mac2, command2) <==>
            Normalize(mac1) == Normalize(mac2) && ValidateCommand(command1) == ValidateCommand(command2)
  {
    CommandFrameMeaning(mac1, command1);
    CommandFrameMeaning(mac2, command2);
    var d1, d2 := BuildCommandFrame(mac1, command1).value, BuildCommandFrame(mac2, command2).value;
    MacBytesIff(mac1, d1[..6]);
    MacBytesIff(mac2, d1[..6]);
    if d1 == d2 {
      AsciiRoundTrip(ValidateCommand(command1).value);
      AsciiRoundTrip(ValidateCommand(command2).value);
    }
  }
}
