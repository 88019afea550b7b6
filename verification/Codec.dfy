/** The binary frame format: building, parsing and the RAWDATA payload layout. */
module Codec {
  import opened Common
  import opened MacAddress

  const PACKET_TYPE_LEN := 8
  const PACKET_LEN_LEN := 2
  const HEADER_LEN := MAC_LEN + PACKET_TYPE_LEN + PACKET_LEN_LEN
  const END_FLAG: seq<byte> := [0x0d, 0x0a]
  const END_FLAG_LEN := 2
  const MIN_FRAME_LEN := HEADER_LEN + END_FLAG_LEN
  const RAWDATA_PAYLOAD_LEN := 33
  const MAX_PAYLOAD_LEN := 0xFFFF

  type Bytes = seq<byte>

  datatype RawDataPacket = RawDataPacket(
    flagHumanPresence: int,
    detected: int,
    flagEnv: int,
    temperatureRaw: int,
    humidity: int,
    iaq: int,
    eco2: int,
    bvoc: int,
    accuracy: int,
    flagSound: int,
    sound: seq<int>,
    isPirHumanDetectionEvent: bool)

  /** The decoded payload. The text of an alert is a lossy view of the frame's payload and
      is not kept. */
  datatype Parsed = RawData(packet: RawDataPacket) | Alert

  datatype ParsedFrame = ParsedFrame(
    mac: string,
    macBytes: Bytes,
    packetType: string,
    packetLength: nat,
    payload: Bytes,
    parsed: Parsed)

  datatype ParseError =
    | TooShort
    | LengthMismatch
    | EndFlagMismatch
    | TypeNotAsciiText
    | RawDataLength
    | UnknownType

  // ---------- little-endian numbers, ASCII text ----------

  function U16(lo: byte, hi: byte): (n: nat)
    ensures n <= MAX_PAYLOAD_LEN
  {
    lo as int + 256 * hi as int
  }

  function U16Bytes(n: nat): (bs: Bytes)
    requires n <= MAX_PAYLOAD_LEN
    ensures |bs| == 2 && U16(bs[0], bs[1]) == n
  {
    [(n % 256) as byte, (n / 256) as byte]
  }

  /** The 16-bit length field of a header. */
  function LengthField(data: Bytes): (n: nat)
    requires |data| >= HEADER_LEN
    ensures n <= MAX_PAYLOAD_LEN
  {
    U16(data[MAC_LEN + PACKET_TYPE_LEN], data[MAC_LEN + PACKET_TYPE_LEN + 1])
  }

  /** The frame length announced by a header. */
  function FrameLen(data: Bytes): (n: nat)
    requires |data| >= HEADER_LEN
    ensures MIN_FRAME_LEN <= n <= MIN_FRAME_LEN + MAX_PAYLOAD_LEN
  {
    HEADER_LEN + LengthField(data) + END_FLAG_LEN
  }

  predicate IsAsciiText(s: string) {
    forall i :: 0 <= i < |s| ==> s[i] < 128 as char
  }

  predicate IsAsciiBytes(bs: Bytes) {
    forall i :: 0 <= i < |bs| ==> bs[i] < 128
  }

  function AsciiBytes(s: string): (bs: Bytes)
    requires IsAsciiText(s)
    ensures |bs| == |s| && IsAsciiBytes(bs)
    ensures forall i :: 0 <= i < |s| ==> bs[i] as int == s[i] as int
  {
    seq(|s|, i requires 0 <= i < |s| && s[i] < 128 as char => s[i] as int as byte)
  }

  function AsciiText(bs: Bytes): (s: string)
    requires IsAsciiBytes(bs)
    ensures |s| == |bs| && IsAsciiText(s)
    ensures AsciiBytes(s) == bs
  {
    seq(|bs|, i requires 0 <= i < |bs| && bs[i] < 128 => bs[i] as int as char)
  }

  function PacketTypeBytes(packetType: string): Result<Bytes, ValueError> {
    if !IsAsciiText(packetType) then Err(TypeNotAscii)
    else if |packetType| > PACKET_TYPE_LEN then Err(TypeTooLong)
    else Ok(AsciiBytes(packetType) + Zeros(PACKET_TYPE_LEN - |packetType|))
  }

  /** `rstrip(b"\x00")`. */
  function StripNul(bs: Bytes): (r: Bytes)
    ensures |r| <= |bs|
    ensures bs == r + Zeros(|bs| - |r|)
    ensures r == [] || r[|r| - 1] != 0
  {
    if bs != [] && bs[|bs| - 1] == 0 then StripNul(bs[..|bs| - 1]) else bs
  }

  // ---------- building ----------

  function BuildFrame(mac: string, packetType: string, payload: Bytes): Result<Bytes, ValueError> {
    if |payload| > MAX_PAYLOAD_LEN then Err(PayloadTooLarge)
    else
      var macBytes :- MacToBytes(mac);
      var typeBytes :- PacketTypeBytes(packetType);
      Ok(macBytes + typeBytes + U16Bytes(|payload|) + payload + END_FLAG)
  }

  const VALID_COMMANDS := [
    "strong_enter", "strong_exit", "weak_enter", "weak_exit", "default_action", "enter", "exit"]

  function ValidateCommand(command: string): Result<string, ValueError> {
    if command !in VALID_COMMANDS then Err(UnknownCommand)
    else if command == "enter" then Ok("strong_enter")
    else if command == "exit" then Ok("strong_exit")
    else Ok(command)
  }

  function BuildCommandFrame(mac: string, command: string): Result<Bytes, ValueError> {
    var canonical :- ValidateCommand(command);
    ValidCommandText(canonical);
    BuildFrame(mac, "COMMAND", AsciiBytes(canonical))
  }

  // ---------- parsing ----------

  function SignedByte(b: byte): int {
    if b < 128 then b as int else b as int - 256
  }

  /** Presence and detection are 1 and every other field is zero. */
  predicate IsPirEvent(p: RawDataPacket) {
    var remainingFieldsAreZero :=
      p.flagEnv == 0 && p.temperatureRaw == 0 && p.humidity == 0 && p.iaq == 0 && p.eco2 == 0
      && p.bvoc == 0 && p.accuracy == 0 && p.flagSound == 0
      && forall i :: 0 <= i < |p.sound| ==> p.sound[i] == 0;
    p.flagHumanPresence == 1 && p.detected == 1 && remainingFieldsAreZero
  }

  function ParseRawData(payload: Bytes): Result<RawDataPacket, ParseError> {
    if |payload| != RAWDATA_PAYLOAD_LEN then Err(RawDataLength)
    else
      var flagHumanPresence := payload[0] as int;
      var detected := payload[1] as int;
      var flagEnv := U16(payload[2], payload[3]);
      var temperatureRaw := U16(payload[4], payload[5]);
      var humidity := U16(payload[6], payload[7]);
      var iaq := U16(payload[8], payload[9]);
      var eco2 := U16(payload[10], payload[11]);
      var bvoc := U16(payload[12], payload[13]);
      var accuracy := U16(payload[14], payload[15]);
      var flagSound := payload[16] as int;
      var sound := seq(16, i requires 0 <= i < 16 => SignedByte(payload[17 + i]));
      var p := RawDataPacket(
                 flagHumanPresence, detected, flagEnv, temperatureRaw, humidity, iaq, eco2, bvoc,
                 accuracy, flagSound, sound, false);
      Ok(p.(isPirHumanDetectionEvent := IsPirEvent(p)))
  }

  /** `raw_packet_type.rstrip(b"\x00").decode("ascii")`. */
  function DecodePacketType(raw: Bytes): Result<string, ParseError> {
    if IsAsciiBytes(StripNul(raw)) then Ok(AsciiText(StripNul(raw))) else Err(TypeNotAsciiText)
  }

  function ParseFrame(data: Bytes): Result<ParsedFrame, ParseError> {
    if |data| < MIN_FRAME_LEN then Err(TooShort)
    else if |data| != FrameLen(data) then Err(LengthMismatch)
    else if data[|data| - END_FLAG_LEN..] != END_FLAG then Err(EndFlagMismatch)
    else
      var macBytes := data[..MAC_LEN];
      var packetLength := LengthField(data);
      var packetType :- DecodePacketType(data[MAC_LEN..MAC_LEN + PACKET_TYPE_LEN]);
      var payload := data[HEADER_LEN..HEADER_LEN + packetLength];
      var parsed :- (
        if packetType == "RAWDATA" then
          var packet :- ParseRawData(payload);
          Ok(RawData(packet))
        else if packetType == "ALERT" then Ok(Alert)
        else Err(UnknownType));
      Ok(ParsedFrame(MacText(macBytes), macBytes, packetType, packetLength, payload, parsed))
  }

  // ---------- the frame codec is two-way ----------

  lemma FrameParts(m: Bytes, t: Bytes, len: Bytes, payload: Bytes)
    requires |m| == 6 && |t| == 8 && |len| == 2
    ensures var data := m + t + len + payload + END_FLAG;
            && |data| == MIN_FRAME_LEN + |payload|
            && data[..6] == m && data[6..14] == t && data[14..16] == len
            && data[14] == len[0] && data[15] == len[1]
            && data[16..16 + |payload|] == payload && data[|data| - 2..] == END_FLAG
  {
  }

  /** Exactly which arguments `build_frame` accepts, and where each part lands. */
  lemma BuildFrameLayout(mac: string, packetType: string, payload: Bytes)
    ensures BuildFrame(mac, packetType, payload).Ok? <==>
            && |payload| <= MAX_PAYLOAD_LEN
            && |Compact(mac)| == 12
            && IsAsciiText(packetType)
            && |packetType| <= PACKET_TYPE_LEN
    ensures BuildFrame(mac, packetType, payload).Ok? ==>
              var data := BuildFrame(mac, packetType, payload).value;
              && |data| == MIN_FRAME_LEN + |payload|
              && FrameLen(data) == |data|
              && LengthField(data) == |payload|
              && MacToBytes(mac) == Ok(data[..6])
              && PacketTypeBytes(packetType) == Ok(data[6..14])
              && data[14..16] == U16Bytes(|payload|)
              && data[16..16 + |payload|] == payload
              && data[|data| - 2..] == END_FLAG
  {
    NormalizeMeaning(mac);
    if MacToBytes(mac).Ok? {
      var m := MacToBytes(mac).value;
      MacBytesIff(mac, m);
      if BuildFrame(mac, packetType, payload).Ok? {
        FrameParts(m, PacketTypeBytes(packetType).value, U16Bytes(|payload|), payload);
      }
    }
  }

  /** A canonical command survives validation and ASCII encoding. */
  lemma ValidCommandText(canonical: string)
    requires exists c :: ValidateCommand(c) == Ok(canonical)
    ensures IsAsciiText(canonical) && |canonical| <= 14
    ensures ValidateCommand(canonical) == Ok(canonical)
  {
  }
}
