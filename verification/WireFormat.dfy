/** What the bytes on the air mean, field by field, in numbers. */
module WireFormat {
  import opened Common
  import opened MacAddress
  import opened Codec
  import opened CodecProofs
  import opened Assembler

  const HEX_DIGITS := "0123456789ABCDEF"

  // ---------- addresses ----------

  /** Each byte of an address is spelled by its high digit, then its low digit. */
  lemma OctetDigits(b: byte)
    ensures OctetText(b) == [HEX_DIGITS[b as int / 16], HEX_DIGITS[b as int % 16]]
  {
    HexCharIsDigit(b as int / 16);
    HexCharIsDigit(b as int % 16);
  }

  lemma HexCharIsDigit(d: int)
    requires 0 <= d < 16
    ensures HexChar(d) == HEX_DIGITS[d]
  {
    if d < 10 {
      assert HEX_DIGITS[d] == ('0' as int + d) as char;
    } else {
      assert HEX_DIGITS[d] == ('A' as int + d - 10) as char;
    }
  }

  /** Both cases of a digit have its value. */
  lemma HexDigitValues(d: nat)
    requires d < 16
    ensures HexDigit(HEX_DIGITS[d]) == d && HexDigit("0123456789abcdef"[d]) == d
    ensures Upper("0123456789abcdef"[d]) == HEX_DIGITS[d]
  {
  }

  /** A canonical address is twelve upper-case digits, in pairs with colons between. */
  lemma CanonicalShape(mac: string)
    requires Normalize(mac).Ok?
    ensures var s, bs := Normalize(mac).value, PairBytes(Compact(mac));
            |s| == 17 && |bs| == 6
            && (forall k :: 0 <= k < 6 ==>
                  && s[3 * k] == HEX_DIGITS[bs[k] as int / 16] && s[3 * k + 1] == HEX_DIGITS[bs[k] as int % 16]
                  && (k < 5 ==> s[3 * k + 2] == ':'))
  {
    NormalizeMeaning(mac);
    JoinedOctets(PairBytes(Compact(mac)));
  }

  lemma {:induction false} JoinedOctets(bs: seq<byte>)
    requires bs != []
    ensures |MacText(bs)| == 3 * |bs| - 1
    ensures forall k :: 0 <= k < |bs| ==>
              && MacText(bs)[3 * k] == HEX_DIGITS[bs[k] as int / 16]
              && MacText(bs)[3 * k + 1] == HEX_DIGITS[bs[k] as int % 16]
              && (k < |bs| - 1 ==> MacText(bs)[3 * k + 2] == ':')
  {
    OctetDigits(bs[0]);
    if |bs| == 1 {
      assert OctetTexts(bs) == [OctetText(bs[0])];
    } else {
      var later := MacText(bs[1..]);
      JoinedOctets(bs[1..]);
      assert OctetTexts(bs)[1..] == OctetTexts(bs[1..]);
      assert MacText(bs) == OctetText(bs[0]) + ":" + later;
      forall k | 1 <= k < |bs|
        ensures MacText(bs)[3 * k] == later[3 * (k - 1)] && MacText(bs)[3 * k + 1] == later[3 * (k - 1) + 1]
        ensures k < |bs| - 1 ==> MacText(bs)[3 * k + 2] == later[3 * (k - 1) + 2]
        ensures bs[k] == bs[1..][k - 1]
      {
      }
    }
  }

  // ---------- frames ----------

  /** The type field: the characters of the type, then NULs. */
  predicate TypeFieldIs(field: Bytes, packetType: string) {
    && |packetType| <= 8 == |field|
    && (forall i :: 0 <= i < |packetType| ==> field[i] as int == packetType[i] as int)
    && (forall i :: |packetType| <= i < 8 ==> field[i] == 0)
  }

  /** A frame on the air: six address bytes, the type, the payload length with its low byte first,
      the payload, and carriage return and line feed. */
  lemma BuiltFrameOnWire(mac: string, packetType: string, payload: Bytes)
    requires BuildFrame(mac, packetType, payload).Ok?
    ensures var data := BuildFrame(mac, packetType, payload).value;
            && |data| == 18 + |payload|
            && Normalize(mac) == Ok(MacText(data[..6]))
            && TypeFieldIs(data[6..14], packetType)
            && data[14] as int == |payload| % 256 && data[15] as int == |payload| / 256
            && data[16..16 + |payload|] == payload
            && data[|data| - 2..] == [13, 10]
  {
    var data := BuildFrame(mac, packetType, payload).value;
    BuildFrameLayout(mac, packetType, payload);
    MacBytesIff(mac, data[..6]);
    assert data[14] == data[14..16][0] && data[15] == data[14..16][1];
  }

  /** The length announced by a header, and the limit of the assembler. */
  lemma AnnouncedLength(data: Bytes)
    requires |data| >= 16
    ensures FrameLen(data) == 18 + data[14] as int + 256 * data[15] as int
    ensures MIN_FRAME_LEN == 18 && MAX_FRAME_LEN == 4096
  {
  }

  /** Whether the bytes have the length they announce, with the end flag after it. */
  predicate Framed(data: Bytes) {
    |data| >= 18 && |data| == 18 + data[14] as int + 256 * data[15] as int && data[|data| - 2..] == [13, 10]
  }

  /** Exactly which bytes the parser accepts, and what it makes of them. */
  lemma ParsedOnWire(data: Bytes)
    ensures ParseFrame(data).Ok? <==>
            Framed(data) && ((TypeFieldIs(data[6..14], "RAWDATA") && |data| == 51) || TypeFieldIs(data[6..14], "ALERT"))
    ensures ParseFrame(data).Ok? ==>
              var f := ParseFrame(data).value;
              && f.mac == MacText(data[..6]) && f.macBytes == data[..6] && Normalize(f.mac) == Ok(f.mac)
              && f.payload == data[16..|data| - 2] && f.packetLength == |data| - 18
              && (f.parsed.RawData? <==> TypeFieldIs(data[6..14], "RAWDATA"))
              && (f.parsed.RawData? ==> ParseRawData(data[16..49]) == Ok(f.parsed.packet))
  {
    if Framed(data) {
      var payload := data[16..|data| - 2];
      NormalizeMacText(data[..6]);
      if TypeFieldIs(data[6..14], "RAWDATA") {
        TypeFieldDecodes(data[6..14], "RAWDATA");
      } else if TypeFieldIs(data[6..14], "ALERT") {
        TypeFieldDecodes(data[6..14], "ALERT");
      }
    }
    if ParseFrame(data).Ok? {
      ParsedFrameRebuilds(data);
      BuiltFrameOnWire(ParseFrame(data).value.mac, ParseFrame(data).value.packetType, ParseFrame(data).value.payload);
    }
  }

  lemma TypeFieldDecodes(field: Bytes, packetType: string)
    requires TypeFieldIs(field, packetType) && IsAsciiText(packetType) && TrimNul(packetType) == packetType
    ensures DecodePacketType(field) == Ok(packetType)
  {
    assert field == AsciiBytes(packetType) + Zeros(8 - |packetType|);
    DecodeBuiltType(packetType);
  }

  /** Which error the parser raises: of several faults the first in the order length, announced
      length, end flag, type text, type. */
  lemma ParseErrors(data: Bytes)
    ensures ParseFrame(data) == Err(TooShort) <==> |data| < 18
    ensures ParseFrame(data) == Err(LengthMismatch) <==>
            |data| >= 18 && |data| != 18 + data[14] as int + 256 * data[15] as int
    ensures ParseFrame(data) == Err(EndFlagMismatch) <==>
            && |data| >= 18 && |data| == 18 + data[14] as int + 256 * data[15] as int
            && data[|data| - 2..] != [13, 10]
    ensures ParseFrame(data) == Err(TypeNotAsciiText) <==>
            Framed(data) && exists i :: 6 <= i < 14 && data[i] >= 128
    ensures ParseFrame(data) == Err(RawDataLength) <==>
            Framed(data) && TypeFieldIs(data[6..14], "RAWDATA") && |data| != 51
  {
    if Framed(data) {
      TypeTextOrNot(data[6..14]);
      assert (exists i :: 0 <= i < 8 && data[6..14][i] >= 128) <==> exists i :: 6 <= i < 14 && data[i] >= 128 by {
        forall i | 6 <= i < 14 ensures data[i] == data[6..14][i - 6] {
        }
      }
      if TypeFieldIs(data[6..14], "RAWDATA") {
        TypeFieldDecodes(data[6..14], "RAWDATA");
      }
      if DecodePacketType(data[6..14]) == Ok("RAWDATA") {
        EncodeDecodedType(data[6..14]);
      }
    }
  }

  lemma TypeTextOrNot(field: Bytes)
    requires |field| == 8
    ensures DecodePacketType(field).Err? <==> exists i :: 0 <= i < 8 && field[i] >= 128
  {
    var text := StripNul(field);
    assert field == text + Zeros(8 - |text|);
    if exists i :: 0 <= i < 8 && field[i] >= 128 {
      var i :| 0 <= i < 8 && field[i] >= 128;
      assert i < |text| && text[i] == field[i];
    } else {
      forall i | 0 <= i < |text| ensures text[i] < 128 {
        assert text[i] == field[i];
      }
    }
  }

  // ---------- the RAWDATA payload ----------

  /** Every field of a RAWDATA payload: single bytes, 16-bit numbers with their low byte first, and
      sixteen signed bytes. */
  lemma RawDataOnWire(b: Bytes)
    requires |b| == 33
    ensures ParseRawData(b).Ok?
    ensures var p := ParseRawData(b).value;
            && p.flagHumanPresence == b[0] as int
            && p.detected == b[1] as int
            && p.flagEnv == b[2] as int + 256 * b[3] as int
            && p.temperatureRaw == b[4] as int + 256 * b[5] as int
            && p.humidity == b[6] as int + 256 * b[7] as int
            && p.iaq == b[8] as int + 256 * b[9] as int
            && p.eco2 == b[10] as int + 256 * b[11] as int
            && p.bvoc == b[12] as int + 256 * b[13] as int
            && p.accuracy == b[14] as int + 256 * b[15] as int
            && p.flagSound == b[16] as int
            && |p.sound| == 16
            && forall i :: 0 <= i < 16 ==>
                 p.sound[i] == if b[17 + i] < 128 then b[17 + i] as int else b[17 + i] as int - 256
  {
  }

  // ---------- commands ----------

  /** The words a node understands: two old spellings stand for the strong commands. */
  lemma CommandWords(command: string)
    ensures ValidateCommand(command).Ok? <==>
            command in {"strong_enter", "strong_exit", "weak_enter", "weak_exit", "default_action", "enter", "exit"}
    ensures ValidateCommand(command).Ok? ==>
              ValidateCommand(command).value
              == if command == "enter" then "strong_enter" else if command == "exit" then "strong_exit" else command
  {
  }

  /** A command on the air, byte by byte. */
  lemma CommandOnWire(mac: string, command: string)
    requires BuildCommandFrame(mac, command).Ok?
    ensures ValidateCommand(command).Ok?
    ensures var data, word := BuildCommandFrame(mac, command).value, ValidateCommand(command).value;
            && |data| == 18 + |word|
            && Normalize(mac) == Ok(MacText(data[..6]))
            && data[6..14] == [0x43, 0x4F, 0x4D, 0x4D, 0x41, 0x4E, 0x44, 0x00]
            && data[14] as int == |word| && data[15] == 0
            && (forall i :: 0 <= i < |word| ==> data[16 + i] as int == word[i] as int)
            && data[|data| - 2..] == [13, 10]
  {
    var data, word := BuildCommandFrame(mac, command).value, ValidateCommand(command).value;
    ValidCommandText(word);
    BuiltFrameOnWire(mac, "COMMAND", AsciiBytes(word));
    assert TypeFieldIs(data[6..14], "COMMAND");
    forall i | 0 <= i < |word| ensures data[16 + i] as int == word[i] as int {
      assert data[16 + i] == data[16..16 + |word|][i];
    }
  }
}
