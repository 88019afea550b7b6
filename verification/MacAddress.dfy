/** MAC address text: the canonical spelling, and its two-way link with the six raw bytes. */
module MacAddress {
  import opened Common

  const MAC_LEN := 6

  predicate IsHexDigit(c: char) {
    '0' <= c <= '9' || 'a' <= c <= 'f' || 'A' <= c <= 'F'
  }

  predicate IsHex(s: string) {
    forall i :: 0 <= i < |s| ==> IsHexDigit(s[i])
  }

  function Upper(c: char): char {
    if 'a' <= c <= 'z' then (c as int - 32) as char else c
  }

  function HexDigit(c: char): (d: int)
    requires IsHexDigit(c)
    ensures 0 <= d < 16
  {
    if c <= '9' then c as int - '0' as int
    else if c <= 'F' then c as int - 'A' as int + 10
    else c as int - 'a' as int + 10
  }

  /** The hexadecimal digits of `mac`, in order: separators of any kind are ignored. */
  function Compact(mac: string): (s: string)
    ensures IsHex(s)
  {
    if mac == "" then ""
    else if IsHexDigit(mac[0]) then [mac[0]] + Compact(mac[1..])
    else Compact(mac[1..])
  }

  /** Consecutive two-character groups, in upper case. */
  function Pairs(compact: string): (parts: seq<string>)
    requires |compact| % 2 == 0
  {
    if compact == "" then []
    else [[Upper(compact[0]), Upper(compact[1])]] + Pairs(compact[2..])
  }

  function Join(parts: seq<string>): string {
    if |parts| == 0 then ""
    else if |parts| == 1 then parts[0]
    else parts[0] + ":" + Join(parts[1..])
  }

  function Split(s: string): (parts: seq<string>)
    ensures parts != []
  {
    if s == "" then [""]
    else
      var rest := Split(s[1..]);
      if s[0] == ':' then [""] + rest
      else [[s[0]] + rest[0]] + rest[1..]
  }

  /** The canonical spelling of a MAC address, as `normalize_mac` computes it. */
  function Normalize(mac: string): Result<string, ValueError> {
    var compact := Compact(mac);
    if |compact| != MAC_LEN * 2 then Err(InvalidMac)
    else Ok(Join(Pairs(compact)))
  }

  /** `int(part, 16)` for a part made of hexadecimal digits. */
  function HexInt(part: string): (v: nat)
    requires IsHex(part)
    ensures |part| <= 1 ==> v < 16
    ensures |part| == 2 ==> v < 256
  {
    if part == "" then 0
    else
      var n := |part| - 1;
      HexInt(part[..n]) * 16 + HexDigit(part[n])
  }

  predicate IsOctetText(part: string) {
    |part| == 2 && IsHex(part)
  }

  function HexBytes(parts: seq<string>): (bs: seq<byte>)
    requires forall i :: 0 <= i < |parts| ==> IsOctetText(parts[i])
  {
    seq(|parts|, i requires 0 <= i < |parts| && IsOctetText(parts[i]) => HexInt(parts[i]) as byte)
  }

  function MacToBytes(mac: string): Result<seq<byte>, ValueError> {
    var normalized :- Normalize(mac);
    NormalizedParts(mac);
    Ok(HexBytes(Split(normalized)))
  }

  function HexChar(d: int): (c: char)
    requires 0 <= d < 16
    ensures IsHexDigit(c) && HexDigit(c) == d && Upper(c) == c
  {
    if d < 10 then ('0' as int + d) as char else ('A' as int + d - 10) as char
  }

  /** Two upper-case hexadecimal digits, the `02X` format. */
  function OctetText(b: byte): (s: string)
    ensures IsOctetText(s)
  {
    [HexChar(b as int / 16), HexChar(b as int % 16)]
  }

  function OctetTexts(bs: seq<byte>): seq<string> {
    seq(|bs|, i requires 0 <= i < |bs| => OctetText(bs[i]))
  }

  /** The text the frame parser gives to the six MAC bytes of a frame. */
  function MacText(bs: seq<byte>): string {
    Join(OctetTexts(bs))
  }

  // ---------- Split inverts Join, Compact inverts the inserted separators ----------

  lemma {:induction false} SplitPlain(s: string, tail: string)
    requires forall i :: 0 <= i < |s| ==> s[i] != ':'
    ensures Split(s) == [s]
    ensures Split(s + ":" + tail) == [s] + Split(tail)
  {
    if s == "" {
      assert s + ":" + tail == ":" + tail;
    } else {
      SplitPlain(s[1..], tail);
      assert (s + ":" + tail)[1..] == s[1..] + ":" + tail;
      assert [s[0]] + s[1..] == s;
    }
  }

  lemma {:induction false} SplitJoin(parts: seq<string>)
    requires parts != []
    requires forall i :: 0 <= i < |parts| ==> IsOctetText(parts[i])
    ensures Split(Join(parts)) == parts
  {
    if |parts| == 1 {
      SplitPlain(parts[0], "");
    } else {
      SplitJoin(parts[1..]);
      SplitPlain(parts[0], Join(parts[1..]));
    }
  }

  lemma {:induction false} CompactConcat(a: string, b: string)
    ensures Compact(a + b) == Compact(a) + Compact(b)
  {
    if a == "" {
      assert a + b == b;
    } else {
      CompactConcat(a[1..], b);
      assert (a + b)[1..] == a[1..] + b;
    }
  }

  lemma {:induction false} CompactHex(s: string)
    requires IsHex(s)
    ensures Compact(s) == s
  {
    if s == "" {
    } else {
      CompactHex(s[1..]);
    }
  }

  lemma {:induction false} CompactJoin(parts: seq<string>)
    requires forall i :: 0 <= i < |parts| ==> IsHex(parts[i])
    ensures Compact(Join(parts)) == Flatten(parts)
  {
    if |parts| == 1 {
      CompactHex(parts[0]);
      assert parts[1..] == [];
    } else if |parts| > 1 {
      CompactJoin(parts[1..]);
      CompactConcat(parts[0] + ":", Join(parts[1..]));
      CompactConcat(parts[0], ":");
      CompactHex(parts[0]);
      assert Compact(":") == "";
    }
  }

  function PairByte(c: char, d: char): byte
    requires IsHexDigit(c) && IsHexDigit(d)
  {
    (HexDigit(c) * 16 + HexDigit(d)) as byte
  }

  /** The bytes spelled by an even run of hexadecimal digits. */
  function PairBytes(compact: string): (bs: seq<byte>)
    requires IsHex(compact) && |compact| % 2 == 0
    ensures |bs| == |compact| / 2
  {
    if compact == "" then []
    else [PairByte(compact[0], compact[1])] + PairBytes(compact[2..])
  }

  lemma HexCharOfDigit(c: char)
    requires IsHexDigit(c)
    ensures HexChar(HexDigit(c)) == Upper(c)
  {
  }

  lemma OctetTextOfPair(c: char, d: char)
    requires IsHexDigit(c) && IsHexDigit(d)
    ensures OctetText(PairByte(c, d)) == [Upper(c), Upper(d)]
  {
    HexCharOfDigit(c);
    HexCharOfDigit(d);
  }

  lemma OctetTextsCons(b: byte, bs: seq<byte>)
    ensures OctetTexts([b] + bs) == [OctetText(b)] + OctetTexts(bs)
  {
  }

  lemma FirstPair(compact: string)
    requires IsHex(compact) && |compact| % 2 == 0 && compact != ""
    ensures var bs := PairBytes(compact);
            bs == [bs[0]] + PairBytes(compact[2..]) && OctetText(bs[0]) == [Upper(compact[0]), Upper(compact[1])]
  {
    OctetTextOfPair(compact[0], compact[1]);
  }

  lemma {:induction false} PairsAreOctetTexts(compact: string)
    requires IsHex(compact) && |compact| % 2 == 0
    ensures Pairs(compact) == OctetTexts(PairBytes(compact))
  {
    if compact == "" {
    } else {
      PairsAreOctetTexts(compact[2..]);
      FirstPair(compact);
      OctetTextsCons(PairBytes(compact)[0], PairBytes(compact[2..]));
    }
  }

  lemma {:induction false} PairBytesOfTexts(bs: seq<byte>)
    ensures var flat := Flatten(OctetTexts(bs));
            IsHex(flat) && |flat| == 2 * |bs| && PairBytes(flat) == bs
  {
    if bs == [] {
    } else {
      PairBytesOfTexts(bs[1..]);
      assert OctetTexts(bs)[1..] == OctetTexts(bs[1..]);
      var flat := Flatten(OctetTexts(bs));
      assert flat == OctetText(bs[0]) + Flatten(OctetTexts(bs[1..]));
      assert flat[2..] == Flatten(OctetTexts(bs[1..]));
    }
  }

  lemma HexIntOctet(b: byte)
    ensures HexInt(OctetText(b)) == b as int
  {
    var t := OctetText(b);
    assert t[..1][..0] == "";
    assert HexInt(t[..1]) == HexDigit(t[0]);
  }

  // ---------- main results ----------

  /** Normalizing succeeds exactly when twelve hexadecimal digits are present, and then
      spells the six bytes those digits denote. */
  lemma NormalizeMeaning(mac: string)
    ensures Normalize(mac).Ok? <==> |Compact(mac)| == 12
    ensures Normalize(mac).Ok? ==>
              Normalize(mac).value == MacText(PairBytes(Compact(mac)))
  {
    if |Compact(mac)| == 12 {
      PairsAreOctetTexts(Compact(mac));
    }
  }

  lemma NormalizedParts(mac: string)
    requires Normalize(mac).Ok?
    ensures var bs := PairBytes(Compact(mac));
            |bs| == 6 && Split(Normalize(mac).value) == OctetTexts(bs)
  {
    NormalizeMeaning(mac);
    SplitJoin(OctetTexts(PairBytes(Compact(mac))));
  }

  /** The text of any six bytes is already canonical. */
  lemma NormalizeMacText(bs: seq<byte>)
    requires |bs| == MAC_LEN
    ensures Compact(MacText(bs)) == Flatten(OctetTexts(bs))
    ensures Normalize(MacText(bs)) == Ok(MacText(bs))
  {
    CompactJoin(OctetTexts(bs));
    PairBytesOfTexts(bs);
    NormalizeMeaning(MacText(bs));
  }

  lemma NormalizeIdempotent(mac: string)
    requires Normalize(mac).Ok?
    ensures Normalize(Normalize(mac).value) == Normalize(mac)
  {
    NormalizeMeaning(mac);
    NormalizeMacText(PairBytes(Compact(mac)));
  }

  /** `mac_to_bytes` and the parser's MAC text are inverse to each other: a spelling denotes
      the bytes `bs` exactly when its canonical form is the text of `bs`. */
  lemma MacBytesIff(mac: string, bs: seq<byte>)
    ensures MacToBytes(mac) == Ok(bs) <==> |bs| == MAC_LEN && Normalize(mac) == Ok(MacText(bs))
  {
    if Normalize(mac).Ok? {
      var own := PairBytes(Compact(mac));
      NormalizeMeaning(mac);
      NormalizedParts(mac);
      forall i | 0 <= i < 6 ensures HexInt(OctetTexts(own)[i]) == own[i] as int {
        HexIntOctet(own[i]);
      }
      assert HexBytes(OctetTexts(own)) == own;
      if |bs| == MAC_LEN && MacText(bs) == MacText(own) {
        NormalizeMacText(bs);
        NormalizeMacText(own);
        PairBytesOfTexts(bs);
        PairBytesOfTexts(own);
      }
    }
  }
}
