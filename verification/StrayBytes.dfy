/** What stray bytes in front of a RAWDATA stream do to the assembler. */
module StrayBytes {
  import opened Common
  import opened Codec
  import opened CodecProofs
  import opened Assembler
  import opened AssemblerProofs

  const RAWDATA_TYPE: Bytes := [0x52, 0x41, 0x57, 0x44, 0x41, 0x54, 0x41, 0x00]
  const RAWDATA_FRAME_LEN := MIN_FRAME_LEN + RAWDATA_PAYLOAD_LEN

  /** The header fields every RAWDATA frame shares. */
  predicate RawDataFrame(f: Bytes) {
    |f| == RAWDATA_FRAME_LEN && f[6..14] == RAWDATA_TYPE && f[14] == 33 && f[15] == 0
  }

  ghost predicate RawDataFrames(frames: seq<Bytes>) {
    forall i :: 0 <= i < |frames| ==> RawDataFrame(frames[i])
  }

  /** Limits, the default among them, for which the results below hold. */
  predicate UsualLimit(limit: int) {
    MIN_FRAME_LEN + 65 <= limit < MIN_FRAME_LEN + 33 * 256
  }

  /** `build_frame` makes such frames out of every 33-byte RAWDATA payload. */
  lemma BuiltRawDataFrame(mac: string, payload: Bytes)
    requires |payload| == RAWDATA_PAYLOAD_LEN && BuildFrame(mac, "RAWDATA", payload).Ok?
    ensures RawDataFrame(BuildFrame(mac, "RAWDATA", payload).value)
  {
    var data := BuildFrame(mac, "RAWDATA", payload).value;
    BuildFrameLayout(mac, "RAWDATA", payload);
    assert data[14] == data[14..16][0] && data[15] == data[14..16][1];
    assert data[6..14] == AsciiBytes("RAWDATA") + Zeros(1);
  }

  /** With `k` stray bytes in front, the length field read lies `k` bytes too early, inside
      the packet type: only for one stray byte or for two does that matter. */
  lemma MisreadLength(stray: Bytes, f: Bytes, after: Bytes)
    requires RawDataFrame(f) && 1 <= |stray| <= 9
    ensures var s := stray + f + after;
            match |stray|
            case 1 => FrameLen(s) == MIN_FRAME_LEN + 33 * 256
            case 2 => FrameLen(s) == MIN_FRAME_LEN + 65
            case _ => FrameLen(s) >= MIN_FRAME_LEN + 65 * 256
  {
    var s, k := stray + f + after, |stray|;
    assert s[14] == f[14 - k] && s[15] == f[15 - k];
    forall i | 6 <= i < 14 ensures f[i] == RAWDATA_TYPE[i - 6] {
      assert f[i] == f[6..14][i - 6];
    }
  }

  /** A stray prefix of one byte, or of three to nine, loses its first byte. */
  lemma FirstStrayDropped(limit: int, stray: Bytes, f: Bytes, after: Bytes)
    requires UsualLimit(limit) && RawDataFrame(f) && 1 <= |stray| <= 9 && |stray| != 2
    ensures Scan(limit, stray + f + after)
         == Scanned([Dropped(stray[0])], []).Then(Scan(limit, stray[1..] + f + after))
  {
    var s := stray + f + after;
    MisreadLength(stray, f, after);
    assert s[1..] == stray[1..] + f + after;
    ScanStep(limit, Dropped(stray[0]), s);
  }

  // ---------- recovery in general ----------

  /** Whether the assembler drops the byte at the front of `s`. */
  predicate Impossible(limit: int, s: Bytes) {
    |s| >= MIN_FRAME_LEN && FrameLen(s) > limit
  }

  /** An impossible length is announced at every one of the stray bytes. */
  predicate AllImpossible(limit: int, stray: Bytes, stream: Bytes) {
    forall i :: 0 <= i < |stray| ==> Impossible(limit, stray[i..] + stream)
  }

  function AllDropped(stray: Bytes): (pieces: seq<Piece>)
    ensures |pieces| == |stray|
  {
    seq(|stray|, i requires 0 <= i < |stray| => Dropped(stray[i]))
  }

  /** What resynchronisation should give: all stray bytes dropped, all frames emitted. */
  function Recovered(stray: Bytes, frames: seq<Bytes>): Scanned {
    Scanned(AllDropped(stray) + AllEmitted(frames), [])
  }

  lemma AllImpossibleTail(limit: int, stray: Bytes, stream: Bytes)
    requires stray != []
    ensures AllImpossible(limit, stray, stream) <==>
            Impossible(limit, stray + stream) && AllImpossible(limit, stray[1..], stream)
  {
    assert stray[0..] == stray;
    forall i | 0 <= i < |stray[1..]| ensures stray[1..][i..] == stray[i + 1..] {
    }
    if AllImpossible(limit, stray, stream) {
      assert Impossible(limit, stray[0..] + stream);
      forall i | 0 <= i < |stray[1..]| ensures Impossible(limit, stray[1..][i..] + stream) {
        assert Impossible(limit, stray[i + 1..] + stream);
      }
    }
    if Impossible(limit, stray + stream) && AllImpossible(limit, stray[1..], stream) {
      forall i | 0 <= i < |stray| ensures Impossible(limit, stray[i..] + stream) {
        if i > 0 {
          assert Impossible(limit, stray[1..][i - 1..] + stream);
        }
      }
    }
  }

  lemma RecoveredCons(stray: Bytes, frames: seq<Bytes>)
    requires stray != []
    ensures Recovered(stray, frames) == Scanned([Dropped(stray[0])], []).Then(Recovered(stray[1..], frames))
  {
    assert AllDropped(stray) == [Dropped(stray[0])] + AllDropped(stray[1..]);
    Assoc([Dropped(stray[0])], AllDropped(stray[1..]), AllEmitted(frames));
  }

  lemma {:induction false} RecoveryOfScan(limit: int, stray: Bytes, frames: seq<Bytes>)
    requires WholeFrames(limit, frames)
    ensures Scan(limit, stray + Flatten(frames)) == Recovered(stray, frames)
            <==> AllImpossible(limit, stray, Flatten(frames))
    decreases |stray|
  {
    var s := stray + Flatten(frames);
    if stray == [] {
      WholeThenPartial(limit, frames, []);
      assert s == Flatten(frames) + [];
      assert AllDropped(stray) + AllEmitted(frames) == AllEmitted(frames);
    } else {
      var drop := Dropped(stray[0]);
      assert s[1..] == stray[1..] + Flatten(frames) && s[..1] == [stray[0]];
      RecoveryOfScan(limit, stray[1..], frames);
      AllImpossibleTail(limit, stray, Flatten(frames));
      RecoveredCons(stray, frames);
      FirstPiece(limit, s);
      if Impossible(limit, s) {
        ScanStep(limit, drop, s);
        SameAfterFirst(drop, Scan(limit, s[1..]), Recovered(stray[1..], frames));
      } else {
        assert Recovered(stray, frames).pieces[0] == drop;
      }
    }
  }

  lemma SameAfterFirst(p: Piece, a: Scanned, b: Scanned)
    ensures Scanned([p], []).Then(a) == Scanned([p], []).Then(b) <==> a == b
  {
    assert ([p] + a.pieces)[1..] == a.pieces && ([p] + b.pieces)[1..] == b.pieces;
  }

  /** Resynchronisation, exactly and in general: any number of stray bytes before any stream of
      whole frames is dropped and every frame emitted, under any chunking, if and only if an
      impossible length is announced at each of the stray bytes. */
  lemma RecoveryIff(limit: int, stray: Bytes, frames: seq<Bytes>, chunks: seq<Bytes>)
    requires WholeFrames(limit, frames) && Flatten(chunks) == stray + Flatten(frames)
    ensures PushAll(limit, [], chunks) == Recovered(stray, frames)
            <==> AllImpossible(limit, stray, Flatten(frames))
    ensures PushAll(limit, [], chunks) == Recovered(stray, frames) ==>
              Frames(PushAll(limit, [], chunks).pieces) == frames
  {
    ChunkInvariance(limit, [], chunks);
    assert [] + Flatten(chunks) == Flatten(chunks);
    RecoveryOfScan(limit, stray, frames);
    FramesOfRecovered(stray, frames);
  }

  lemma {:induction false} FramesOfRecovered(stray: Bytes, frames: seq<Bytes>)
    ensures Frames(Recovered(stray, frames).pieces) == frames
    decreases |stray|
  {
    if stray == [] {
      FramesAllEmitted(frames);
      assert AllDropped(stray) + AllEmitted(frames) == AllEmitted(frames);
    } else {
      FramesOfRecovered(stray[1..], frames);
      RecoveredCons(stray, frames);
      assert Recovered(stray, frames).pieces[1..] == Recovered(stray[1..], frames).pieces;
    }
  }

  // ---------- recovery before RAWDATA frames ----------

  lemma RawDataFramesWhole(limit: int, frames: seq<Bytes>)
    requires UsualLimit(limit) && RawDataFrames(frames)
    ensures WholeFrames(limit, frames)
  {
    forall i | 0 <= i < |frames| ensures WholeFrame(limit, frames[i]) {
      assert RawDataFrame(frames[i]);
    }
  }

  /** Single-byte recovery: one arbitrary byte before a non-empty RAWDATA stream is dropped and
      every frame still arrives, under any chunking. */
  lemma OneStrayByte(limit: int, b: byte, frames: seq<Bytes>, chunks: seq<Bytes>)
    requires UsualLimit(limit) && RawDataFrames(frames) && frames != []
    requires Flatten(chunks) == [b] + Flatten(frames)
    ensures PushAll(limit, [], chunks) == Scanned([Dropped(b)] + AllEmitted(frames), [])
    ensures Frames(PushAll(limit, [], chunks).pieces) == frames
  {
    var stream := Flatten(frames);
    assert RawDataFrame(frames[0]);
    MisreadLength([b], frames[0], Flatten(frames[1..]));
    assert [b] + stream == [b] + frames[0] + Flatten(frames[1..]);
    assert [b][0..] == [b];
    assert Impossible(limit, [b][0..] + stream);
    RawDataFramesWhole(limit, frames);
    RecoveryIff(limit, [b], frames, chunks);
    assert AllDropped([b]) == [Dropped(b)];
  }

  /** Two stray bytes are never dropped: an 83-byte frame is announced, which swallows the
      first real frame, and whatever fills it up, the parser refuses it. */
  lemma TwoStrayBytes(limit: int, stray: Bytes, f: Bytes, after: Bytes)
    requires UsualLimit(limit) && RawDataFrame(f) && |stray| == 2
    ensures var s := stray + f + after;
            if |s| < 83 then Scan(limit, s) == Scanned([], s)
            else && Scan(limit, s) == Scanned([Emitted(s[..83])], []).Then(Scan(limit, s[83..]))
                 && ParseFrame(s[..83]).Err?
  {
    var s := stray + f + after;
    MisreadLength(stray, f, after);
    if |s| < 83 {
      SettledScan(limit, s);
    } else {
      ScanStep(limit, Emitted(s[..83]), s);
      MisframedRejected(stray, f, s[..83]);
    }
  }

  lemma MisframedRejected(stray: Bytes, f: Bytes, data: Bytes)
    requires RawDataFrame(f) && |stray| == 2 && |data| == 83 && stray + f <= data
    ensures ParseFrame(data).Err?
  {
    assert f[6] == f[6..14][0] && f[13] == f[6..14][7];
    assert data[8] == f[6] == 0x52;
    assert data[6..14][2] == data[8];
    if ParseFrame(data).Ok? {
      var parsed := ParseFrame(data).value;
      ParsedFrameRebuilds(data);
      BuildFrameLayout(parsed.mac, parsed.packetType, parsed.payload);
    }
  }

  /** Three to nine stray bytes are dropped one by one until two are left. */
  lemma {:induction false} StrayReducesToTwo(limit: int, stray: Bytes, f: Bytes, after: Bytes)
    requires UsualLimit(limit) && RawDataFrame(f) && 2 <= |stray| <= 9
    ensures Frames(Scan(limit, stray + f + after).pieces)
         == Frames(Scan(limit, stray[|stray| - 2..] + f + after).pieces)
    decreases |stray|
  {
    if |stray| == 2 {
      assert stray[0..] == stray;
    } else {
      FirstStrayDropped(limit, stray, f, after);
      StrayReducesToTwo(limit, stray[1..], f, after);
      assert stray[1..][|stray| - 3..] == stray[|stray| - 2..];
    }
  }

  /** Resynchronisation is exact: any number of stray bytes in front of a RAWDATA stream is
      dropped and every frame emitted if and only if at most one byte is stray. Of up to nine,
      already the frames alone arrive only then. */
  lemma StrayRecoveryIff(limit: int, stray: Bytes, frames: seq<Bytes>, chunks: seq<Bytes>)
    requires UsualLimit(limit) && RawDataFrames(frames) && frames != []
    requires Flatten(chunks) == stray + Flatten(frames)
    ensures PushAll(limit, [], chunks) == Recovered(stray, frames) <==> |stray| <= 1
    ensures |stray| <= 9 ==> (Frames(PushAll(limit, [], chunks).pieces) == frames <==> |stray| <= 1)
    ensures UsualLimit(MAX_FRAME_LEN)
  {
    var f, after := frames[0], Flatten(frames[1..]);
    assert RawDataFrame(f);
    RawDataFramesWhole(limit, frames);
    RecoveryIff(limit, stray, frames, chunks);
    if |stray| == 1 {
      assert stray == [stray[0]];
      OneStrayByte(limit, stray[0], frames, chunks);
      assert AllDropped(stray) == [Dropped(stray[0])];
    } else if |stray| >= 2 {
      LastTwoAreKept(limit, stray, f, after);
      assert stray + Flatten(frames) == stray + f + after;
      if |stray| <= 9 {
        ChunkInvariance(limit, [], chunks);
        assert [] + Flatten(chunks) == stray + f + after;
        StrayReducesToTwo(limit, stray, f, after);
        TwoStrayBytes(limit, stray[|stray| - 2..], f, after);
      }
    }
  }

  /** The last two of any stray bytes announce a frame of possible length. */
  lemma LastTwoAreKept(limit: int, stray: Bytes, f: Bytes, after: Bytes)
    requires UsualLimit(limit) && RawDataFrame(f) && |stray| >= 2
    ensures !AllImpossible(limit, stray, f + after)
  {
    var last := stray[|stray| - 2..];
    MisreadLength(last, f, after);
    assert last + (f + after) == last + f + after;
    assert !Impossible(limit, last + (f + after));
  }

  /** Why the frames alone tell less of longer stray prefixes: 17 bytes that open a frame made of
      them three times are taken for its beginning, and what stays in the buffer is its end. */
  lemma RepeatedHeaderHidesStray(limit: int, p: Bytes)
    requires UsualLimit(limit) && |p| == 17 && RawDataFrame(p + p + p)
    ensures Scan(limit, p + (p + p + p)) == Scanned([Emitted(p + p + p)], p)
  {
    var f, s := p + p + p, p + (p + p + p);
    assert s == f + p && s[..51] == f && s[51..] == p;
    assert s[14] == f[14] && s[15] == f[15];
    ScanStep(limit, Emitted(f), s);
    SettledScan(limit, p);
  }
}
