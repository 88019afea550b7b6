/** The streaming frame assembler: a mutable buffer cut into frames, against a specification
    over the whole byte stream. */
module Assembler {
  import opened Common
  import opened Codec

  const MAX_FRAME_LEN := 4096

  /** What one turn of the assembler's loop takes off the front of the buffer. */
  datatype Piece = Dropped(b: byte) | Emitted(data: Bytes)

  /** Pieces cut off a stream, and the bytes that remain. */
  datatype Scanned = Scanned(pieces: seq<Piece>, rest: Bytes) {
    /** These pieces, then a cut of what remained. */
    function Then(tail: Scanned): Scanned {
      Scanned(pieces + tail.pieces, tail.rest)
    }
  }

  /** The left-to-right cut of a byte stream under a frame length limit. */
  function Scan(limit: int, s: Bytes): Scanned
    decreases |s|
  {
    if |s| < MIN_FRAME_LEN then Scanned([], s)
    else
      var n := FrameLen(s);
      if n > limit then
        Scanned([Dropped(s[0])], s[1..]).Then(Scan(limit, s[1..]))
      else if |s| < n then Scanned([], s)
      else
        Scanned([Emitted(s[..n])], s[n..]).Then(Scan(limit, s[n..]))
  }

  /** The frames among the pieces, in order. */
  function Frames(pieces: seq<Piece>): seq<Bytes> {
    if pieces == [] then []
    else if pieces[0].Emitted? then [pieces[0].data] + Frames(pieces[1..])
    else Frames(pieces[1..])
  }

  /** A buffer on which the loop has nothing left to do. */
  predicate Settled(limit: int, buffer: Bytes) {
    |buffer| < MIN_FRAME_LEN || |buffer| < FrameLen(buffer) <= limit
  }

  /** A byte dropped, or a frame cut off, and then the rest of the stream. */
  lemma ScanFront(limit: int, s: Bytes)
    requires |s| >= MIN_FRAME_LEN
    ensures FrameLen(s) > limit ==>
              && Scan(limit, s).rest == Scan(limit, s[1..]).rest
              && Frames(Scan(limit, s).pieces) == Frames(Scan(limit, s[1..]).pieces)
    ensures FrameLen(s) <= limit && FrameLen(s) <= |s| ==>
              && Scan(limit, s).rest == Scan(limit, s[FrameLen(s)..]).rest
              && Frames(Scan(limit, s).pieces)
                 == [s[..FrameLen(s)]] + Frames(Scan(limit, s[FrameLen(s)..]).pieces)
  {
    var n := if FrameLen(s) > limit then 1 else FrameLen(s);
    if n <= |s| {
      assert Scan(limit, s).pieces[1..] == Scan(limit, s[n..]).pieces;
    }
  }

  class FrameAssembler {
    const maxFrameLen: int
    var buffer: Bytes

    ghost predicate Valid()
      reads this
    {
      Settled(maxFrameLen, buffer)
    }

    constructor (maxFrameLen: int := MAX_FRAME_LEN)
      ensures Valid() && buffer == [] && this.maxFrameLen == maxFrameLen
    {
      this.maxFrameLen := maxFrameLen;
      buffer := [];
    }

    /** Cuts everything received so far exactly as the stream specification does. */
    method Push(chunk: Bytes) returns (frames: seq<Bytes>)
      modifies this`buffer
      ensures var whole := Scan(maxFrameLen, old(buffer) + chunk);
              frames == Frames(whole.pieces) && buffer == whole.rest
      ensures Valid()
    {
      buffer := buffer + chunk;
      frames := [];
      ghost var whole := Scan(maxFrameLen, buffer);
      while |buffer| >= MIN_FRAME_LEN
        invariant whole.rest == Scan(maxFrameLen, buffer).rest
        invariant Frames(whole.pieces) == frames + Frames(Scan(maxFrameLen, buffer).pieces)
        decreases |buffer|
      {
        var frameLen := FrameLen(buffer);
        ScanFront(maxFrameLen, buffer);
        if frameLen > maxFrameLen {
          buffer := buffer[1..];
          continue;
        }
        if |buffer| < frameLen {
          break;
        }
        ghost var later := Frames(Scan(maxFrameLen, buffer[frameLen..]).pieces);
        Assoc(frames, [buffer[..frameLen]], later);
        frames := frames + [buffer[..frameLen]];
        buffer := buffer[frameLen..];
      }
    }

    method Clear()
      modifies this`buffer
      ensures buffer == [] && Valid()
    {
      buffer := [];
    }
  }
}

/** Properties of the stream specification, and hence of every run of the assembler. */
module AssemblerProofs {
  import opened Common
  import opened MacAddress
  import opened Codec
  import opened CodecProofs
  import opened Assembler

  // ---------- an independent description of a correct cut ----------

  function PieceBytes(p: Piece): Bytes {
    match p
    case Dropped(b) => [b]
    case Emitted(data) => data
  }

  /** The stream that a list of pieces and a remainder came from. */
  function Unscan(pieces: seq<Piece>, rest: Bytes): Bytes {
    if pieces == [] then rest else PieceBytes(pieces[0]) + Unscan(pieces[1..], rest)
  }

  /** Whether `p` is the right thing to cut off when `s` is what is left of the stream: one
      byte where an impossible length is announced, else the announced length in full. */
  predicate RightPiece(limit: int, p: Piece, s: Bytes) {
    && |s| >= MIN_FRAME_LEN
    && PieceBytes(p) <= s
    && (if FrameLen(s) > limit then p.Dropped? else p.Emitted? && |p.data| == FrameLen(s))
  }

  /** A cut of `s` that is right at every piece and leaves only an incomplete frame. */
  ghost predicate RightCut(limit: int, s: Bytes, cut: Scanned) {
    && Unscan(cut.pieces, cut.rest) == s
    && (forall i :: 0 <= i < |cut.pieces| ==>
          RightPiece(limit, cut.pieces[i], Unscan(cut.pieces[i..], cut.rest)))
    && Settled(limit, cut.rest)
  }

  lemma {:induction false} ScanIsRight(limit: int, s: Bytes)
    ensures RightCut(limit, s, Scan(limit, s))
    decreases |s|
  {
    if |s| >= MIN_FRAME_LEN && (FrameLen(s) > limit || FrameLen(s) <= |s|) {
      var cut := Scan(limit, s);
      var n := |PieceBytes(cut.pieces[0])|;
      ScanIsRight(limit, s[n..]);
      assert cut.pieces[1..] == Scan(limit, s[n..]).pieces;
      assert s == s[..n] + s[n..];
      forall i | 0 <= i < |cut.pieces|
        ensures RightPiece(limit, cut.pieces[i], Unscan(cut.pieces[i..], cut.rest))
      {
        if i == 0 {
          assert cut.pieces[0..] == cut.pieces;
        } else {
          assert cut.pieces[i..] == cut.pieces[1..][i - 1..];
        }
      }
    }
  }

  lemma RightCutTail(limit: int, s: Bytes, cut: Scanned)
    requires RightCut(limit, s, cut) && cut.pieces != []
    ensures RightPiece(limit, cut.pieces[0], s)
    ensures RightCut(limit, s[|PieceBytes(cut.pieces[0])|..], Scanned(cut.pieces[1..], cut.rest))
  {
    assert cut.pieces[0..] == cut.pieces;
    var tail := cut.pieces[1..];
    forall i | 0 <= i < |tail| ensures RightPiece(limit, tail[i], Unscan(tail[i..], cut.rest)) {
      assert tail[i..] == cut.pieces[i + 1..];
      assert RightPiece(limit, cut.pieces[i + 1], Unscan(cut.pieces[i + 1..], cut.rest));
    }
  }

  lemma {:induction false} RightIsScan(limit: int, s: Bytes, cut: Scanned)
    requires RightCut(limit, s, cut)
    ensures cut == Scan(limit, s)
    decreases |cut.pieces|
  {
    if cut.pieces == [] {
      SettledScan(limit, s);
    } else {
      var p, tail := cut.pieces[0], Scanned(cut.pieces[1..], cut.rest);
      var after := s[|PieceBytes(p)|..];
      RightCutTail(limit, s, cut);
      RightIsScan(limit, after, tail);
      ScanStep(limit, p, s);
      assert cut == Scanned([p], after).Then(tail);
    }
  }

  /** The scan is the one and only right cut of the stream. */
  lemma ScanIffRightCut(limit: int, s: Bytes, cut: Scanned)
    ensures RightCut(limit, s, cut) <==> cut == Scan(limit, s)
  {
    ScanIsRight(limit, s);
    if RightCut(limit, s, cut) {
      RightIsScan(limit, s, cut);
    }
  }

  // ---------- runs of pushes ----------

  /** Pushing chunks one after the other: all pieces in order, and the last buffer. */
  function PushAll(limit: int, buffer: Bytes, chunks: seq<Bytes>): Scanned
    decreases |chunks|
  {
    if chunks == [] then Scanned([], buffer)
    else
      var first := Scan(limit, buffer + chunks[0]);
      first.Then(PushAll(limit, first.rest, chunks[1..]))
  }

  datatype Call = Push(chunk: Bytes) | Clear

  /** The buffer after any history of calls on a new assembler. */
  function BufferAfter(limit: int, calls: seq<Call>): Bytes {
    if calls == [] then []
    else
      var last := |calls| - 1;
      match calls[last]
      case Push(chunk) => Scan(limit, BufferAfter(limit, calls[..last]) + chunk).rest
      case Clear => []
  }

  /** After each push the buffer is settled, hence shorter than max(18, limit). */
  lemma ReachableBuffer(limit: int, calls: seq<Call>)
    ensures Settled(limit, BufferAfter(limit, calls))
    ensures |BufferAfter(limit, calls)| < if limit > MIN_FRAME_LEN then limit else MIN_FRAME_LEN
  {
    if calls != [] {
      var last := |calls| - 1;
      if calls[last].Push? {
        ScanIsRight(limit, BufferAfter(limit, calls[..last]) + calls[last].chunk);
      }
    }
  }

  /** One turn of the loop, whatever the piece. */
  lemma ScanStep(limit: int, p: Piece, s: Bytes)
    requires RightPiece(limit, p, s)
    ensures var after := s[|PieceBytes(p)|..];
            Scan(limit, s) == Scanned([p], after).Then(Scan(limit, after))
  {
    assert PieceBytes(p) == s[..|PieceBytes(p)|];
  }

  lemma FirstPiece(limit: int, s: Bytes)
    ensures var pieces := Scan(limit, s).pieces;
            if pieces == [] then Scan(limit, s).rest == s else RightPiece(limit, pieces[0], s)
  {
  }

  lemma RightPieceExtends(limit: int, p: Piece, s: Bytes, t: Bytes)
    requires RightPiece(limit, p, s)
    ensures RightPiece(limit, p, s + t)
    ensures (s + t)[|PieceBytes(p)|..] == s[|PieceBytes(p)|..] + t
  {
    assert FrameLen(s + t) == FrameLen(s);
  }

  lemma ThenAssociates(a: Scanned, b: Scanned, c: Scanned)
    ensures a.Then(b).Then(c) == a.Then(b.Then(c))
  {
  }

  /** More bytes never change a piece that was already cut. */
  lemma {:induction false} ScanAppend(limit: int, s: Bytes, t: Bytes)
    ensures Scan(limit, s + t) == Scan(limit, s).Then(Scan(limit, Scan(limit, s).rest + t))
    decreases |s|
  {
    FirstPiece(limit, s);
    var first := Scan(limit, s);
    if first.pieces == [] {
    } else {
      var p := first.pieces[0];
      var after := s[|PieceBytes(p)|..];
      ScanStep(limit, p, s);
      RightPieceExtends(limit, p, s, t);
      ScanStep(limit, p, s + t);
      ScanAppend(limit, after, t);
      ThenAssociates(Scanned([p], after), Scan(limit, after), Scan(limit, first.rest + t));
    }
  }

  lemma SettledScan(limit: int, buffer: Bytes)
    ensures Settled(limit, buffer) <==> Scan(limit, buffer) == Scanned([], buffer)
  {
    ScanIsRight(limit, buffer);
  }

  /** Chunk invariance: however the bytes are split into notifications, the same pieces are
      cut and the same buffer remains as after one push of them all. */
  lemma {:induction false} ChunkInvariance(limit: int, buffer: Bytes, chunks: seq<Bytes>)
    requires Settled(limit, buffer)
    ensures PushAll(limit, buffer, chunks) == Scan(limit, buffer + Flatten(chunks))
    decreases |chunks|
  {
    if chunks == [] {
      SettledScan(limit, buffer);
      assert buffer + Flatten(chunks) == buffer;
    } else {
      var s := buffer + chunks[0];
      ScanIsRight(limit, s);
      ChunkInvariance(limit, Scan(limit, s).rest, chunks[1..]);
      ScanAppend(limit, s, Flatten(chunks[1..]));
      assert buffer + Flatten(chunks) == s + Flatten(chunks[1..]);
    }
  }

  // ---------- conservation ----------

  lemma {:induction false} FramesFromPieces(pieces: seq<Piece>)
    ensures forall f :: f in Frames(pieces) <==> Emitted(f) in pieces
  {
    if pieces == [] {
    } else {
      FramesFromPieces(pieces[1..]);
      assert forall p :: p in pieces <==> p == pieces[0] || p in pieces[1..];
    }
  }

  lemma {:induction false} FramesAppend(a: seq<Piece>, b: seq<Piece>)
    ensures Frames(a + b) == Frames(a) + Frames(b)
  {
    if a == [] {
      assert a + b == b;
    } else {
      FramesAppend(a[1..], b);
      assert (a + b)[1..] == a[1..] + b;
    }
  }

  lemma LengthsAgree(f: Bytes)
    requires |f| >= MIN_FRAME_LEN && FrameLen(f) == |f|
    ensures ParseFrame(f) != Err(TooShort) && ParseFrame(f) != Err(LengthMismatch)
  {
  }

  /** Over any run of pushes every byte is accounted for, in order, as a dropped byte, part of
      a frame or part of the buffer; and every frame has the length it announces, within the
      limit, so the frame parser never blames a length. */
  lemma {:induction false} RunConservation(limit: int, buffer: Bytes, chunks: seq<Bytes>)
    requires Settled(limit, buffer)
    ensures var run := PushAll(limit, buffer, chunks);
            && RightCut(limit, buffer + Flatten(chunks), run)
            && forall f :: f in Frames(run.pieces) ==>
                 && MIN_FRAME_LEN <= |f| <= limit && FrameLen(f) == |f|
                 && ParseFrame(f) != Err(TooShort) && ParseFrame(f) != Err(LengthMismatch)
  {
    ChunkInvariance(limit, buffer, chunks);
    var run := PushAll(limit, buffer, chunks);
    ScanIsRight(limit, buffer + Flatten(chunks));
    FramesFromPieces(run.pieces);
    forall f | f in Frames(run.pieces)
      ensures MIN_FRAME_LEN <= |f| <= limit && FrameLen(f) == |f|
      ensures ParseFrame(f) != Err(TooShort) && ParseFrame(f) != Err(LengthMismatch)
    {
      RightFrame(limit, buffer + Flatten(chunks), run, f);
      LengthsAgree(f);
    }
  }

  lemma RightFrame(limit: int, s: Bytes, cut: Scanned, f: Bytes)
    requires RightCut(limit, s, cut) && Emitted(f) in cut.pieces
    ensures MIN_FRAME_LEN <= |f| <= limit && FrameLen(f) == |f|
  {
    var i :| 0 <= i < |cut.pieces| && cut.pieces[i] == Emitted(f);
    var left := Unscan(cut.pieces[i..], cut.rest);
    assert RightPiece(limit, cut.pieces[i], left);
    RightPieceLength(limit, f, left);
  }

  lemma RightPieceLength(limit: int, f: Bytes, s: Bytes)
    requires RightPiece(limit, Emitted(f), s)
    ensures MIN_FRAME_LEN <= |f| <= limit && FrameLen(f) == |f|
  {
    assert f[14] == s[14] && f[15] == s[15];
  }

  // ---------- valid streams ----------

  /** A frame of exactly the length it announces, within the limit. */
  predicate WholeFrame(limit: int, f: Bytes) {
    |f| >= MIN_FRAME_LEN && |f| == FrameLen(f) <= limit
  }

  ghost predicate WholeFrames(limit: int, frames: seq<Bytes>) {
    forall i :: 0 <= i < |frames| ==> WholeFrame(limit, frames[i])
  }

  function AllEmitted(frames: seq<Bytes>): (pieces: seq<Piece>)
    ensures |pieces| == |frames|
  {
    seq(|frames|, i requires 0 <= i < |frames| => Emitted(frames[i]))
  }

  lemma {:induction false} FramesAllEmitted(frames: seq<Bytes>)
    ensures Frames(AllEmitted(frames)) == frames
  {
    if frames == [] {
    } else {
      FramesAllEmitted(frames[1..]);
      assert AllEmitted(frames)[1..] == AllEmitted(frames[1..]);
    }
  }

  /** How many of the frames lie completely within the first `n` bytes of their stream. */
  function Arrived(frames: seq<Bytes>, n: nat): (k: nat)
    ensures k <= |frames|
  {
    if frames == [] || n < |frames[0]| then 0 else 1 + Arrived(frames[1..], n - |frames[0]|)
  }

  lemma {:induction false} ArrivedMeaning(frames: seq<Bytes>, n: nat)
    ensures var k := Arrived(frames, n);
            && |Flatten(frames[..k])| <= n
            && (k < |frames| ==> n < |Flatten(frames[..k + 1])|)
  {
    if frames == [] {
    } else {
      if n < |frames[0]| {
        assert frames[..1] == [frames[0]] && frames[..1][1..] == [];
      } else {
        ArrivedMeaning(frames[1..], n - |frames[0]|);
        var k := Arrived(frames, n);
        assert frames[..k][1..] == frames[1..][..k - 1];
        if k < |frames| {
          assert frames[..k + 1][1..] == frames[1..][..k];
        }
      }
    }
  }

  lemma WholeFrameFirst(limit: int, f: Bytes, after: Bytes)
    requires WholeFrame(limit, f)
    ensures Scan(limit, f + after) == Scanned([Emitted(f)], []).Then(Scan(limit, after))
  {
    var s := f + after;
    assert FrameLen(s) == FrameLen(f);
    assert s[..|f|] == f && s[|f|..] == after;
    ScanStep(limit, Emitted(f), s);
  }

  /** Whole frames are emitted one by one; a partial frame after them waits. */
  lemma {:induction false} WholeThenPartial(limit: int, sent: seq<Bytes>, part: Bytes)
    requires WholeFrames(limit, sent) && Settled(limit, part)
    ensures Scan(limit, Flatten(sent) + part) == Scanned(AllEmitted(sent), part)
    decreases |sent|
  {
    if sent == [] {
      SettledScan(limit, part);
      assert Flatten(sent) + part == part;
    } else {
      var f, later := sent[0], Flatten(sent[1..]) + part;
      assert WholeFrame(limit, f);
      WholeThenPartial(limit, sent[1..], part);
      WholeFrameFirst(limit, f, later);
      Assoc(f, Flatten(sent[1..]), part);
      assert AllEmitted(sent) == [Emitted(f)] + AllEmitted(sent[1..]);
    }
  }

  /** A proper prefix of a whole frame keeps the assembler waiting. */
  lemma SettledPartial(limit: int, f: Bytes, n: nat)
    requires WholeFrame(limit, f) && n < |f|
    ensures Settled(limit, f[..n])
  {
  }

  /** What follows the frames that have arrived is a proper prefix of the next one. */
  lemma PartialAfterArrived(limit: int, frames: seq<Bytes>, n: nat)
    requires WholeFrames(limit, frames) && n <= |Flatten(frames)|
    ensures var sent := Flatten(frames[..Arrived(frames, n)]);
            |sent| <= n && sent <= Flatten(frames) && Settled(limit, Flatten(frames)[|sent|..n])
  {
    var k := Arrived(frames, n);
    var sent := Flatten(frames[..k]);
    ArrivedMeaning(frames, n);
    FlattenSplit(frames, k);
    if k < |frames| {
      FlattenSplit(frames[..k + 1], k);
      assert frames[..k + 1][..k] == frames[..k] && frames[..k + 1][k..] == [frames[k]];
      assert WholeFrame(limit, frames[k]);
      assert frames[k..][0] == frames[k];
      FirstOfFlat(sent, frames[k], Flatten(frames[k..][1..]), n);
      SettledPartial(limit, frames[k], n - |sent|);
    }
  }

  lemma FlattenSplit(frames: seq<Bytes>, k: nat)
    requires k <= |frames|
    ensures Flatten(frames) == Flatten(frames[..k]) + Flatten(frames[k..])
  {
    FlattenAppend(frames[..k], frames[k..]);
    assert frames == frames[..k] + frames[k..];
  }

  lemma FirstOfFlat(sent: Bytes, f: Bytes, after: Bytes, n: nat)
    requires |sent| <= n < |sent| + |f|
    ensures (sent + (f + after))[|sent|..n] == f[..n - |sent|]
  {
  }

  /** Prompt delivery: after any prefix of a stream of whole frames, the frames emitted are
      exactly those whose last byte has arrived, and the rest is buffered. */
  lemma PromptDelivery(limit: int, frames: seq<Bytes>, n: nat)
    requires WholeFrames(limit, frames) && n <= |Flatten(frames)|
    ensures var arrived := frames[..Arrived(frames, n)];
            && |Flatten(arrived)| <= n
            && Scan(limit, Flatten(frames)[..n])
               == Scanned(AllEmitted(arrived), Flatten(frames)[|Flatten(arrived)|..n])
  {
    var arrived := frames[..Arrived(frames, n)];
    PartialAfterArrived(limit, frames, n);
    var part := Flatten(frames)[|Flatten(arrived)|..n];
    WholeThenPartial(limit, arrived, part);
    assert Flatten(frames)[..n] == Flatten(arrived) + part;
  }

  /** Any chunking of a stream of whole frames yields exactly those frames and an empty buffer. */
  lemma WholeStream(limit: int, frames: seq<Bytes>, chunks: seq<Bytes>)
    requires WholeFrames(limit, frames) && Flatten(chunks) == Flatten(frames)
    ensures PushAll(limit, [], chunks) == Scanned(AllEmitted(frames), [])
    ensures Frames(PushAll(limit, [], chunks).pieces) == frames
  {
    ChunkInvariance(limit, [], chunks);
    WholeThenPartial(limit, frames, []);
    assert [] + Flatten(chunks) == Flatten(frames) + [];
    FramesAllEmitted(frames);
  }

  datatype Message = Message(mac: string, packetType: string, payload: Bytes)

  predicate Sendable(limit: int, m: Message) {
    var r := BuildFrame(m.mac, m.packetType, m.payload);
    r.Ok? && |r.value| <= limit
  }

  function Encode(limit: int, messages: seq<Message>): (frames: seq<Bytes>)
    requires forall i :: 0 <= i < |messages| ==> Sendable(limit, messages[i])
    ensures |frames| == |messages|
  {
    seq(|messages|, i requires 0 <= i < |messages| && Sendable(limit, messages[i]) =>
      BuildFrame(messages[i].mac, messages[i].packetType, messages[i].payload).value)
  }

  /** Whether a received frame carries the message that was sent. */
  predicate Carries(f: Bytes, m: Message) {
    var r := ParseFrame(f);
    && r.Ok?
    && MacToBytes(m.mac) == Ok(r.value.macBytes) && Normalize(m.mac) == Ok(r.value.mac)
    && r.value.packetType == m.packetType && r.value.payload == m.payload
  }

  /** Stream round trip: built frames, sent back to back and cut up arbitrarily, arrive one by
      one and in order, and every understood message is parsed back unchanged. */
  lemma StreamRoundTrip(limit: int, messages: seq<Message>, chunks: seq<Bytes>)
    requires forall i :: 0 <= i < |messages| ==> Sendable(limit, messages[i])
    requires Flatten(chunks) == Flatten(Encode(limit, messages))
    ensures PushAll(limit, [], chunks) == Scanned(AllEmitted(Encode(limit, messages)), [])
    ensures forall i :: 0 <= i < |messages| && Understood(messages[i].packetType, messages[i].payload) ==>
              Carries(Encode(limit, messages)[i], messages[i])
  {
    var frames := Encode(limit, messages);
    forall i | 0 <= i < |messages|
      ensures WholeFrame(limit, frames[i])
      ensures Understood(messages[i].packetType, messages[i].payload) ==> Carries(frames[i], messages[i])
    {
      var m := messages[i];
      assert Sendable(limit, m);
      BuildFrameLayout(m.mac, m.packetType, m.payload);
      BuiltFrameParses(m.mac, m.packetType, m.payload);
      assert m.packetType == "ALERT" || m.packetType == "RAWDATA" ==> TrimNul(m.packetType) == m.packetType;
    }
    WholeStream(limit, frames, chunks);
  }
}
