/** Downstream SSP frames: the capture client's reader and decoder (tools/capture/ssp_capture.py). */
module SspFrames {
  import opened Wrappers
  import opened Bytes

  datatype Frame = Frame(sid: nat, chunk: bytes)

  datatype EofError = EndOfStream

  /** What `recv_frames` returns. */
  datatype Received = Received(frames: seq<Frame>, headerTotal: Option<nat>)

  // ---- the wire ----

  /** [sid:4][chunkLen:2][chunk] */
  function FrameBytes(f: Frame): bytes {
    BigEndian(f.sid, 4) + BigEndian(|f.chunk|, 2) + f.chunk
  }

  /** The frames on the stream, and what follows them. */
  function Wire(fs: seq<Frame>, post: bytes): bytes {
    if fs == [] then post else FrameBytes(fs[0]) + Wire(fs[1..], post)
  }

  function Flat(fs: seq<Frame>): bytes {
    if fs == [] then [] else fs[0].chunk + Flat(fs[1..])
  }

  /** A frame the six header bytes can carry. */
  predicate Sendable(f: Frame) {
    f.sid < 0x1_0000_0000 && |f.chunk| < 0x1_0000
  }

  ghost predicate AllSendable(fs: seq<Frame>) {
    forall i | 0 <= i < |fs| :: Sendable(fs[i])
  }

  // ---- what the reader does, as functions of the bytes still to come ----

  /** A value and the bytes left after it; `None` is the end-of-stream error. */
  datatype Next<T> = Next(value: T, left: bytes)

  function ReadFrame(s: bytes): (r: Option<Next<Frame>>)
    ensures r.Some? ==> |r.value.left| < |s|
  {
    if |s| < 6 then None
    else
      var length := FromBigEndian(s[4..6]);
      if |s| < 6 + length then None
      else Some(Next(Frame(FromBigEndian(s[..4]), s[6..6 + length]), s[6 + length..]))
  }

  /** Frames until `got`, counting chunk bytes from `got` on, reaches `need`. */
  function ReadUntil(s: bytes, got: nat, need: nat): Option<Next<seq<Frame>>>
    decreases |s|
  {
    if got >= need then Some(Next([], s))
    else
      var f := ReadFrame(s);
      if f.None? then None
      else InFront([f.value.value], ReadUntil(f.value.left, got + |f.value.value.chunk|, need))
  }

  function InFront(fs: seq<Frame>, more: Option<Next<seq<Frame>>>): Option<Next<seq<Frame>>> {
    if more.None? then None else Some(Next(fs + more.value.value, more.value.left))
  }

  /** The frames that complete an 8-byte prefix of which `have` bytes are there. */
  function ReadPrefix(s: bytes, have: nat): (r: Option<Next<seq<Frame>>>)
    ensures r.Some? ==> have + |Flat(r.value.value)| >= 8 && |r.value.left| <= |s|
    decreases |s|
  {
    if have >= 8 then Some(Next([], s))
    else
      var f := ReadFrame(s);
      if f.None? then None
      else
        var more := ReadPrefix(f.value.left, have + |f.value.value.chunk|);
        FlatInFront(f.value.value, if more.Some? then more.value.value else []);
        InFront([f.value.value], more)
  }

  lemma FlatInFront(f: Frame, fs: seq<Frame>)
    ensures Flat([f] + fs) == f.chunk + Flat(fs)
  {
    assert ([f] + fs)[1..] == fs;
  }

  /** The length in the first 8 bytes. */
  function HeaderOf(chunk: bytes, more: seq<Frame>): nat
    requires |chunk| + |Flat(more)| >= 8
  {
    FromBigEndian((chunk + Flat(more))[..8])
  }

  /** How many chunk bytes end the loop. */
  function Need(totalExpected: Option<nat>, headerTotal: Option<nat>): nat
    requires totalExpected.Some? || headerTotal.Some?
  {
    if totalExpected.Some? then totalExpected.value else 8 + headerTotal.value
  }

  function Onward(fs: seq<Frame>, more: Option<Next<seq<Frame>>>, headerTotal: Option<nat>): Option<Next<Received>> {
    if more.None? then None else Some(Next(Received(fs + more.value.value, headerTotal), more.value.left))
  }

  /** The whole call.  The frames read while completing the prefix are kept but, as in the code, not
      counted: counting starts from the first chunk alone. */
  function Receive(s: bytes, totalExpected: Option<nat>): Option<Next<Received>> {
    var first := ReadFrame(s);
    if first.None? then None
    else
      var Next(f, left) := first.value;
      if totalExpected.Some? then Onward([f], ReadUntil(left, |f.chunk|, totalExpected.value), None)
      else
        var prefix := ReadPrefix(left, |f.chunk|);
        if prefix.None? then None
        else
          var total := HeaderOf(f.chunk, prefix.value.value);
          Onward([f] + prefix.value.value, ReadUntil(prefix.value.left, |f.chunk|, 8 + total), Some(total))
  }

  function Decode(r: Received): bytes {
    var data := Flat(r.frames);
    match r.headerTotal
    case None => data
    case Some(total) => Slice(data, 8, 8 + total)
  }

  // ---- the client ----

  /** The socket, as the bytes the peer still sends before it closes. */
  class Ssp {
    var incoming: bytes

    constructor (incoming: bytes)
      ensures this.incoming == incoming
    {
      this.incoming := incoming;
    }

    /** At the end of the stream what there was is consumed all the same. */
    method ReadExact(n: nat) returns (r: Result<bytes, EofError>)
      modifies this
      ensures r == if n <= |old(incoming)| then Ok(old(incoming)[..n]) else Err(EndOfStream)
      ensures incoming == if r.Ok? then old(incoming)[n..] else []
    {
      if n <= |incoming| {
        r := Ok(incoming[..n]);
        incoming := incoming[n..];
      } else {
        r := Err(EndOfStream);
        incoming := [];
      }
    }

    method RecvFrame() returns (r: Result<Frame, EofError>)
      modifies this
      ensures var f := ReadFrame(old(incoming));
              && (r.Ok? <==> f.Some?)
              && (r.Ok? ==> f.value == Next(r.value, incoming))
    {
      var hdr := ReadExact(6);
      if hdr.Err? {
        return Err(hdr.error);
      }
      var sid, length := FromBigEndian(hdr.value[..4]), FromBigEndian(hdr.value[4..]);
      assert hdr.value[..4] == old(incoming)[..4];
      assert hdr.value[4..] == old(incoming)[4..6];
      ghost var body := incoming;
      var chunk := ReadExact(length);
      if chunk.Err? {
        return Err(chunk.error);
      }
      assert body[..length] == old(incoming)[6..6 + length] && body[length..] == old(incoming)[6 + length..];
      r := Ok(Frame(sid, chunk.value));
    }

    /** The length prefix, from the first chunk or from as many more frames as complete it. */
    method RecvHeader(chunk: bytes) returns (r: Result<Received, EofError>)
      modifies this
      ensures var fs := ReadPrefix(old(incoming), |chunk|);
              && (r.Ok? <==> fs.Some?)
              && (r.Ok? ==> && r.value == Received(fs.value.value, Some(HeaderOf(chunk, fs.value.value)))
                            && incoming == fs.value.left)
    {
      hide ReadPrefix, ReadFrame;
      var acc, inner: seq<Frame> := chunk, [];
      NothingInFront(ReadPrefix(incoming, |chunk|));
      assert acc == chunk + Flat(inner);
      while |acc| < 8
        invariant acc == chunk + Flat(inner)
        invariant ReadPrefix(old(incoming), |chunk|) == InFront(inner, ReadPrefix(incoming, |acc|))
        decreases |incoming|
      {
        PrefixTurn(incoming, |acc|);
        var f := RecvFrame();
        if f.Err? {
          return Err(f.error);
        }
        AccStep(chunk, inner, f.value);
        OneMoreInFront(inner, f.value, ReadPrefix(incoming, |acc| + |f.value.chunk|));
        acc := acc + f.value.chunk;
        inner := inner + [f.value];
      }
      PrefixTurn(incoming, |acc|);
      assert inner + [] == inner;
      r := Ok(Received(inner, Some(FromBigEndian(acc[..8]))));
    }

    /** The first turn of the loop: the first frame and, when no total is given, the header. */
    method RecvFirst(totalExpected: Option<nat>) returns (r: Result<(Received, nat), EofError>)
      modifies this
      ensures r.Err? ==> Receive(old(incoming), totalExpected).None?
      ensures r.Ok? ==>
                var (had, got) := r.value;
                && (totalExpected.Some? <==> had.headerTotal.None?)
                && Receive(old(incoming), totalExpected)
                   == Onward(had.frames, ReadUntil(incoming, got, Need(totalExpected, had.headerTotal)), had.headerTotal)
    {
      var f := RecvFrame();
      if f.Err? {
        return Err(f.error);
      }
      if totalExpected.Some? {
        return Ok((Received([f.value], None), |f.value.chunk|));
      }
      var head := RecvHeader(f.value.chunk);
      if head.Err? {
        return Err(head.error);
      }
      r := Ok((Received([f.value] + head.value.frames, head.value.headerTotal), |f.value.chunk|));
    }

    method RecvFrames(totalExpected: Option<nat>) returns (r: Result<Received, EofError>)
      modifies this
      ensures var got := Receive(old(incoming), totalExpected);
              && (r.Ok? <==> got.Some?)
              && (r.Ok? ==> got.value == Next(r.value, incoming))
    {
      var first := RecvFirst(totalExpected);
      if first.Err? {
        return Err(first.error);
      }
      var frames, headerTotal := first.value.0.frames, first.value.0.headerTotal;
      var got: nat := first.value.1;
      while got < Need(totalExpected, headerTotal)
        invariant Receive(old(incoming), totalExpected)
               == Onward(frames, ReadUntil(incoming, got, Need(totalExpected, headerTotal)), headerTotal)
        decreases |incoming|
      {
        var f := RecvFrame();
        if f.Err? {
          return Err(f.error);
        }
        OneMoreInFront(frames, f.value,
                       ReadUntil(incoming, got + |f.value.chunk|, Need(totalExpected, headerTotal)));
        frames := frames + [f.value];
        got := got + |f.value.chunk|;
      }
      assert frames + [] == frames;
      r := Ok(Received(frames, headerTotal));
    }
  }

  /** One turn of completing the prefix. */
  lemma PrefixTurn(s: bytes, have: nat)
    ensures have >= 8 ==> ReadPrefix(s, have) == Some(Next([], s))
    ensures have < 8 && ReadFrame(s).None? ==> ReadPrefix(s, have).None?
    ensures have < 8 && ReadFrame(s).Some? ==>
              var f := ReadFrame(s).value;
              ReadPrefix(s, have) == InFront([f.value], ReadPrefix(f.left, have + |f.value.chunk|))
  {
  }

  lemma NothingInFront(more: Option<Next<seq<Frame>>>)
    ensures InFront([], more) == more
  {
    if more.Some? {
      assert [] + more.value.value == more.value.value;
    }
  }

  lemma OneMoreInFront(fs: seq<Frame>, f: Frame, more: Option<Next<seq<Frame>>>)
    ensures InFront(fs, InFront([f], more)) == InFront(fs + [f], more)
  {
    if more.Some? {
      assert fs + ([f] + more.value.value) == fs + [f] + more.value.value;
    }
  }

  lemma {:induction false} FlatAppend(fs: seq<Frame>, f: Frame)
    ensures Flat(fs + [f]) == Flat(fs) + f.chunk
  {
    if fs == [] {
      assert fs + [f] == [f];
      assert Flat([f]) == f.chunk + Flat([]);
    } else {
      assert (fs + [f])[1..] == fs[1..] + [f];
      FlatAppend(fs[1..], f);
    }
  }

  lemma AccStep(chunk: bytes, fs: seq<Frame>, f: Frame)
    ensures chunk + Flat(fs + [f]) == chunk + Flat(fs) + f.chunk
  {
    FlatAppend(fs, f);
    assert chunk + (Flat(fs) + f.chunk) == chunk + Flat(fs) + f.chunk;
  }

  // ---- frames on the wire read back ----

  lemma FrameSlices(a: bytes, b: bytes, c: bytes, post: bytes)
    ensures var s := a + b + c + post;
            && s[..|a|] == a
            && s[|a|..|a| + |b|] == b
            && s[|a| + |b|..|a| + |b| + |c|] == c
            && s[|a| + |b| + |c|..] == post
  {
  }

  lemma FrameBack(f: Frame, post: bytes)
    requires Sendable(f)
    ensures ReadFrame(FrameBytes(f) + post) == Some(Next(f, post))
  {
    assert Pow256(4) == 256 * Pow256(3) == 0x1_0000_0000 && Pow256(2) == 256 * Pow256(1) == 0x1_0000 by {
      assert Pow256(3) == 256 * Pow256(2);
      assert Pow256(1) == 256 * Pow256(0);
    }
    BigEndianBack(f.sid, 4);
    BigEndianBack(|f.chunk|, 2);
    FrameSlices(BigEndian(f.sid, 4), BigEndian(|f.chunk|, 2), f.chunk, post);
  }

  lemma WireStep(fs: seq<Frame>, post: bytes)
    requires fs != [] && AllSendable(fs)
    ensures ReadFrame(Wire(fs, post)) == Some(Next(fs[0], Wire(fs[1..], post)))
  {
    FrameBack(fs[0], Wire(fs[1..], post));
  }

  lemma {:induction false} FlatSplit(fs: seq<Frame>, k: nat)
    requires k <= |fs|
    ensures Flat(fs) == Flat(fs[..k]) + Flat(fs[k..])
  {
    if k > 0 {
      var f, rest := fs[0], fs[1..];
      FlatSplit(rest, k - 1);
      FirstAndSome(fs, k - 1);
      FlatInFront(f, rest[..k - 1]);
      FlatInFront(f, rest);
      hide Flat;
      assert [f] + rest == fs;
      assert f.chunk + (Flat(rest[..k - 1]) + Flat(fs[k..])) == (f.chunk + Flat(rest[..k - 1])) + Flat(fs[k..]);
    }
  }

  /** How many frames hold all the bytes: those up to the last chunk that carries something. */
  function Carrying(fs: seq<Frame>): (k: nat)
    ensures k <= |fs|
  {
    if Flat(fs) == [] then 0 else 1 + Carrying(fs[1..])
  }

  /** No idle frame at the end. */
  predicate EndsFull(fs: seq<Frame>) {
    fs != [] ==> fs[|fs| - 1].chunk != []
  }

  lemma {:induction false} CarryingIsAllIff(fs: seq<Frame>)
    ensures Carrying(fs) == |fs| <==> EndsFull(fs)
    ensures Flat(fs[Carrying(fs)..]) == [] && Flat(fs[..Carrying(fs)]) == Flat(fs)
  {
    FlatSplit(fs, Carrying(fs));
    if fs != [] {
      CarryingIsAllIff(fs[1..]);
      assert fs[1..] != [] ==> fs[1..][|fs| - 2] == fs[|fs| - 1];
      if Flat(fs) != [] {
        assert fs[Carrying(fs)..] == fs[1..][Carrying(fs[1..])..];
      }
    }
  }

  /** Reading on until the missing bytes are there takes exactly the frames that hold them. */
  lemma {:induction false} UntilExact(fs: seq<Frame>, post: bytes, got: nat)
    requires AllSendable(fs)
    ensures ReadUntil(Wire(fs, post), got, got + |Flat(fs)|)
            == Some(Next(fs[..Carrying(fs)], Wire(fs[Carrying(fs)..], post)))
    decreases |fs|
  {
    hide ReadFrame, FrameBytes;
    if Flat(fs) != [] {
      WireStep(fs, post);
      UntilExact(fs[1..], post, got + |fs[0].chunk|);
      var k := Carrying(fs[1..]);
      assert [fs[0]] + fs[1..][..k] == fs[..k + 1] && fs[1..][k..] == fs[k + 1..];
    }
  }

  lemma {:induction false} UntilLeavesLess(s: bytes, got: nat, need: nat)
    ensures ReadUntil(s, got, need).Some? ==>
              |ReadUntil(s, got, need).value.left| <= |s| && (got < need ==> |ReadUntil(s, got, need).value.left| < |s|)
    decreases |s|
  {
    var f := ReadFrame(s);
    if got < need && f.Some? {
      UntilLeavesLess(f.value.left, got + |f.value.value.chunk|, need);
    }
  }

  /** If more is needed than the frames hold, the reader goes on into what follows them, or runs into
      the end of the stream. */
  lemma {:induction false} UntilOvershoots(fs: seq<Frame>, post: bytes, got: nat, need: nat)
    requires AllSendable(fs) && got + |Flat(fs)| < need
    ensures var r := ReadUntil(Wire(fs, post), got, need); r.Some? ==> |r.value.left| < |post|
    decreases |fs|
  {
    if fs == [] {
      UntilLeavesLess(post, got, need);
    } else {
      hide ReadFrame, FrameBytes;
      WireStep(fs, post);
      UntilOvershoots(fs[1..], post, got + |fs[0].chunk|, need);
    }
  }

  // ---- whole messages ----

  function Message(payload: bytes): bytes {
    BigEndian(|payload|, 8) + payload
  }

  /** A way the sender may cut data into frames. */
  ghost predicate Cuts(fs: seq<Frame>, data: bytes) {
    fs != [] && AllSendable(fs) && Flat(fs) == data
  }

  lemma HeaderBack(payload: bytes)
    requires |payload| < 0x1_0000_0000_0000_0000
    ensures FromBigEndian(Message(payload)[..8]) == |payload|
    ensures Slice(Message(payload), 8, 8 + |payload|) == payload
  {
    assert Pow256(8) == 256 * Pow256(7) == 0x1_0000 * Pow256(6) == 0x100_0000 * Pow256(5)
        == 0x1_0000_0000 * Pow256(4) == 0x1_0000_0000_0000_0000 by {
      assert Pow256(4) == 256 * Pow256(3) == 0x1_0000 * Pow256(2) == 0x100_0000 * Pow256(1) == 0x1_0000_0000;
      assert Pow256(6) == 256 * Pow256(5);
    }
    BigEndianBack(|payload|, 8);
    assert Message(payload)[..8] == BigEndian(|payload|, 8);
  }

  lemma OneThenRest(fs: seq<Frame>)
    requires fs != []
    ensures [fs[0]] + fs[1..] == fs && [fs[0]] + [] + fs[1..] == fs
    ensures Flat(fs) == fs[0].chunk + Flat(fs[1..])
    ensures fs[0].chunk + Flat([]) == fs[0].chunk
  {
  }

  /** However data is cut into frames, the first frame and those of the others that carry its
      remaining bytes. */
  function Holding(fs: seq<Frame>): (k: nat)
    requires fs != []
    ensures 1 <= k <= |fs|
  {
    1 + Carrying(fs[1..])
  }

  lemma HoldingHoldsAll(fs: seq<Frame>)
    requires fs != []
    ensures Flat(fs[..Holding(fs)]) == Flat(fs) && Flat(fs[Holding(fs)..]) == []
    ensures fs[..Holding(fs)] == [fs[0]] + fs[1..][..Carrying(fs[1..])]
    ensures fs[Holding(fs)..] == fs[1..][Carrying(fs[1..])..]
    ensures Holding(fs) == |fs| <==> EndsFull(fs[1..])
  {
    hide Carrying, EndsFull, Flat;
    CarryingIsAllIff(fs[1..]);
    OneThenRest(fs);
    FirstAndSome(fs, Carrying(fs[1..]));
    FlatInFront(fs[0], fs[1..][..Carrying(fs[1..])]);
  }

  lemma FirstAndSome(fs: seq<Frame>, k: nat)
    requires k < |fs|
    ensures fs[..1 + k] == [fs[0]] + fs[1..][..k] && fs[1 + k..] == fs[1..][k..]
  {
  }

  lemma ReceiveLong(s: bytes, f: Frame, left: bytes, total: nat)
    requires ReadFrame(s) == Some(Next(f, left)) && |f.chunk| >= 8 && FromBigEndian(f.chunk[..8]) == total
    ensures Receive(s, None) == Onward([f], ReadUntil(left, |f.chunk|, 8 + total), Some(total))
  {
    assert f.chunk + Flat([]) == f.chunk && [f] + [] == [f];
  }

  lemma ReceiveGiven(s: bytes, f: Frame, left: bytes, total: nat)
    requires ReadFrame(s) == Some(Next(f, left))
    ensures Receive(s, Some(total)) == Onward([f], ReadUntil(left, |f.chunk|, total), None)
  {
  }

  /** However a message is cut into frames, if its first chunk holds the whole 8-byte prefix then the
      reader takes exactly the frames that hold the message, whatever follows, and decoding returns
      the payload. */
  lemma MessageBack(fs: seq<Frame>, payload: bytes, post: bytes)
    requires |payload| < 0x1_0000_0000_0000_0000
    requires Cuts(fs, Message(payload)) && |fs[0].chunk| >= 8
    ensures var held := Received(fs[..Holding(fs)], Some(|payload|));
            && Receive(Wire(fs, post), None) == Some(Next(held, Wire(fs[Holding(fs)..], post)))
            && Decode(held) == payload
  {
    hide Receive, ReadFrame, ReadUntil, Wire, Flat, Carrying, Message, FromBigEndian, Decode, EndsFull;
    WireStep(fs, post);
    LongFirst(fs, payload);
    HoldingHoldsAll(fs);
    ReceiveLong(Wire(fs, post), fs[0], Wire(fs[1..], post), |payload|);
    UntilExact(fs[1..], post, |fs[0].chunk|);
    DecodeMessage(fs[..Holding(fs)], payload);
  }

  lemma LongFirst(fs: seq<Frame>, payload: bytes)
    requires |payload| < 0x1_0000_0000_0000_0000
    requires Cuts(fs, Message(payload)) && |fs[0].chunk| >= 8
    ensures FromBigEndian(fs[0].chunk[..8]) == |payload| && |fs[0].chunk| + |Flat(fs[1..])| == 8 + |payload|
  {
    hide FromBigEndian, BigEndian;
    HeaderBack(payload);
    OneThenRest(fs);
    assert fs[0].chunk[..8] == Message(payload)[..8];
  }

  lemma DecodeMessage(fs: seq<Frame>, payload: bytes)
    requires |payload| < 0x1_0000_0000_0000_0000 && Flat(fs) == Message(payload)
    ensures Decode(Received(fs, Some(|payload|))) == payload
  {
    HeaderBack(payload);
  }

  /** Decoding never returns more than was announced: of what was received it drops the eight bytes in
      front and whatever is behind; without an announcement it returns everything. */
  lemma DecodeIsBounded(fs: seq<Frame>, total: nat)
    requires |Flat(fs)| >= 8
    ensures var data := Decode(Received(fs, Some(total)));
            && |data| == (if 8 + total <= |Flat(fs)| then total else |Flat(fs)| - 8)
            && Flat(fs)[..8] + data + Flat(fs)[8 + |data|..] == Flat(fs)
    ensures Decode(Received(fs, None)) == Flat(fs)
  {
  }

  /** Completing a short prefix takes some of the frames, and leaves the others and what follows. */
  lemma {:induction false} PrefixTakesSome(fs: seq<Frame>, post: bytes, have: nat) returns (k: nat)
    requires AllSendable(fs) && have < 8 <= have + |Flat(fs)|
    ensures 0 < k <= |fs| && ReadPrefix(Wire(fs, post), have) == Some(Next(fs[..k], Wire(fs[k..], post)))
    decreases |fs|
  {
    hide ReadFrame, FrameBytes, FromBigEndian;
    var f, rest := fs[0], fs[1..];
    WireStep(fs, post);
    if have + |f.chunk| >= 8 {
      k := 1;
      assert fs[..1] == [f] + [];
    } else {
      k := PrefixTakesSome(rest, post, have + |f.chunk|);
      FirstAndSome(fs, k);
      k := k + 1;
    }
  }

  lemma ShortAccount(fs: seq<Frame>, payload: bytes, k: nat)
    requires |payload| < 0x1_0000_0000_0000_0000
    requires fs != [] && Flat(fs) == Message(payload)
    requires k < |fs| && |fs[0].chunk| < 8 <= |fs[0].chunk| + |Flat(fs[1..][..k])|
    ensures HeaderOf(fs[0].chunk, fs[1..][..k]) == |payload|
    ensures |fs[0].chunk| + |Flat(fs[1..][k..])| < 8 + |payload|
  {
    HeaderBack(payload);
    OneThenRest(fs);
    HeaderInFront(fs[0].chunk, fs[1..], k);
  }

  /** With a shorter first chunk the chunks that complete the prefix are not counted, so the reader
      waits for more than the message: it takes bytes of what follows, or fails. */
  lemma ShortFirstOvershoots(fs: seq<Frame>, payload: bytes, post: bytes)
    requires |payload| < 0x1_0000_0000_0000_0000
    requires Cuts(fs, Message(payload)) && |fs[0].chunk| < 8
    ensures var r := Receive(Wire(fs, post), None); r.Some? ==> |r.value.left| < |post|
  {
    hide ReadFrame, FrameBytes, FromBigEndian, BigEndian;
    var chunk, rest := fs[0].chunk, fs[1..];
    WireStep(fs, post);
    OneThenRest(fs);
    var k := PrefixTakesSome(rest, post, |chunk|);
    ShortAccount(fs, payload, k);
    UntilOvershoots(rest[k..], post, |chunk|, 8 + |payload|);
  }

  lemma HeaderInFront(chunk: bytes, fs: seq<Frame>, k: nat)
    requires k <= |fs| && |chunk| + |Flat(fs[..k])| >= 8
    ensures |Flat(fs)| == |Flat(fs[..k])| + |Flat(fs[k..])|
    ensures (chunk + Flat(fs[..k]))[..8] == (chunk + Flat(fs))[..8]
  {
    FlatSplit(fs, k);
    assert chunk + Flat(fs) == (chunk + Flat(fs[..k])) + Flat(fs[k..]);
  }

  lemma {:induction false} WireSize(fs: seq<Frame>, post: bytes)
    ensures |Wire(fs, post)| >= 6 * |fs| + |post|
  {
    if fs != [] {
      WireSize(fs[1..], post);
    }
  }

  /** So a message cut into frames in any way is consumed exactly, whatever follows it, if and only if
      its first chunk has 8 bytes or more and no idle frame ends it; with such a first chunk decoding
      returns the payload in any case.  With nothing behind it, a message with a shorter first chunk
      is an error. */
  lemma ReceivedIff(fs: seq<Frame>, payload: bytes, post: bytes)
    requires |payload| < 0x1_0000_0000_0000_0000
    requires Cuts(fs, Message(payload))
    ensures var r := Receive(Wire(fs, post), None);
            && (|fs[0].chunk| >= 8 && EndsFull(fs[1..]) <==> r.Some? && r.value.left == post)
            && (|fs[0].chunk| >= 8 ==> r.Some? && Decode(r.value.value) == payload)
            && (|fs[0].chunk| < 8 && post == [] ==> r == None)
  {
    hide Receive, Flat, Message, Wire, Carrying, EndsFull;
    if |fs[0].chunk| >= 8 {
      MessageBack(fs, payload, post);
      HoldingHoldsAll(fs);
      NothingLeftIff(fs[Holding(fs)..], post);
    } else {
      ShortFirstOvershoots(fs, payload, post);
    }
  }

  /** A raw file stream of a known size, cut in any way: the frames that hold it are taken, no more
      and no less, and decode to it; so it is consumed exactly if and only if no idle frame ends it. */
  lemma RawBack(fs: seq<Frame>, data: bytes, post: bytes)
    requires Cuts(fs, data)
    ensures var held := Received(fs[..Holding(fs)], None);
            && Receive(Wire(fs, post), Some(|data|)) == Some(Next(held, Wire(fs[Holding(fs)..], post)))
            && Decode(held) == data
            && (Wire(fs[Holding(fs)..], post) == post <==> EndsFull(fs[1..]))
  {
    hide Receive, ReadFrame, ReadUntil, Wire, Flat, Carrying, EndsFull;
    WireStep(fs, post);
    FirstAddsUp(fs);
    HoldingHoldsAll(fs);
    ReceiveGiven(Wire(fs, post), fs[0], Wire(fs[1..], post), |data|);
    UntilExact(fs[1..], post, |fs[0].chunk|);
    NothingLeftIff(fs[Holding(fs)..], post);
  }

  lemma FirstAddsUp(fs: seq<Frame>)
    requires fs != []
    ensures |Flat(fs)| == |fs[0].chunk| + |Flat(fs[1..])|
  {
  }

  lemma NothingLeftIff(fs: seq<Frame>, post: bytes)
    ensures Wire(fs, post) == post <==> fs == []
  {
    WireSize(fs, post);
  }
}
