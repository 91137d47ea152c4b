/** The AS201 byte-stream framing: bytes arrive in interrupt-sized pieces, a frame ends at 0xFD. */
module Imu {
  import Pipeline

  type Bytes = seq<bv8>

  const END: bv8 := 0xFD
  const RX_SIZE: nat := 100

  datatype Parsed = Parsed(pending: Bytes, frames: seq<Bytes>)

  /** One received byte. An end mark at the very start of a frame is ordinary data; bytes beyond the
      buffer are dropped, with one place kept for the end mark. */
  function Receive(pending: Bytes, c: bv8): Parsed {
    if c == END && |pending| > 0 then Parsed([], [pending + [END]])
    else if |pending| < RX_SIZE - 1 then Parsed(pending + [c], [])
    else Parsed(pending, [])
  }

  function Parse(pending: Bytes, input: Bytes): Parsed {
    if input == [] then Parsed(pending, [])
    else
      var before := Parse(pending, input[..|input| - 1]);
      var last := Receive(before.pending, input[|input| - 1]);
      Parsed(last.pending, before.frames + last.frames)
  }

  lemma NothingParsed(pending: Bytes)
    ensures Parse(pending, []) == Parsed(pending, [])
  {
  }

  lemma ParseSnoc(pending: Bytes, input: Bytes, c: bv8)
    ensures var before := Parse(pending, input);
            var last := Receive(before.pending, c);
            Parse(pending, input + [c]) == Parsed(last.pending, before.frames + last.frames)
  {
    assert (input + [c])[..|input|] == input;
  }

  /** Where the stream is cut does not matter. */
  lemma {:induction false} ParseConcat(pending: Bytes, a: Bytes, b: Bytes)
    ensures var first := Parse(pending, a);
            var second := Parse(first.pending, b);
            Parse(pending, a + b) == Parsed(second.pending, first.frames + second.frames)
  {
    hide Receive;
    if b == [] {
      assert a + b == a;
    } else {
      var n := |b| - 1;
      var front, c := b[..n], b[n];
      ParseConcat(pending, a, front);
      assert b == front + [c] && a + b == (a + front) + [c];
      ParseSnoc(pending, a + front, c);
      ParseSnoc(Parse(pending, a).pending, front, c);
    }
  }

  function Joined(pieces: seq<Bytes>): Bytes {
    if pieces == [] then [] else Joined(pieces[..|pieces| - 1]) + pieces[|pieces| - 1]
  }

  /** The receiver run over a sequence of interrupts. */
  function ParsePieces(pending: Bytes, pieces: seq<Bytes>): Parsed {
    if pieces == [] then Parsed(pending, [])
    else
      var before := ParsePieces(pending, pieces[..|pieces| - 1]);
      var last := Parse(before.pending, pieces[|pieces| - 1]);
      Parsed(last.pending, before.frames + last.frames)
  }

  lemma {:induction false} SplittingIrrelevant(pending: Bytes, pieces: seq<Bytes>)
    ensures ParsePieces(pending, pieces) == Parse(pending, Joined(pieces))
  {
    if pieces != [] {
      var n := |pieces| - 1;
      SplittingIrrelevant(pending, pieces[..n]);
      ParseConcat(pending, Joined(pieces[..n]), pieces[n]);
    }
  }

  // ---------- what is delivered on any stream ----------

  predicate NoEndInside(p: Bytes) {
    forall i :: 1 <= i < |p| ==> p[i] != END
  }

  predicate ValidFrame(f: Bytes) {
    2 <= |f| <= RX_SIZE && f[|f| - 1] == END && NoEndInside(f[..|f| - 1])
  }

  predicate ValidPending(p: Bytes) {
    |p| < RX_SIZE && NoEndInside(p)
  }

  /** Whatever arrives, the buffer position stays below 100, and every delivered frame is 2 to 100 bytes,
      ends in 0xFD, and has no other 0xFD after its first byte. */
  lemma {:induction false} EveryFrameValid(pending: Bytes, input: Bytes)
    requires ValidPending(pending)
    ensures ValidPending(Parse(pending, input).pending)
    ensures forall f :: f in Parse(pending, input).frames ==>
              ValidFrame(f) && Pipeline.WellFormed(Pipeline.Message(Pipeline.As201Event, f))
  {
    if input != [] {
      var n := |input| - 1;
      EveryFrameValid(pending, input[..n]);
      ReceiveValid(Parse(pending, input[..n]).pending, input[n]);
    }
  }

  lemma ReceiveValid(pending: Bytes, c: bv8)
    requires ValidPending(pending)
    ensures var r := Receive(pending, c);
            ValidPending(r.pending) && forall f :: f in r.frames ==> ValidFrame(f)
  {
    if c == END && |pending| > 0 {
      assert (pending + [END])[..|pending|] == pending;
    }
  }

  // ---------- round trip ----------

  predicate Sendable(p: Bytes) {
    |p| > 0 && NoEndInside(p)
  }

  function Truncated(p: Bytes): Bytes {
    if |p| <= RX_SIZE - 1 then p else p[..RX_SIZE - 1]
  }

  function Wire(payloads: seq<Bytes>): Bytes {
    if payloads == [] then [] else Wire(payloads[..|payloads| - 1]) + (payloads[|payloads| - 1] + [END])
  }

  function Expected(payloads: seq<Bytes>): (e: seq<Bytes>)
    ensures |e| == |payloads|
  {
    seq(|payloads|, i requires 0 <= i < |payloads| => Truncated(payloads[i]) + [END])
  }

  lemma TruncatedSnoc(q: Bytes, c: bv8)
    requires c != END || q == []
    ensures Receive(Truncated(q), c) == Parsed(Truncated(q + [c]), [])
  {
    if |q| > RX_SIZE - 1 {
      assert (q + [c])[..RX_SIZE - 1] == q[..RX_SIZE - 1];
    } else if |q| == RX_SIZE - 1 {
      assert (q + [c])[..RX_SIZE - 1] == q;
    }
  }

  /** A byte that completes nothing extends a parse that completed nothing. */
  lemma QuietSnoc(q: Bytes, t: Bytes, c: bv8, t': Bytes)
    requires Parse([], q) == Parsed(t, []) && Receive(t, c) == Parsed(t', [])
    ensures Parse([], q + [c]) == Parsed(t', [])
  {
    ParseSnoc([], q, c);
  }

  lemma {:induction false} PayloadAccumulates(p: Bytes)
    requires NoEndInside(p)
    ensures Parse([], p) == Parsed(Truncated(p), [])
  {
    if p != [] {
      var n := |p| - 1;
      var q, c := p[..n], p[n];
      assert NoEndInside(q) && (c != END || q == []);
      hide Receive, Truncated, NoEndInside;
      PayloadAccumulates(q);
      assert p == q + [c];
      TruncatedSnoc(q, c);
      QuietSnoc(q, Truncated(q), c, Truncated(p));
    }
  }

  lemma OnePayload(p: Bytes)
    requires Sendable(p)
    ensures Parse([], p + [END]) == Parsed([], [Truncated(p) + [END]])
  {
    PayloadAccumulates(p);
    ParseSnoc([], p, END);
  }

  lemma ExpectedSnoc(payloads: seq<Bytes>)
    requires payloads != []
    ensures var n := |payloads| - 1;
            Expected(payloads) == Expected(payloads[..n]) + [Truncated(payloads[n]) + [END]]
  {
  }

  /** Any list of sendable payloads, each followed by 0xFD and cut into pieces in any way, is delivered
      in order, each payload cut to its first 99 bytes. */
  lemma {:induction false} RoundTrip(payloads: seq<Bytes>)
    requires forall p :: p in payloads ==> Sendable(p)
    ensures Parse([], Wire(payloads)) == Parsed([], Expected(payloads))
  {
    if payloads != [] {
      var n := |payloads| - 1;
      var front, p := payloads[..n], payloads[n];
      RoundTrip(front);
      OnePayload(p);
      ParseConcat([], Wire(front), p + [END]);
      ExpectedSnoc(payloads);
      hide Parse, Expected, Truncated, Sendable;
    }
  }

  lemma RoundTripInPieces(payloads: seq<Bytes>, pieces: seq<Bytes>)
    requires (forall p :: p in payloads ==> Sendable(p)) && Joined(pieces) == Wire(payloads)
    ensures ParsePieces([], pieces) == Parsed([], Expected(payloads))
  {
    RoundTrip(payloads);
    SplittingIrrelevant([], pieces);
  }

  /** Exactly these payloads come back whole: 1 to 99 bytes with no 0xFD after the first. */
  lemma WholeIff(p: Bytes)
    ensures Parse([], p + [END]) == Parsed([], [p + [END]]) <==> Sendable(p) && |p| <= RX_SIZE - 1
  {
    if Sendable(p) {
      OnePayload(p);
      if |p| > RX_SIZE - 1 { assert |Truncated(p) + [END]| < |p + [END]|; }
    } else {
      EveryFrameValid([], p + [END]);
      assert (p + [END])[..|p|] == p;
      assert !ValidFrame(p + [END]);
      assert p + [END] in [p + [END]];
    }
  }

  /** One payload on the wire, byte for byte: cut to 99 bytes, with the mark 0xFD behind it. */
  lemma OneFrame(p: Bytes)
    requires |p| >= 1 && forall i :: 1 <= i < |p| ==> p[i] != 0xFD
    ensures Parse([], p + [0xFD]) == Parsed([], [(if |p| <= 99 then p else p[..99]) + [0xFD]])
  {
    OnePayload(p);
  }

  /** Every stream is a list of such payloads and an unfinished rest, so the round trip says all there is to say. */
  lemma {:induction false} EveryStreamSplits(input: Bytes) returns (payloads: seq<Bytes>, rest: Bytes)
    ensures (forall p :: p in payloads ==> Sendable(p)) && NoEndInside(rest) && input == Wire(payloads) + rest
    ensures Parse([], input) == Parsed(Truncated(rest), Expected(payloads))
  {
    payloads, rest := SplitStream(input);
    RoundTrip(payloads);
    PayloadAccumulates(rest);
    ParseConcat([], Wire(payloads), rest);
    hide *;
    assert Expected(payloads) + [] == Expected(payloads);
  }

  lemma {:induction false} SplitStream(input: Bytes) returns (payloads: seq<Bytes>, rest: Bytes)
    ensures (forall p :: p in payloads ==> Sendable(p)) && NoEndInside(rest) && input == Wire(payloads) + rest
  {
    if input == [] {
      payloads, rest := [], [];
    } else {
      var front, c := input[..|input| - 1], input[|input| - 1];
      var before, open := SplitStream(front);
      assert input == front + [c];
      if c == END && open != [] {
        payloads, rest := before + [open], [];
        assert payloads[..|payloads| - 1] == before;
        assert Wire(payloads) == Wire(before) + (open + [END]);
      } else {
        payloads, rest := before, open + [c];
      }
    }
  }

  // ---------- the interrupt handler ----------

  class Receiver {
    const rxBuf: array<bv8>
    var rxBufPos: nat
    var txBufFlag: bool

    ghost predicate Valid()
      reads this, rxBuf
    {
      rxBuf.Length == RX_SIZE && rxBufPos < RX_SIZE
    }

    constructor ()
      ensures Valid() && rxBuf[..rxBufPos] == [] && txBufFlag && fresh(rxBuf)
    {
      rxBuf := new bv8[RX_SIZE](_ => 0);
      rxBufPos, txBufFlag := 0, true;
    }

    /** Read until the FIFO is empty; `frames` are the payloads handed to the queue. */
    method SerialCb(fifo: seq<bv8>) returns (frames: seq<Bytes>)
      requires Valid()
      modifies this, rxBuf
      ensures Valid()
      ensures Parsed(rxBuf[..rxBufPos], frames) == Parse(old(rxBuf[..rxBufPos]), fifo)
      ensures txBufFlag == (old(txBufFlag) || frames != [])
    {
      hide Parse;
      frames := [];
      var i := 0;
      NothingParsed(rxBuf[..rxBufPos]);
      while i < |fifo|
        invariant 0 <= i <= |fifo| && Valid()
        invariant Parsed(rxBuf[..rxBufPos], frames) == Parse(old(rxBuf[..rxBufPos]), fifo[..i])
        invariant txBufFlag == (old(txBufFlag) || frames != [])
      {
        var c := fifo[i];
        ParseSnoc(old(rxBuf[..rxBufPos]), fifo[..i], c);
        assert fifo[..i + 1] == fifo[..i] + [c];
        ghost var pending := rxBuf[..rxBufPos];
        if c == END && rxBufPos > 0 {
          rxBuf[rxBufPos] := END;
          assert rxBuf[..rxBufPos + 1] == pending + [END];
          frames := frames + [rxBuf[..rxBufPos + 1]];
          txBufFlag := true;
          rxBufPos := 0;
        } else if rxBufPos < RX_SIZE - 1 {
          rxBuf[rxBufPos] := c;
          rxBufPos := rxBufPos + 1;
          assert rxBuf[..rxBufPos] == pending + [c];
        }
        i := i + 1;
      }
      assert fifo[..|fifo|] == fifo;
    }
  }
}
