/** The frames byte by byte, over whole runs: which message each frame belongs to, and what stands where in it. */
module FrameLaws {
  import opened Options
  import opened Pipeline
  import opened Ownership
  import opened PipelineHistory
  import opened Producer

  // ---------- what was accepted ----------

  predicate AllWellFormed(h: seq<Message>) {
    forall i :: 0 <= i < |h| ==> WellFormed(h[i])
  }

  lemma PutWellFormed(s: State, owner: Owners, a: Action)
    requires Consistent(s, owner) && AllWellFormed(s.accepted)
    ensures AllWellFormed(Step(s, a).accepted)
  {
    if a.Advance? && a.t in s.calls && s.calls[a.t].Filled? && |s.queue| < QUEUE_SIZE {
      OwnBlocks(s, owner, a.t);
      assert WellFormed(s.calls[a.t].m);
    }
    hide Step, Consistent, WellFormed;
    QueueEffect(s, a);
  }

  lemma {:induction false} AcceptedWellFormed(actions: seq<Action>)
    ensures AllWellFormed(Run(Initial(), actions).accepted)
  {
    if actions != [] {
      var front := actions[..|actions| - 1];
      AcceptedWellFormed(front);
      var owner := RunKeeps(front);
      hide Step, AllWellFormed, Good;
      assert Good(Run(Initial(), front), owner);
      GoodConsistent(Run(Initial(), front), owner);
      PutWellFormed(Run(Initial(), front), owner, actions[|actions| - 1]);
    }
  }

  lemma GoodConsistent(s: State, owner: Owners)
    requires Good(s, owner)
    ensures Consistent(s, owner) && Fifo(s)
  {
  }

  // ---------- the latest reading before a message ----------

  /** Message j is the last one of its kind among the first n. */
  predicate Latest(h: seq<Message>, n: nat, e: Event, j: nat) {
    j < n <= |h| && h[j].event == e && forall k :: j < k < n ==> h[k].event != e
  }

  predicate NoneYet(h: seq<Message>, n: nat, e: Event)
    requires n <= |h|
  {
    forall k :: 0 <= k < n ==> h[k].event != e
  }

  lemma {:induction false} LastTwoIs(h: seq<Message>, n: nat, e: Event)
    requires n <= |h| && AllWellFormed(h) && (e == Aht20Event || e == Bmp280Event)
    ensures NoneYet(h, n, e) ==> LastTwo(h[..n], e) == [0, 0]
    ensures forall j: nat :: Latest(h, n, e, j) ==> |h[j].data| >= 2 && LastTwo(h[..n], e) == h[j].data[..2]
  {
    if n > 0 {
      var m := h[n - 1];
      assert h[..n][..n - 1] == h[..n - 1];
      assert WellFormed(m) && (m.event == e ==> |m.data| >= 2);
      LastTwoIs(h, n - 1, e);
      LastTwoSnoc(h, n, e);
      hide LastTwo, WellFormed, Latest, AllWellFormed;
      forall j: nat | Latest(h, n, e, j) ensures |h[j].data| >= 2 && LastTwo(h[..n], e) == h[j].data[..2] {
        LatestSplit(h, n, e, j);
      }
    }
  }

  lemma LastTwoSnoc(h: seq<Message>, n: nat, e: Event)
    requires 0 < n <= |h|
    ensures LastTwo(h[..n], e)
         == if h[n - 1].event == e && |h[n - 1].data| >= 2 then h[n - 1].data[..2] else LastTwo(h[..n - 1], e)
  {
    assert h[..n][..n - 1] == h[..n - 1];
  }

  lemma LatestSplit(h: seq<Message>, n: nat, e: Event, j: nat)
    requires Latest(h, n, e, j)
    ensures n > 0 && if j == n - 1 then h[n - 1].event == e else Latest(h, n - 1, e, j) && h[n - 1].event != e
  {
  }

  // ---------- the frames ----------

  function HrboCount(h: seq<Message>): nat {
    if h == [] then 0 else HrboCount(h[..|h| - 1]) + if h[|h| - 1].event == HrboEvent then 1 else 0
  }

  lemma {:induction false} FrameIndex(h: seq<Message>, i: nat)
    requires i < |h| && h[i].event == HrboEvent
    ensures |Frames(h)| == HrboCount(h)
    ensures HrboCount(h[..i]) < |Frames(h)| && Frames(h)[HrboCount(h[..i])] == FrameFor(h[..i], h[i].data)
  {
    var n := |h| - 1;
    var front := h[..n];
    FramesCount(h);
    hide FrameFor;
    if i < n {
      assert front[..i] == h[..i];
      FrameIndex(front, i);
    } else {
      FramesCount(front);
    }
  }

  lemma {:induction false} FramesCount(h: seq<Message>)
    ensures |Frames(h)| == HrboCount(h)
  {
    hide FrameFor;
    if h != [] { FramesCount(h[..|h| - 1]); }
  }

  /** Bytes 0 to 3 and 108 of a frame, and its length. */
  predicate Framed(frame: Bytes) {
    |frame| == 109 && frame[0] == 0x55 && frame[1] == 0xAA && frame[2] == 0 && frame[3] == 0x69 && frame[108] == 0xA5
  }

  /** Two bytes of a frame are the first two of the latest reading of a kind, or zero before the first one. */
  ghost predicate Carries(frame: Bytes, at: nat, h: seq<Message>, n: nat, e: Event)
    requires at + 2 <= |frame| && n <= |h|
  {
    && (NoneYet(h, n, e) ==> frame[at] == 0 && frame[at + 1] == 0)
    && forall j: nat :: Latest(h, n, e, j) ==>
         |h[j].data| >= 2 && frame[at] == h[j].data[0] && frame[at + 1] == h[j].data[1]
  }

  lemma FrameBytesAre(h: seq<Message>, i: nat)
    requires i < |h| && AllWellFormed(h) && h[i].event == HrboEvent
    ensures var frame := FrameFor(h[..i], h[i].data);
            && Framed(frame) && |h[i].data| == 100
            && Carries(frame, 4, h, i, Aht20Event) && Carries(frame, 6, h, i, Bmp280Event)
            && forall k :: 0 <= k < 100 ==> frame[8 + k] == h[i].data[k]
  {
    assert WellFormed(h[i]);
    LastTwoIs(h, i, Aht20Event);
    LastTwoIs(h, i, Bmp280Event);
    hide LastTwo, AllWellFormed, Latest, NoneYet;
    var a, b := LastTwo(h[..i], Aht20Event), LastTwo(h[..i], Bmp280Event);
    var frame := FrameFor(h[..i], h[i].data);
    assert frame[4] == a[0] && frame[5] == a[1] && frame[6] == b[0] && frame[7] == b[1];
  }

  /** Over every run: for each heart-rate message acted on there is one frame, in order; it begins with 55 AA 00 69 and
      ends with A5, bytes 4 and 5 are the first two of the latest temperature message taken before it, bytes 6 and 7
      those of the latest pressure message, and the hundred bytes from 8 on are its own. */
  lemma {:induction false} FramesSpelledOut(actions: seq<Action>, i: nat)
    requires i < |Processed(Run(Initial(), actions))|
    requires Processed(Run(Initial(), actions))[i].event == HrboEvent
    ensures var s := Run(Initial(), actions);
            var h := Processed(s);
            && |s.frames| == HrboCount(h) && HrboCount(h[..i]) < |s.frames| && |h[i].data| == 100
            && var frame := s.frames[HrboCount(h[..i])];
               && Framed(frame) && Carries(frame, 4, h, i, Aht20Event) && Carries(frame, 6, h, i, Bmp280Event)
               && forall k :: 0 <= k < 100 ==> frame[8 + k] == h[i].data[k]
  {
    var s := Run(Initial(), actions);
    var h := Processed(s);
    ProcessedWellFormed(actions);
    FramesAreFunctionOfHistory(actions);
    hide Run, Processed, Frames, FrameFor, Carries, Framed, WellFormed;
    FrameIndex(h, i);
    FrameBytesAre(h, i);
  }

  lemma ProcessedWellFormed(actions: seq<Action>)
    ensures AllWellFormed(Processed(Run(Initial(), actions)))
  {
    var s := Run(Initial(), actions);
    AcceptedWellFormed(actions);
    QueueConservation(actions);
    hide Run, WellFormed, Queued;
    assert s.dequeued <= s.accepted;
    assert Processed(s) <= s.dequeued;
    forall i | 0 <= i < |Processed(s)| ensures WellFormed(Processed(s)[i]) {
      assert Processed(s)[i] == s.accepted[i];
    }
  }

  // ---------- the queue and the buffer ----------

  /** A call whose allocations succeed is accepted exactly when fewer than a hundred messages are queued. */
  lemma CapacityIsHundred(s: State, t: nat, m: Message, p: Ptr, d: Ptr)
    requires t !in s.calls && WellFormed(m) && p !in s.heap && d !in s.heap && p != d
    ensures var s' := Run(s, CallScript(t, m, Some(p), Some(d)));
            && s'.accepted == (if |s.queue| < 100 then s.accepted + [m] else s.accepted)
            && s'.dropped == s.dropped + (if |s.queue| < 100 then 0 else 1)
            && s'.events == if |s.queue| < 100 then s.events + {m.event} else s.events
  {
    hide Run, CallScript;
    CallRuns(s, t, m, Some(p), Some(d));
  }

  /** An inertial frame is copied to the buffer from byte 8 on and sends nothing; a distance message does nothing. */
  lemma QuietMessages(tx: Bytes, m: Message, k: nat)
    requires |tx| == 109 && WellFormed(m) && k < 109 && (m.event == As201Event || m.event == Ld2410cEvent)
    ensures Process(tx, m).Some? && Process(tx, m).value.1 == [] && |Process(tx, m).value.0| == 109
    ensures Process(tx, m).value.0[k]
         == if m.event == As201Event && 8 <= k < 8 + |m.data| then m.data[k - 8] else tx[k]
  {
  }
}
