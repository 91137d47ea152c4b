/** Whole-run facts about the pipeline: FIFO conservation, accounting of every submission, and the frame
    as a function of the dequeued history. */
module PipelineHistory {
  import opened Options
  import opened Pipeline
  import opened Ownership

  // ---------- what the frames should be ----------

  function LastTwo(h: seq<Message>, e: Event): (b: Bytes)
    ensures |b| == 2
  {
    if h == [] then [0, 0]
    else
      var last := h[|h| - 1];
      if last.event == e && |last.data| >= 2 then last.data[..2] else LastTwo(h[..|h| - 1], e)
  }

  /** 55 AA, the length 0x0069, two temperature bytes, two pressure bytes, the heart-rate payload, A5. */
  function FrameFor(h: seq<Message>, payload: Bytes): Bytes {
    [0x55, 0xAA, 0x00, 0x69] + LastTwo(h, Aht20Event) + LastTwo(h, Bmp280Event) + payload + [0xA5]
  }

  /** One frame per dequeued heart-rate message, from what was dequeued before it. */
  function Frames(h: seq<Message>): seq<Bytes> {
    if h == [] then []
    else
      var front, last := h[..|h| - 1], h[|h| - 1];
      Frames(front) + if last.event == HrboEvent then [FrameFor(front, last.data)] else []
  }

  ghost predicate BufferOk(tx: Bytes, h: seq<Message>) {
    && |tx| == TX_SIZE
    && tx[4..6] == LastTwo(h, Aht20Event)
    && tx[6..8] == LastTwo(h, Bmp280Event)
    && (tx[108] == 0 || tx[108] == 0xA5)
  }

  lemma HrboFrame(tx: Bytes, m: Message, h: seq<Message>)
    requires BufferOk(tx, h) && m.event == HrboEvent && |m.data| == 100
    ensures Process(tx, m).Some?
    ensures Process(tx, m).value.0 == FrameFor(h, m.data)
    ensures Process(tx, m).value.1 == [FrameFor(h, m.data)]
  {
    var header: Bytes := [0x55, 0xAA, 0x00, 0x69];
    hide LastTwo, FrameFor;
    FrameBytes(header, tx, m.data, LastTwo(h, Aht20Event), LastTwo(h, Bmp280Event));
    FrameParts(h, m.data);
  }

  lemma FrameParts(h: seq<Message>, payload: Bytes)
    ensures FrameFor(h, payload)
         == [0x55, 0xAA, 0x00, 0x69] + LastTwo(h, Aht20Event) + LastTwo(h, Bmp280Event) + payload + [0xA5]
  {
  }

  /** Overwriting the header, then the payload from byte 8 on, then the last byte. */
  lemma FrameBytes(header: Bytes, tx: Bytes, payload: Bytes, a: Bytes, b: Bytes)
    requires |header| == 4 && |tx| == TX_SIZE && |payload| == 100 && tx[4..6] == a && tx[6..8] == b
    ensures |header + tx[4..]| == TX_SIZE
    ensures Write(header + tx[4..], 8, payload).Some?
    ensures |Write(header + tx[4..], 8, payload).value| == TX_SIZE
    ensures Write(header + tx[4..], 8, payload).value[108 := 0xA5] == header + a + b + payload + [0xA5]
  {
    var full := header + tx[4..];
    var w := full[..8] + payload + full[108..];
    var frame := header + a + b + payload + [0xA5];
    forall k | 0 <= k < TX_SIZE ensures w[108 := 0xA5][k] == frame[k] {
      if k < 4 {
      } else if k < 6 {
        assert tx[k] == a[k - 4];
      } else if k < 8 {
        assert tx[k] == b[k - 6];
      }
    }
    assert w[108 := 0xA5] == frame;
  }

  lemma ProcessRefines(tx: Bytes, m: Message, h: seq<Message>)
    requires BufferOk(tx, h) && WellFormed(m)
    ensures Process(tx, m).Some?
    ensures BufferOk(Process(tx, m).value.0, h + [m])
    ensures Process(tx, m).value.1 == if m.event == HrboEvent then [FrameFor(h, m.data)] else []
  {
    assert (h + [m])[..|h|] == h;
    var tx' := Process(tx, m).value.0;
    match m.event
    case HrboEvent =>
      HrboFrame(tx, m, h);
      assert tx'[4..6] == LastTwo(h, Aht20Event) && tx'[6..8] == LastTwo(h, Bmp280Event);
    case Aht20Event =>
      assert tx'[4..6] == m.data[..2] && tx'[6..8] == tx[6..8];
    case Bmp280Event =>
      assert tx'[6..8] == m.data[..2] && tx'[4..6] == tx[4..6];
    case As201Event =>
      assert tx'[4..6] == tx[4..6] && tx'[6..8] == tx[6..8] && tx'[108] == tx[108];
    case Ld2410cEvent =>
  }

  // ---------- invariants over histories ----------

  ghost predicate AllReadable(s: State) {
    forall i :: 0 <= i < |s.queue| ==> Readable(s.heap, s.queue[i])
  }

  function Queued(heap: map<Ptr, Block>, queue: seq<Ptr>): (q: seq<Message>)
    requires forall i :: 0 <= i < |queue| ==> Readable(heap, queue[i])
    ensures |q| == |queue|
  {
    seq(|queue|, i requires 0 <= i < |queue| => Contents(heap, queue[i]))
  }

  /** Everything accepted is either already dequeued or still queued, in acceptance order, unchanged. */
  ghost predicate Fifo(s: State) {
    AllReadable(s) && s.accepted == s.dequeued + Queued(s.heap, s.queue)
  }

  predicate Undecided(c: Call) {
    c.Entered? || c.MsgTried? || c.BothTried? || c.Filled?
  }

  function UndecidedCalls(s: State): set<nat> {
    set t | t in s.calls && Undecided(s.calls[t])
  }

  /** Every submission is accepted, dropped, or not yet decided. */
  ghost predicate Accounted(s: State) {
    s.submitted == |s.accepted| + s.dropped + |UndecidedCalls(s)|
  }

  /** What the consumer has finished looking at. */
  function Processed(s: State): seq<Message> {
    if s.consumer.Handling? && s.dequeued != [] then s.dequeued[..|s.dequeued| - 1] else s.dequeued
  }

  ghost predicate FramesOk(s: State) {
    && (s.consumer.Handling? ==>
          s.dequeued != [] && Readable(s.heap, s.consumer.msg)
          && Contents(s.heap, s.consumer.msg) == s.dequeued[|s.dequeued| - 1])
    && s.frames == Frames(Processed(s))
    && BufferOk(s.tx, Processed(s))
  }

  // ---------- preservation ----------

  /** No step changes the contents of a queued message, or of the one being handled before it is handled. */
  lemma ContentsKept(s: State, owner: Owners, a: Action, p: Ptr)
    requires Consistent(s, owner)
    requires p in s.queue || (s.consumer == Handling(p))
    ensures Readable(s.heap, p)
    ensures Readable(Step(s, a).heap, p) && Contents(Step(s, a).heap, p) == Contents(s.heap, p)
  {
    assert p in s.queue ==> QueuedOk(s.heap, owner, p);
    var d := s.heap[p].data;
    BlockKept(s, owner, a, p);
    BlockKept(s, owner, a, d);
  }

  lemma BlockKept(s: State, owner: Owners, a: Action, p: Ptr)
    requires Consistent(s, owner) && p in owner && !owner[p].Caller?
    requires a == Consume && (owner[p].ReaderMsg? || owner[p].ReaderData?) ==> s.consumer.Handling?
    ensures p in Step(s, a).heap && Step(s, a).heap[p] == s.heap[p]
  {
    match a
    case Advance(t) => if t in s.calls { OwnBlocks(s, owner, t); AdvanceTouchesOwn(s, t, p); }
    case _ =>
  }

  /** Advancing a call only changes blocks the call holds. */
  lemma AdvanceTouchesOwn(s: State, t: nat, p: Ptr)
    requires t in s.calls && p in s.heap && p !in Held(s.calls[t])
    ensures p in AdvanceStep(s, t).heap && AdvanceStep(s, t).heap[p] == s.heap[p]
  {
  }

  /** The queue only changes by a put at the back or a get at the front, recorded in the histories. */
  lemma QueueEffect(s: State, a: Action)
    ensures var s' := Step(s, a);
            if a.Advance? && a.t in s.calls && s.calls[a.t].Filled? && |s.queue| < QUEUE_SIZE then
              && s'.queue == s.queue + [s.calls[a.t].msgPtr] && s'.accepted == s.accepted + [s.calls[a.t].m]
              && s'.dequeued == s.dequeued && s'.heap == s.heap
            else if a == Consume && s.consumer == Fetching && s.queue != [] && Readable(s.heap, s.queue[0]) then
              && s'.queue == s.queue[1..] && s'.accepted == s.accepted
              && s'.dequeued == s.dequeued + [Contents(s.heap, s.queue[0])] && s'.heap == s.heap
            else
              s'.queue == s.queue && s'.accepted == s.accepted && s'.dequeued == s.dequeued
  {
    match a
    case Enter(_, _) =>
    case Malloc(t, r) =>
    case Consume =>
    case Advance(t) =>
  }

  lemma FifoStep(s: State, owner: Owners, a: Action)
    requires Consistent(s, owner) && Fifo(s)
    ensures Fifo(Step(s, a))
  {
    var s' := Step(s, a);
    if a.Advance? && a.t in s.calls && s.calls[a.t].Filled? && |s.queue| < QUEUE_SIZE {
      FifoPutStep(s, owner, a.t);
    } else if a == Consume && s.consumer == Fetching {
      FifoGetStep(s, owner);
    } else {
      FifoOtherStep(s, owner, a);
    }
  }

  lemma FifoPutStep(s: State, owner: Owners, t: nat)
    requires Consistent(s, owner) && Fifo(s) && t in s.calls && s.calls[t].Filled? && |s.queue| < QUEUE_SIZE
    ensures Fifo(Step(s, Advance(t)))
  {
    var c := s.calls[t];
    OwnBlocks(s, owner, t);
    hide Consistent;
    QueueEffect(s, Advance(t));
    FifoPut(s.heap, s.queue, c.msgPtr);
    assert Contents(s.heap, c.msgPtr) == c.m;
    hide Step, Queued, Readable, Contents;
    assert (s.dequeued + Queued(s.heap, s.queue)) + [c.m] == s.dequeued + (Queued(s.heap, s.queue) + [c.m]);
  }

  lemma QueueHead(s: State, owner: Owners)
    requires Consistent(s, owner) && s.consumer == Fetching
    ensures s.queue != [] && QueuedOk(s.heap, owner, s.queue[0]) && Readable(s.heap, s.queue[0])
  {
    assert s.queue[0] in s.queue && QueuedOk(s.heap, owner, s.queue[0]);
  }

  lemma FifoGetStep(s: State, owner: Owners)
    requires Consistent(s, owner) && Fifo(s) && s.consumer == Fetching
    ensures Fifo(Step(s, Consume))
  {
    hide Consistent, Step, Queued, Readable, Contents;
    QueueHead(s, owner);
    QueueEffect(s, Consume);
    FifoGet(s.heap, s.queue);
    var m := Contents(s.heap, s.queue[0]);
    assert (s.dequeued + [m]) + Queued(s.heap, s.queue[1..]) == s.dequeued + ([m] + Queued(s.heap, s.queue[1..]));
  }

  lemma FifoOtherStep(s: State, owner: Owners, a: Action)
    requires Consistent(s, owner) && Fifo(s)
    requires !(a.Advance? && a.t in s.calls && s.calls[a.t].Filled? && |s.queue| < QUEUE_SIZE)
    requires !(a == Consume && s.consumer == Fetching)
    ensures Fifo(Step(s, a))
  {
    var s' := Step(s, a);
    hide Consistent, Step, Readable, Contents;
    QueueEffect(s, a);
    forall p | p in s.queue ensures Readable(s'.heap, p) && Contents(s'.heap, p) == Contents(s.heap, p) {
      ContentsKept(s, owner, a, p);
    }
    assert Queued(s'.heap, s'.queue) == Queued(s.heap, s.queue);
  }

  lemma FifoPut(heap: Heap, queue: seq<Ptr>, p: Ptr)
    requires (forall i :: 0 <= i < |queue| ==> Readable(heap, queue[i])) && Readable(heap, p)
    ensures forall i :: 0 <= i < |queue + [p]| ==> Readable(heap, (queue + [p])[i])
    ensures Queued(heap, queue + [p]) == Queued(heap, queue) + [Contents(heap, p)]
  {
  }

  lemma FifoGet(heap: Heap, queue: seq<Ptr>)
    requires queue != [] && forall i :: 0 <= i < |queue| ==> Readable(heap, queue[i])
    ensures forall i :: 0 <= i < |queue[1..]| ==> Readable(heap, queue[1..][i])
    ensures Queued(heap, queue) == [Contents(heap, queue[0])] + Queued(heap, queue[1..])
  {
  }

  function Weight(s: State, t: nat): nat {
    if t in s.calls && Undecided(s.calls[t]) then 1 else 0
  }

  /** A step of call `t` leaves the other calls alone, and moves its own submission between the accounts. */
  ghost predicate Settles(s: State, s': State, t: nat) {
    && s'.calls - {t} == s.calls - {t}
    && s'.submitted - |s'.accepted| - s'.dropped - Weight(s', t)
       == s.submitted - |s.accepted| - s.dropped - Weight(s, t)
  }

  lemma EnterSettles(s: State, t: nat, m: Message)
    ensures Settles(s, Step(s, Enter(t, m)), t)
  {
  }

  lemma MallocSettles(s: State, t: nat, r: Option<Ptr>)
    ensures Settles(s, Step(s, Malloc(t, r)), t)
  {
  }

  lemma AdvanceSettles(s: State, t: nat)
    ensures Settles(s, Step(s, Advance(t)), t)
  {
    if t in s.calls {
      match s.calls[t]
      case BothTried(m, msg, data) =>
      case Filled(m, msg, data) =>
      case Dropping(first, second) =>
      case DroppingLast(last) =>
      case Posting(event) =>
      case _ =>
    }
  }

  lemma ConsumeSettles(s: State, t: nat)
    ensures Settles(s, Step(s, Consume), t)
  {
  }

  lemma UndecidedSplit(s: State, t: nat)
    ensures |UndecidedCalls(s)| == |UndecidedCalls(s.(calls := s.calls - {t}))| + Weight(s, t)
  {
    hide Undecided;
    var u, v := UndecidedCalls(s), UndecidedCalls(s.(calls := s.calls - {t}));
    assert v == u - {t};
  }

  lemma UndecidedStep(s: State, s': State, t: nat)
    requires s'.calls - {t} == s.calls - {t}
    ensures |UndecidedCalls(s')| - Weight(s', t) == |UndecidedCalls(s)| - Weight(s, t)
  {
    UndecidedSplit(s, t);
    UndecidedSplit(s', t);
    assert UndecidedCalls(s.(calls := s.calls - {t})) == UndecidedCalls(s'.(calls := s'.calls - {t}));
  }

  lemma AccountedStep(s: State, a: Action)
    requires Accounted(s)
    ensures Accounted(Step(s, a))
  {
    hide Step, Weight, UndecidedCalls;
    var t: nat := match a
      case Enter(t, _) => t
      case Malloc(t, _) => t
      case Advance(t) => t
      case Consume => 0;
    match a {
      case Enter(_, m) => EnterSettles(s, t, m);
      case Malloc(_, r) => MallocSettles(s, t, r);
      case Advance(_) => AdvanceSettles(s, t);
      case Consume => ConsumeSettles(s, t);
    }
    UndecidedStep(s, Step(s, a), t);
  }

  lemma FramesSnoc(h: seq<Message>, m: Message)
    ensures Frames(h + [m]) == Frames(h) + if m.event == HrboEvent then [FrameFor(h, m.data)] else []
  {
    assert (h + [m])[..|h|] == h;
  }

  lemma ConsumerEffect(s: State, a: Action)
    requires a != Consume
    ensures var s' := Step(s, a);
            s'.consumer == s.consumer && s'.tx == s.tx && s'.frames == s.frames && s'.dequeued == s.dequeued
  {
    match a
    case Enter(_, _) =>
    case Malloc(t, r) =>
    case Advance(t) =>
  }

  lemma FramesStep(s: State, owner: Owners, a: Action)
    requires Consistent(s, owner) && FramesOk(s)
    ensures FramesOk(Step(s, a))
  {
    if a == Consume {
      if s.consumer.Handling? {
        HandleFrames(s);
      } else {
        OtherFrames(s, owner);
      }
    } else {
      ConsumerEffect(s, a);
      if s.consumer.Handling? { ContentsKept(s, owner, a, s.consumer.msg); }
    }
  }

  lemma OtherFrames(s: State, owner: Owners)
    requires Consistent(s, owner) && FramesOk(s) && !s.consumer.Handling?
    ensures FramesOk(ConsumeStep(s))
  {
    if s.consumer.Fetching? {
      assert s.queue[0] in s.queue && QueuedOk(s.heap, owner, s.queue[0]);
      var m := Contents(s.heap, s.queue[0]);
      assert (s.dequeued + [m])[..|s.dequeued|] == s.dequeued;
    }
  }

  lemma HandleFrames(s: State)
    requires FramesOk(s) && s.consumer.Handling? && WellFormed(Contents(s.heap, s.consumer.msg))
    ensures FramesOk(ConsumeStep(s))
  {
    var m, h := Contents(s.heap, s.consumer.msg), Processed(s);
    assert s.dequeued == h + [m];
    ProcessRefines(s.tx, m, h);
    FramesSnoc(h, m);
  }

  // ---------- every reachable state ----------

  lemma InitiallyOk()
    ensures Consistent(Initial(), map[]) && Fifo(Initial()) && Accounted(Initial()) && FramesOk(Initial())
  {
    var s := Initial();
    assert UndecidedCalls(s) == {};
    assert Queued(s.heap, s.queue) == [];
    assert s.tx[4..6] == [0, 0] && s.tx[6..8] == [0, 0];
  }

  ghost predicate Good(s: State, owner: Owners) {
    Consistent(s, owner) && Fifo(s) && FramesOk(s)
  }

  /** Every run from a good state stays good. */
  lemma {:induction false} RunFrom(s: State, owner: Owners, actions: seq<Action>) returns (owner': Owners)
    requires Good(s, owner)
    ensures Good(Run(s, actions), owner')
    ensures Accounted(s) ==> Accounted(Run(s, actions))
  {
    owner' := owner;
    if actions != [] {
      var n := |actions| - 1;
      var before := RunFrom(s, owner, actions[..n]);
      var r := Run(s, actions[..n]);
      owner' := StepKeeps(r, before, actions[n]);
      FifoStep(r, before, actions[n]);
      FramesStep(r, before, actions[n]);
      if Accounted(s) { AccountedStep(r, actions[n]); }
    }
  }

  lemma RunKeeps(actions: seq<Action>) returns (owner: Owners)
    ensures Good(Run(Initial(), actions), owner) && Accounted(Run(Initial(), actions))
  {
    InitiallyOk();
    owner := RunFrom(Initial(), map[], actions);
  }

  /** In every interleaving: accepted messages leave the queue in order and unchanged, every submission is
      accounted for, the queue stays within its bound, and no block is freed twice or used after its release. */
  lemma {:induction false} QueueConservation(actions: seq<Action>)
    ensures var s := Run(Initial(), actions);
            && !s.fault && |s.queue| <= QUEUE_SIZE
            && AllReadable(s) && s.accepted == s.dequeued + Queued(s.heap, s.queue)
            && s.submitted == |s.accepted| + s.dropped + |UndecidedCalls(s)|
  {
    var owner := RunKeeps(actions);
  }

  /** In every interleaving the frames sent are a function of what was dequeued: one per heart-rate message,
      with the latest temperature and pressure bytes dequeued before it. */
  lemma {:induction false} FramesAreFunctionOfHistory(actions: seq<Action>)
    ensures var s := Run(Initial(), actions);
            s.frames == Frames(Processed(s)) && BufferOk(s.tx, Processed(s))
  {
    var owner := RunKeeps(actions);
  }

  // ---------- counting live blocks ----------

  function Elements(xs: seq<Ptr>): set<Ptr> {
    set p | p in xs
  }

  function DataOf(heap: Heap, p: Ptr): Ptr {
    if p in heap && heap[p].MsgBlock? then heap[p].data else p
  }

  function Datas(heap: Heap, queue: seq<Ptr>): (d: seq<Ptr>)
    ensures |d| == |queue| && forall i :: 0 <= i < |d| ==> d[i] == DataOf(heap, queue[i])
  {
    seq(|queue|, i requires 0 <= i < |queue| => DataOf(heap, queue[i]))
  }

  /** Both blocks of every queued message. */
  function QueueBlocks(s: State): set<Ptr> {
    Elements(s.queue) + Elements(Datas(s.heap, s.queue))
  }

  function ReaderBlocks(s: State): set<Ptr> {
    match s.consumer
    case Handling(p) => if Readable(s.heap, p) then {p, s.heap[p].data} else {p}
    case FreeingData(p, d) => {p, d}
    case FreeingMsg(p) => {p}
    case _ => {}
  }

  /** Blocks held by calls of the producer function that have not returned. */
  function CallBlocks(s: State): set<Ptr> {
    set t, p | t in s.calls && p in Held(s.calls[t]) :: p
  }

  /** Blocks held by a step in progress. */
  function InProgress(s: State): set<Ptr> {
    CallBlocks(s) + ReaderBlocks(s)
  }

  lemma {:induction false} DistinctCount(xs: seq<Ptr>)
    requires forall i, j :: 0 <= i < j < |xs| ==> xs[i] != xs[j]
    ensures |Elements(xs)| == |xs|
  {
    if xs != [] {
      var n := |xs| - 1;
      DistinctCount(xs[..n]);
      assert xs == xs[..n] + [xs[n]];
      assert Elements(xs) == Elements(xs[..n]) + {xs[n]};
    }
  }

  lemma QueueBlocksCount(s: State, owner: Owners)
    requires Consistent(s, owner)
    ensures |QueueBlocks(s)| == 2 * |s.queue|
  {
    var ds := Datas(s.heap, s.queue);
    forall i | 0 <= i < |s.queue|
      ensures s.queue[i] in owner && owner[s.queue[i]] == QueuedMsg
      ensures ds[i] in owner && owner[ds[i]] == QueuedData(s.queue[i])
    {
      assert s.queue[i] in s.queue && QueuedOk(s.heap, owner, s.queue[i]);
    }
    DistinctCount(s.queue);
    DistinctCount(ds);
    assert Elements(s.queue) !! Elements(ds);
  }

  lemma LiveBlocksSplit(s: State, owner: Owners)
    requires Consistent(s, owner) && AllReadable(s)
    ensures s.heap.Keys == QueueBlocks(s) + InProgress(s)
    ensures QueueBlocks(s) !! InProgress(s)
  {
    forall p | p in QueueBlocks(s) ensures p in s.heap && p in owner && (owner[p].QueuedMsg? || owner[p].QueuedData?) {
      var i :| 0 <= i < |s.queue| && (p == s.queue[i] || p == Datas(s.heap, s.queue)[i]);
      assert s.queue[i] in s.queue && QueuedOk(s.heap, owner, s.queue[i]);
    }
    forall p | p in InProgress(s) ensures p in s.heap && p in owner && !(owner[p].QueuedMsg? || owner[p].QueuedData?) {
      if p !in ReaderBlocks(s) {
        var t :| t in s.calls && p in Held(s.calls[t]);
        OwnBlocks(s, owner, t);
      }
    }
    forall p | p in s.heap ensures p in QueueBlocks(s) + InProgress(s) {
      HolderCounted(s, owner, p);
    }
  }

  lemma HolderCounted(s: State, owner: Owners, p: Ptr)
    requires Consistent(s, owner) && AllReadable(s) && p in s.heap
    ensures p in QueueBlocks(s) + InProgress(s)
  {
    assert p in owner && Holds(s, owner[p], p);
    match owner[p]
    case QueuedMsg =>
      var i :| 0 <= i < |s.queue| && s.queue[i] == p;
    case QueuedData(m) =>
      var i :| 0 <= i < |s.queue| && s.queue[i] == m;
      assert Datas(s.heap, s.queue)[i] == p;
    case _ =>
  }

  lemma HoldersDisjoint(s: State, owner: Owners)
    requires Consistent(s, owner)
    ensures forall t, u :: t in s.calls && u in s.calls && t != u ==> Held(s.calls[t]) !! Held(s.calls[u])
    ensures forall t :: t in s.calls ==> Held(s.calls[t]) !! ReaderBlocks(s)
  {
    forall t, u | t in s.calls && u in s.calls && t != u ensures Held(s.calls[t]) !! Held(s.calls[u]) {
      OwnBlocks(s, owner, t);
      OwnBlocks(s, owner, u);
    }
    forall t | t in s.calls ensures Held(s.calls[t]) !! ReaderBlocks(s) {
      OwnBlocks(s, owner, t);
    }
  }

  /** In every interleaving the live blocks are two per queued message plus those held by a step in progress,
      and no two calls, nor a call and the consumer, hold the same block. */
  lemma {:induction false} OwnershipConservation(actions: seq<Action>)
    ensures var s := Run(Initial(), actions);
            && s.heap.Keys == QueueBlocks(s) + InProgress(s) && QueueBlocks(s) !! InProgress(s)
            && |s.heap.Keys| == 2 * |s.queue| + |InProgress(s)|
            && (forall t, u :: t in s.calls && u in s.calls && t != u ==> Held(s.calls[t]) !! Held(s.calls[u]))
            && (forall t :: t in s.calls ==> Held(s.calls[t]) !! ReaderBlocks(s))
  {
    var s := Run(Initial(), actions);
    var owner := RunKeeps(actions);
    LiveBlocksSplit(s, owner);
    QueueBlocksCount(s, owner);
    HoldersDisjoint(s, owner);
    DisjointCount(QueueBlocks(s), InProgress(s));
  }

  lemma DisjointCount(a: set<Ptr>, b: set<Ptr>)
    requires a !! b
    ensures |a + b| == |a| + |b|
  {
  }
}
