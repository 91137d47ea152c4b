/** The producer function and the consumer thread as sequential code over the shared heap, queue and
    transmit buffer. Each method is proved to be one run of the interleaved machine of `Pipeline`, executed
    without interruption, so every whole-run fact of `PipelineHistory` covers it. */
module Producer {
  import opened Copying
  import opened Options
  import opened Pipeline
  import opened Ownership
  import opened PipelineHistory
  import opened Draining

  function Advances(t: nat, n: nat): (a: seq<Action>)
    ensures |a| == n
  {
    seq(n, _ => Advance(t))
  }

  /** One complete call: two allocations, then fill, put and post, or the releases of the failure paths.
      A step of a call that has already returned does nothing. */
  function CallScript(t: nat, m: Message, a1: Option<Ptr>, a2: Option<Ptr>): seq<Action> {
    [Enter(t, m)] + ([Malloc(t, a1)] + ([Malloc(t, a2)] + Advances(t, 4)))
  }

  /** What a complete, uninterrupted call leaves behind. */
  function AfterCall(s: State, m: Message, a1: Option<Ptr>, a2: Option<Ptr>): State {
    if a1.Some? && a2.Some? && |s.queue| < QUEUE_SIZE then
      s.(heap := s.heap[a2.value := DataBlock(m.data)][a1.value := MsgBlock(m.event, a2.value)],
         queue := s.queue + [a1.value], events := s.events + {m.event},
         submitted := s.submitted + 1, accepted := s.accepted + [m])
    else s.(submitted := s.submitted + 1, dropped := s.dropped + 1)
  }

  predicate FreshPair(heap: Heap, a1: Option<Ptr>, a2: Option<Ptr>) {
    && (a1.Some? ==> a1.value !in heap)
    && (a2.Some? ==> a2.value !in heap && a1 != a2)
  }

  lemma RunFirst(s: State, x: Action, rest: seq<Action>, s': State)
    requires Step(s, x) == s'
    ensures Run(s, [x] + rest) == Run(s', rest)
  {
    assert [x][..0] == [];
    assert Run(s, [x]) == Step(Run(s, [x][..0]), x);
    RunConcat(s, [x], rest);
  }

  lemma AdvanceFirst(s: State, t: nat, n: nat, s': State)
    requires AdvanceStep(s, t) == s'
    ensures Run(s, Advances(t, n + 1)) == Run(s', Advances(t, n))
  {
    assert Advances(t, n + 1) == [Advance(t)] + Advances(t, n);
    RunFirst(s, Advance(t), Advances(t, n), s');
  }

  lemma {:induction false} Returned(s: State, t: nat, n: nat)
    requires t !in s.calls
    ensures Run(s, Advances(t, n)) == s
  {
    if n > 0 {
      AdvanceFirst(s, t, n - 1, s);
      Returned(s, t, n - 1);
    }
  }

  /** The two releases of a failed call. */
  lemma DroppingRuns(s: State, t: nat, first: Option<Ptr>, second: Option<Ptr>, n: nat)
    requires t in s.calls && s.calls[t] == Dropping(first, second)
    requires Opt(first) + Opt(second) <= s.heap.Keys && (first.Some? ==> first != second)
    ensures Run(s, Advances(t, n + 2)) == s.(heap := s.heap - Opt(first) - Opt(second), calls := s.calls - {t})
  {
    var s1 := s.(heap := s.heap - Opt(first), calls := s.calls[t := DroppingLast(second)]);
    FreeOpt(s, first);
    AdvanceFirst(s, t, n + 1, s1);
    var s2 := s.(heap := s.heap - Opt(first) - Opt(second), calls := s.calls - {t});
    FreeOpt(s1, second);
    assert s1.calls - {t} == s.calls - {t};
    AdvanceFirst(s1, t, n, s2);
    Returned(s2, t, n);
  }

  lemma FailedAllocationRuns(s: State, t: nat, m: Message, a1: Option<Ptr>, a2: Option<Ptr>, n: nat)
    requires t in s.calls && s.calls[t] == BothTried(m, a1, a2)
    requires (a1.None? || a2.None?) && Opt(a1) + Opt(a2) <= s.heap.Keys
    ensures Run(s, Advances(t, n + 3))
         == s.(heap := s.heap - Opt(a1) - Opt(a2), calls := s.calls - {t}, dropped := s.dropped + 1)
  {
    var s1 := s.(calls := s.calls[t := Dropping(a1, a2)], dropped := s.dropped + 1);
    AdvanceFirst(s, t, n + 2, s1);
    DroppingRuns(s1, t, a1, a2, n);
    assert s1.calls - {t} == s.calls - {t};
  }

  lemma FilledRuns(s: State, t: nat, m: Message, p: Ptr, d: Ptr, n: nat)
    requires t in s.calls && s.calls[t] == Filled(m, p, d) && p in s.heap && d in s.heap && p != d
    ensures Run(s, Advances(t, n + 3))
         == if |s.queue| < QUEUE_SIZE then
              s.(queue := s.queue + [p], events := s.events + {m.event},
                 calls := s.calls - {t}, accepted := s.accepted + [m])
            else
              s.(heap := s.heap - {d} - {p}, calls := s.calls - {t}, dropped := s.dropped + 1)
  {
    hide Run, Advances;
    if |s.queue| < QUEUE_SIZE {
      var s1 := s.(queue := s.queue + [p], calls := s.calls[t := Posting(m.event)], accepted := s.accepted + [m]);
      AdvanceFirst(s, t, n + 2, s1);
      var s2 := s1.(events := s1.events + {m.event}, calls := s1.calls - {t});
      AdvanceFirst(s1, t, n + 1, s2);
      assert s1.calls - {t} == s.calls - {t};
      Returned(s2, t, n + 1);
    } else {
      var s1 := s.(calls := s.calls[t := Dropping(Some(d), Some(p))], dropped := s.dropped + 1);
      AdvanceFirst(s, t, n + 2, s1);
      DroppingRuns(s1, t, Some(d), Some(p), n);
      assert s1.calls - {t} == s.calls - {t};
    }
  }

  function Taken(heap: Heap, a: Option<Ptr>): Heap {
    if a.Some? then heap[a.value := Raw] else heap
  }

  lemma TakenGivenBack(heap: Heap, a1: Option<Ptr>, a2: Option<Ptr>)
    requires FreshPair(heap, a1, a2)
    ensures Taken(Taken(heap, a1), a2) - Opt(a1) - Opt(a2) == heap
    ensures Opt(a1) + Opt(a2) <= Taken(Taken(heap, a1), a2).Keys
  {
  }

  /** Up to the point where both allocations have been tried. */
  lemma AllocationRuns(s: State, t: nat, m: Message, a1: Option<Ptr>, a2: Option<Ptr>) returns (s3: State)
    requires t !in s.calls && WellFormed(m) && FreshPair(s.heap, a1, a2)
    ensures s3 == s.(heap := Taken(Taken(s.heap, a1), a2),
                     calls := s.calls[t := BothTried(m, a1, a2)], submitted := s.submitted + 1)
    ensures Run(s, CallScript(t, m, a1, a2)) == Run(s3, Advances(t, 4))
  {
    hide Run, Advances, AdvanceStep, ConsumeStep;
    var s1 := s.(calls := s.calls[t := Entered(m)], submitted := s.submitted + 1);
    RunFirst(s, Enter(t, m), [Malloc(t, a1)] + ([Malloc(t, a2)] + Advances(t, 4)), s1);
    var s2 := s1.(heap := Taken(s.heap, a1), calls := s.calls[t := MsgTried(m, a1)]);
    assert s1.calls[t := MsgTried(m, a1)] == s.calls[t := MsgTried(m, a1)];
    RunFirst(s1, Malloc(t, a1), [Malloc(t, a2)] + Advances(t, 4), s2);
    s3 := s2.(heap := Taken(Taken(s.heap, a1), a2), calls := s.calls[t := BothTried(m, a1, a2)]);
    assert s2.calls[t := BothTried(m, a1, a2)] == s.calls[t := BothTried(m, a1, a2)];
    RunFirst(s2, Malloc(t, a2), Advances(t, 4), s3);
  }

  /** The state in which an uninterrupted call has filled both blocks. */
  function FilledState(s: State, t: nat, m: Message, p: Ptr, d: Ptr): State {
    s.(heap := s.heap[d := DataBlock(m.data)][p := MsgBlock(m.event, d)],
       calls := s.calls[t := Filled(m, p, d)], submitted := s.submitted + 1)
  }

  lemma FillStep(s: State, s3: State, t: nat, m: Message, p: Ptr, d: Ptr)
    requires t !in s.calls && p !in s.heap && d !in s.heap && p != d
    requires s3 == s.(heap := s.heap[p := Raw][d := Raw], calls := s.calls[t := BothTried(m, Some(p), Some(d))],
                      submitted := s.submitted + 1)
    ensures AdvanceStep(s3, t) == FilledState(s, t, m, p, d)
  {
    assert s3.heap[d := DataBlock(m.data)][p := MsgBlock(m.event, d)]
        == s.heap[d := DataBlock(m.data)][p := MsgBlock(m.event, d)];
    assert s3.calls[t := Filled(m, p, d)] == s.calls[t := Filled(m, p, d)];
  }

  lemma FilledStateRuns(s: State, t: nat, m: Message, p: Ptr, d: Ptr, n: nat)
    requires t !in s.calls && p !in s.heap && d !in s.heap && p != d
    ensures Run(FilledState(s, t, m, p, d), Advances(t, n + 3)) == AfterCall(s, m, Some(p), Some(d))
  {
    var s4 := FilledState(s, t, m, p, d);
    FilledRuns(s4, t, m, p, d, n);
    assert s4.calls - {t} == s.calls;
    assert s4.heap - {d} - {p} == s.heap;
  }

  /** A call run without interruption accepts its message or leaves heap, queue and events as they were. */
  lemma CallRuns(s: State, t: nat, m: Message, a1: Option<Ptr>, a2: Option<Ptr>)
    requires t !in s.calls && WellFormed(m) && FreshPair(s.heap, a1, a2)
    ensures Run(s, CallScript(t, m, a1, a2)) == AfterCall(s, m, a1, a2)
  {
    if a1.None? || a2.None? {
      FailedCallRuns(s, t, m, a1, a2);
    } else {
      SuccessfulCallRuns(s, t, m, a1.value, a2.value);
    }
  }

  lemma FailedCallRuns(s: State, t: nat, m: Message, a1: Option<Ptr>, a2: Option<Ptr>)
    requires t !in s.calls && WellFormed(m) && FreshPair(s.heap, a1, a2) && (a1.None? || a2.None?)
    ensures Run(s, CallScript(t, m, a1, a2)) == AfterCall(s, m, a1, a2)
  {
    hide Run, CallScript, AdvanceStep, MallocStep, Free, Advances, WellFormed;
    hide Taken;
    var s3 := AllocationRuns(s, t, m, a1, a2);
    TakenGivenBack(s.heap, a1, a2);
    FailedAllocationRuns(s3, t, m, a1, a2, 1);
    assert s3.calls - {t} == s.calls;
  }

  lemma SuccessfulCallRuns(s: State, t: nat, m: Message, p: Ptr, d: Ptr)
    requires t !in s.calls && WellFormed(m) && p !in s.heap && d !in s.heap && p != d
    ensures Run(s, CallScript(t, m, Some(p), Some(d))) == AfterCall(s, m, Some(p), Some(d))
  {
    hide Run, CallScript, AfterCall, FilledState, AdvanceStep, MallocStep, Free, Advances, WellFormed;
    var s3 := AllocationRuns(s, t, m, Some(p), Some(d));
    FillStep(s, s3, t, m, p, d);
    AdvanceFirst(s3, t, 3, FilledState(s, t, m, p, d));
    FilledStateRuns(s, t, m, p, d, 0);
  }

  // ---------- the code ----------

  class Node {
    var heap: map<Ptr, Block>
    var queue: seq<Ptr>
    var events: set<Event>
    const txBuf: array<bv8>
    var frames: seq<Bytes>
    ghost var calls: map<nat, Call>      // calls of other threads, suspended somewhere inside
    ghost var consumer: Consumer
    ghost var submitted: nat
    ghost var dropped: nat
    ghost var accepted: seq<Message>
    ghost var dequeued: seq<Message>
    ghost var owner: Owners

    ghost function State(): State
      reads this, txBuf
    {
      Pipeline.State(heap, queue, events, calls, consumer, txBuf[..], frames, false,
                     submitted, dropped, accepted, dequeued)
    }

    ghost predicate Valid()
      reads this, txBuf
    {
      Good(State(), owner)
    }

    constructor ()
      ensures Valid() && State() == Initial() && fresh(txBuf)
    {
      heap, queue, events, frames := map[], [], {}, [];
      txBuf := new bv8[TX_SIZE](_ => 0);
      calls, consumer, submitted, dropped, accepted, dequeued, owner := map[], Waiting, 0, 0, [], [], map[];
      new;
      assert txBuf[..] == Blank(TX_SIZE);
      InitiallyOk();
    }

    /** `a1` and `a2` are what the allocator answers. */
    method CreateEventPayload(ghost t: nat, data: seq<bv8>, event: Event, a1: Option<Ptr>, a2: Option<Ptr>)
      requires Valid() && t !in calls && WellFormed(Message(event, data)) && FreshPair(heap, a1, a2)
      modifies this
      ensures Valid()
      ensures State() == Run(old(State()), CallScript(t, Message(event, data), a1, a2))
      ensures State() == AfterCall(old(State()), Message(event, data), a1, a2)
    {
      hide Good, Run, CallScript, WellFormed;
      ghost var s0, m := State(), Message(event, data);
      var accepts := Submit(data, event, a1, a2);
      submitted := submitted + 1;
      if accepts { accepted := accepted + [m]; } else { dropped := dropped + 1; }
      CallRuns(s0, t, m, a1, a2);
      owner := RunFrom(s0, owner, CallScript(t, m, a1, a2));
    }

    method Submit(data: seq<bv8>, event: Event, a1: Option<Ptr>, a2: Option<Ptr>) returns (accepts: bool)
      requires FreshPair(heap, a1, a2)
      modifies `heap, `queue, `events
      ensures accepts == (a1.Some? && a2.Some? && |old(queue)| < QUEUE_SIZE)
      ensures if accepts
              then heap == old(heap)[a2.value := DataBlock(data)][a1.value := MsgBlock(event, a2.value)]
                && queue == old(queue) + [a1.value] && events == old(events) + {event}
              else heap == old(heap) && queue == old(queue) && events == old(events)
    {
      ghost var h0: map<Ptr, Block> := heap;
      if a1.Some? { heap := heap[a1.value := Raw]; }
      if a2.Some? { heap := heap[a2.value := Raw]; }
      if a1.None? || a2.None? {
        if a1.Some? { heap := heap - {a1.value}; }
        if a2.Some? { heap := heap - {a2.value}; }
        assert heap == h0;
        return false;
      }
      heap := heap[a2.value := DataBlock(data)];
      heap := heap[a1.value := MsgBlock(event, a2.value)];
      if |queue| >= QUEUE_SIZE {
        heap := heap - {a2.value};
        heap := heap - {a1.value};
        assert heap == h0;
        return false;
      }
      ghost var h1: map<Ptr, Block> := h0[a2.value := DataBlock(data)];
      assert heap == h1[a1.value := MsgBlock(event, a2.value)];
      queue := queue + [a1.value];
      events := events + {event};
      return true;
    }

    /** The inner loop of the consumer thread. */
    method Drain()
      requires Valid() && consumer == Checking
      modifies this, txBuf
      ensures Valid()
      ensures State() == Run(old(State()), Consumes(5 * |old(queue)|))
      ensures Drains(old(State()), State())
    {
      hide Good, Run, Consumes, Drains;
      ghost var s0, n := State(), |queue|;
      ghost var k := 0;
      RunNone(s0);
      DrainAll(s0, owner, n);
      while |queue| > 0
        invariant 0 <= k <= n && |queue| == n - k
        invariant Valid() && consumer == Checking
        invariant State() == Run(s0, Consumes(5 * k))
        decreases |queue|
      {
        ghost var s1 := State();
        CheckKeeps(s1, owner);
        consumer := Fetching;
        ConsumeFirst(s1, 4, State());
        ProcessApplicationMessage();
        assert 5 * (k + 1) == 5 * k + 5;
        ConsumesAdd(s0, 5 * k, 5);
        k := k + 1;
      }
    }

    /** Take one message off the queue and act on it. */
    method ProcessApplicationMessage()
      requires Valid() && consumer == Fetching
      modifies this, txBuf
      ensures Valid() && consumer == Checking
      ensures State() == Run(old(State()), Consumes(4))
      ensures queue == old(queue)[1..] && calls == old(calls) && accepted == old(accepted)
    {
      hide Good, Run, Consumes, WellFormed;
      ghost var s0 := State();
      FetchFacts(s0, owner);
      var revMsg := queue[0];
      ghost var m := Contents(heap, revMsg);
      ProcessRuns(s0, m);
      queue := queue[1..];
      var event, revData := heap[revMsg].event, heap[revMsg].data;
      Handle(event, heap[revData].bytes);
      heap := heap - {revData};
      heap := heap - {revMsg};
      consumer, dequeued := Checking, dequeued + [m];
      owner := RunFrom(s0, owner, Consumes(4));
    }

    /** The switch on the event kind: update the buffer, and send it for a heart-rate message. */
    method Handle(event: Event, bytes: seq<bv8>)
      requires txBuf.Length == TX_SIZE && WellFormed(Message(event, bytes))
      requires Process(txBuf[..], Message(event, bytes)).Some?
      modifies `frames, txBuf
      ensures var r := Process(old(txBuf[..]), Message(event, bytes)).value;
              txBuf[..] == r.0 && frames == old(frames) + r.1
    {
      match event
      case HrboEvent =>
        txBuf[0], txBuf[1] := 0x55, 0xAA;
        txBuf[2], txBuf[3] := 0x00, 0x69;
        assert txBuf[..] == [0x55, 0xAA, 0x00, 0x69] + old(txBuf[4..]);
        CopyPayload(bytes);
        txBuf[108] := 0xA5;
        frames := frames + [txBuf[..]];
      case Aht20Event =>
        txBuf[4], txBuf[5] := bytes[0], bytes[1];
      case Bmp280Event =>
        txBuf[6], txBuf[7] := bytes[0], bytes[1];
      case As201Event =>
        CopyPayload(bytes);
      case Ld2410cEvent =>
    }

    method CopyPayload(bytes: seq<bv8>)
      requires txBuf.Length == TX_SIZE && |bytes| <= 100
      modifies txBuf
      ensures txBuf[..] == old(txBuf[..])[..8] + bytes + old(txBuf[..])[8 + |bytes|..]
    {
      hide Copied;
      ghost var tx0 := txBuf[..];
      var i := 0;
      CopiedEnds(tx0, 8, bytes);
      while i < |bytes|
        invariant 0 <= i <= |bytes| && txBuf[..] == Copied(tx0, 8, bytes, i)
      {
        CopyNext(tx0, 8, bytes, i);
        ghost var before := txBuf[..];
        txBuf[8 + i] := bytes[i];
        assert txBuf[..] == before[8 + i := bytes[i]];
        i := i + 1;
      }
    }
  }
}
