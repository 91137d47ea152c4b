/** What the consumer does between two waits: take a message, act on it, release both blocks, until the queue is
    empty. Calls of the producer function may be suspended anywhere meanwhile. */
module Draining {
  import opened Pipeline
  import opened Ownership
  import opened PipelineHistory

  function Consumes(n: nat): (a: seq<Action>)
    ensures |a| == n
  {
    seq(n, _ => Consume)
  }

  lemma RunNone(s: State)
    ensures Run(s, Consumes(0)) == s
  {
  }

  lemma ConsumeFirst(s: State, n: nat, s': State)
    requires ConsumeStep(s) == s'
    ensures Run(s, Consumes(n + 1)) == Run(s', Consumes(n))
  {
    hide ConsumeStep;
    var one := [Consume];
    assert one[..0] == [];
    assert Run(s, one) == Step(Run(s, one[..0]), one[0]);
    assert Consumes(n + 1) == one + Consumes(n);
    RunConcat(s, one, Consumes(n));
  }

  lemma ConsumesAdd(s: State, a: nat, b: nat)
    ensures Run(s, Consumes(a + b)) == Run(Run(s, Consumes(a)), Consumes(b))
  {
    assert Consumes(a + b) == Consumes(a) + Consumes(b);
    RunConcat(s, Consumes(a), Consumes(b));
  }

  /** One message from fetch to release, in one piece. */
  lemma ProcessRuns(s: State, m: Message)
    requires s.consumer == Fetching && s.queue != [] && Readable(s.heap, s.queue[0])
    requires m == Contents(s.heap, s.queue[0])
    requires |s.tx| == TX_SIZE && Process(s.tx, m).Some?
    requires s.heap[s.queue[0]].data != s.queue[0]
    ensures var p, r := s.queue[0], Process(s.tx, m).value;
            Run(s, Consumes(4))
            == s.(heap := s.heap - {s.heap[p].data} - {p}, queue := s.queue[1..], consumer := Checking,
                                      tx := r.0, frames := s.frames + r.1, dequeued := s.dequeued + [m])
  {
    hide Run, Consumes, Process, WellFormed;
    var p, r := s.queue[0], Process(s.tx, m).value;
    var d := s.heap[p].data;
    var s1 := s.(queue := s.queue[1..], consumer := Handling(p), dequeued := s.dequeued + [m]);
    ConsumeFirst(s, 3, s1);
    var s2 := s1.(tx := r.0, frames := s.frames + r.1, consumer := FreeingData(p, d));
    ConsumeFirst(s1, 2, s2);
    var s3 := s2.(heap := s.heap - {d}, consumer := FreeingMsg(p));
    ConsumeFirst(s2, 1, s3);
    var s4 := s3.(heap := s.heap - {d} - {p}, consumer := Checking);
    ConsumeFirst(s3, 0, s4);
    RunNone(s4);
  }

  lemma FetchFacts(s: State, owner: Owners)
    requires Good(s, owner) && s.consumer == Fetching
    ensures s.queue != [] && Readable(s.heap, s.queue[0]) && s.heap[s.queue[0]].data != s.queue[0]
    ensures |s.tx| == TX_SIZE && WellFormed(Contents(s.heap, s.queue[0]))
    ensures Process(s.tx, Contents(s.heap, s.queue[0])).Some?
  {
    assert s.queue[0] in s.queue && QueuedOk(s.heap, owner, s.queue[0]);
    ProcessSucceeds(s.tx, Contents(s.heap, s.queue[0]));
  }

  lemma CheckKeeps(s: State, owner: Owners)
    requires Good(s, owner) && s.consumer == Checking && s.queue != []
    ensures ConsumeStep(s) == s.(consumer := Fetching) && Good(ConsumeStep(s), owner)
  {
    IdleKeeps(s, owner);
    FifoStep(s, owner, Consume);
    FramesStep(s, owner, Consume);
  }

  /** Nothing new and nothing changed in the heap. */
  ghost predicate Shrinks(heap: Heap, heap': Heap) {
    forall p :: p in heap' ==> p in heap && heap'[p] == heap[p]
  }

  /** What a pass over one message leaves alone, whoever is suspended meanwhile. */
  ghost predicate Passes(s: State, s': State) {
    && s'.calls == s.calls && s'.accepted == s.accepted && s'.events == s.events
    && s'.submitted == s.submitted && s'.dropped == s.dropped && Shrinks(s.heap, s'.heap)
  }

  lemma PassesTrans(s: State, s1: State, s2: State)
    requires Passes(s, s1) && Passes(s1, s2)
    ensures Passes(s, s2)
  {
  }

  /** One message from the check of the queue to the next check. */
  lemma PassRuns(s: State, owner: Owners) returns (s': State, owner': Owners)
    requires Good(s, owner) && s.consumer == Checking && s.queue != []
    ensures s' == Run(s, Consumes(5)) && Good(s', owner')
    ensures Readable(s.heap, s.queue[0])
    ensures var p := s.queue[0];
            && s'.consumer == Checking && s'.queue == s.queue[1..] && s'.heap == s.heap - {s.heap[p].data} - {p}
            && s'.dequeued == s.dequeued + [Contents(s.heap, p)] && Passes(s, s')
  {
    var s1 := s.(consumer := Fetching);
    hide Good, Run, Process, WellFormed;
    CheckKeeps(s, owner);
    ConsumeFirst(s, 4, s1);
    FetchFacts(s1, owner);
    ProcessRuns(s1, Contents(s1.heap, s1.queue[0]));
    s' := Run(s, Consumes(5));
    owner' := RunFrom(s1, owner, Consumes(4));
  }

  /** The whole outcome of a drain: everything accepted has been delivered and its frames sent, and of the heap
      only the blocks of suspended calls are left, unchanged. */
  ghost predicate Drains(s: State, s': State) {
    && s'.consumer == Checking && s'.queue == [] && Passes(s, s')
    && s'.dequeued == s.accepted && s'.frames == Frames(s.accepted)
    && s'.heap.Keys == CallBlocks(s)
  }

  lemma Drained(s: State, owner: Owners)
    requires Good(s, owner) && s.consumer == Checking && s.queue == []
    ensures s.heap.Keys == CallBlocks(s) && s.dequeued == s.accepted && s.frames == Frames(s.accepted)
  {
    LiveBlocksSplit(s, owner);
    assert Elements(s.queue) == {} && Elements(Datas(s.heap, s.queue)) == {};
    assert Queued(s.heap, s.queue) == [];
  }

  lemma SameCallBlocks(s: State, s': State)
    requires s.calls == s'.calls
    ensures CallBlocks(s) == CallBlocks(s')
  {
  }

  lemma {:induction false} DrainAll(s: State, owner: Owners, n: nat)
    requires Good(s, owner) && s.consumer == Checking && n == |s.queue|
    ensures Drains(s, Run(s, Consumes(5 * n)))
    decreases n
  {
    if n == 0 {
      Drained(s, owner);
      RunNone(s);
    } else {
      var s', owner' := PassRuns(s, owner);
      DrainAll(s', owner', n - 1);
      DrainRest(s, s', n - 1);
    }
  }

  /** A pass and then a drain is a drain. */
  lemma DrainRest(s: State, s': State, n: nat)
    requires s' == Run(s, Consumes(5)) && Passes(s, s') && Drains(s', Run(s', Consumes(5 * n)))
    ensures Drains(s, Run(s, Consumes(5 * (n + 1))))
  {
    hide Run, Frames, Consumes;
    assert 5 * (n + 1) == 5 + 5 * n;
    ConsumesAdd(s, 5, 5 * n);
    PassesTrans(s, s', Run(s', Consumes(5 * n)));
    SameCallBlocks(s, s');
  }

  /** From any reachable state in which the consumer has woken, however many calls are suspended: if only the
      consumer runs, it delivers everything accepted and ends with an empty queue and exactly the blocks those
      calls hold. With no call in progress nothing is left. */
  lemma {:induction false} DrainLeavesCallBlocks(actions: seq<Action>)
    requires Run(Initial(), actions).consumer == Checking
    ensures var s := Run(Initial(), actions);
            var s' := Run(s, Consumes(5 * |s.queue|));
            Drains(s, s') && (s.calls == map[] ==> s'.heap == map[])
  {
    var owner := RunKeeps(actions);
    var s := Run(Initial(), actions);
    hide Run;
    DrainAll(s, owner, |s.queue|);
    if s.calls == map[] { assert CallBlocks(s) == {}; }
  }
}
