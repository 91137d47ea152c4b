/** Every live block has exactly one owner in every interleaving, so nothing leaks and nothing is freed twice. */
module Ownership {
  import opened Options
  import opened Pipeline

  datatype Owner = Caller(t: nat) | QueuedMsg | QueuedData(msg: Ptr) | ReaderMsg | ReaderData

  function Opt(p: Option<Ptr>): set<Ptr> {
    if p.Some? then {p.value} else {}
  }

  function Held(c: Call): set<Ptr> {
    match c
    case Entered(_) => {}
    case MsgTried(_, msg) => Opt(msg)
    case BothTried(_, msg, data) => Opt(msg) + Opt(data)
    case Filled(_, msg, data) => {msg, data}
    case Dropping(first, second) => Opt(first) + Opt(second)
    case DroppingLast(last) => Opt(last)
    case Posting(_) => {}
  }

  type Heap = map<Ptr, Block>
  type Owners = map<Ptr, Owner>

  ghost predicate Owned(heap: Heap, owner: Owners, p: Ptr, o: Owner) {
    p in heap && p in owner && owner[p] == o
  }

  /** The blocks of a call are live, its own, and distinct; a filled pair holds the submitted message. */
  ghost predicate CallOk(heap: Heap, owner: Owners, t: nat, c: Call) {
    && (forall p :: p in Held(c) ==> Owned(heap, owner, p, Caller(t)))
    && (match c
        case Entered(m) => WellFormed(m)
        case MsgTried(m, _) => WellFormed(m)
        case BothTried(m, msg, data) => WellFormed(m) && (msg.Some? ==> msg != data)
        case Filled(m, msg, data) =>
          WellFormed(m) && msg in heap && data in heap && msg != data
          && heap[msg] == MsgBlock(m.event, data) && heap[data] == DataBlock(m.data)
        case Dropping(first, second) => first.Some? ==> first != second
        case _ => true)
  }

  ghost predicate QueuedOk(heap: Heap, owner: Owners, p: Ptr) {
    && Readable(heap, p) && WellFormed(Contents(heap, p))
    && Owned(heap, owner, p, QueuedMsg) && Owned(heap, owner, heap[p].data, QueuedData(p))
  }

  ghost predicate ReaderOk(heap: Heap, owner: Owners, c: Consumer) {
    match c
    case Handling(p) =>
      && Readable(heap, p) && WellFormed(Contents(heap, p))
      && Owned(heap, owner, p, ReaderMsg) && Owned(heap, owner, heap[p].data, ReaderData)
    case FreeingData(p, d) => Owned(heap, owner, p, ReaderMsg) && Owned(heap, owner, d, ReaderData)
    case FreeingMsg(p) => Owned(heap, owner, p, ReaderMsg)
    case _ => true
  }

  /** The owner really holds the block, so a block without a holder cannot exist. */
  ghost predicate Holds(s: State, o: Owner, p: Ptr) {
    match o
    case Caller(t) => t in s.calls && p in Held(s.calls[t])
    case QueuedMsg => p in s.queue
    case QueuedData(m) => m in s.queue && m in s.heap && s.heap[m].MsgBlock? && s.heap[m].data == p
    case ReaderMsg => ReaderHoldsMsg(s.consumer, p)
    case ReaderData => ReaderHoldsData(s.heap, s.consumer, p)
  }

  ghost predicate ReaderHoldsMsg(c: Consumer, p: Ptr) {
    (c.Handling? || c.FreeingData? || c.FreeingMsg?) && c.msg == p
  }

  ghost predicate ReaderHoldsData(heap: Heap, c: Consumer, p: Ptr) {
    || (c.Handling? && c.msg in heap && heap[c.msg].MsgBlock? && heap[c.msg].data == p)
    || (c.FreeingData? && c.data == p)
  }

  ghost predicate CallsOk(s: State, owner: Owners) {
    forall t :: t in s.calls ==> CallOk(s.heap, owner, t, s.calls[t])
  }

  ghost predicate QueueOk(s: State, owner: Owners) {
    && |s.queue| <= QUEUE_SIZE
    && (forall p :: p in s.queue ==> QueuedOk(s.heap, owner, p))
    && (forall i, j :: 0 <= i < j < |s.queue| ==> s.queue[i] != s.queue[j])
  }

  ghost predicate AllHeld(s: State, owner: Owners) {
    && owner.Keys == s.heap.Keys
    && forall p :: p in owner ==> Holds(s, owner[p], p)
  }

  ghost predicate Sound(s: State) {
    && !s.fault && |s.tx| == TX_SIZE
    && (s.consumer == Fetching ==> s.queue != [])
  }

  ghost predicate Consistent(s: State, owner: Owners) {
    Sound(s) && AllHeld(s, owner) && CallsOk(s, owner) && QueueOk(s, owner) && ReaderOk(s.heap, owner, s.consumer)
  }

  // ---------- framing: what a step does not touch stays as it was ----------

  /** Every block of the given owners is still there, unchanged, with the same owner. */
  ghost predicate Untouched(s: State, owner: Owners, s': State, owner': Owners, p: Ptr) {
    p in s.heap && p in owner ==> p in s'.heap && p in owner' && s'.heap[p] == s.heap[p] && owner'[p] == owner[p]
  }

  lemma CallFrame(s: State, owner: Owners, s': State, owner': Owners, t: nat, c: Call)
    requires CallOk(s.heap, owner, t, c)
    requires forall p :: p in owner && owner[p] == Caller(t) ==> Untouched(s, owner, s', owner', p)
    ensures CallOk(s'.heap, owner', t, c)
  {
    forall p | p in Held(c) ensures Owned(s'.heap, owner', p, Caller(t)) && s'.heap[p] == s.heap[p] {
      assert Owned(s.heap, owner, p, Caller(t));
      assert Untouched(s, owner, s', owner', p);
    }
  }

  lemma QueueFrame(s: State, owner: Owners, s': State, owner': Owners, p: Ptr)
    requires QueuedOk(s.heap, owner, p)
    requires forall p :: p in owner && (owner[p].QueuedMsg? || owner[p].QueuedData?)
               ==> Untouched(s, owner, s', owner', p)
    ensures QueuedOk(s'.heap, owner', p)
  {
    assert Untouched(s, owner, s', owner', p) && Untouched(s, owner, s', owner', s.heap[p].data);
  }

  lemma ReaderFrame(s: State, owner: Owners, s': State, owner': Owners)
    requires ReaderOk(s.heap, owner, s.consumer) && s'.consumer == s.consumer
    requires forall p :: p in owner && (owner[p].ReaderMsg? || owner[p].ReaderData?)
               ==> Untouched(s, owner, s', owner', p)
    ensures ReaderOk(s'.heap, owner', s'.consumer)
  {
    match s.consumer
    case Handling(p) =>
      assert Untouched(s, owner, s', owner', p) && Untouched(s, owner, s', owner', s.heap[p].data);
    case _ =>
  }

  ghost predicate SameRest(s: State, s': State, t: nat) {
    && s'.queue == s.queue && s'.consumer == s.consumer && s'.tx == s.tx && s'.fault == s.fault
    && forall u :: u != t ==> (u in s'.calls <==> u in s.calls) && (u in s.calls ==> s'.calls[u] == s.calls[u])
  }

  /** A step of call `t` that only touches its own blocks. */
  lemma CallStepKeeps(s: State, owner: Owners, s': State, owner': Owners, t: nat)
    requires Consistent(s, owner) && SameRest(s, s', t) && owner'.Keys == s'.heap.Keys
    requires forall p :: p in owner && owner[p] != Caller(t) ==> Untouched(s, owner, s', owner', p)
    requires forall p :: p in owner' && owner'[p] != Caller(t) ==> p in owner && owner[p] == owner'[p]
    requires forall p :: p in owner' && owner'[p] == Caller(t) ==> t in s'.calls && p in Held(s'.calls[t])
    requires t in s'.calls ==> CallOk(s'.heap, owner', t, s'.calls[t])
    ensures Consistent(s', owner')
  {
    forall u | u in s'.calls ensures CallOk(s'.heap, owner', u, s'.calls[u]) {
      if u != t { CallFrame(s, owner, s', owner', u, s.calls[u]); }
    }
    forall p | p in s'.queue ensures QueuedOk(s'.heap, owner', p) {
      QueueFrame(s, owner, s', owner', p);
    }
    ReaderFrame(s, owner, s', owner');
    forall p | p in owner' ensures Holds(s', owner'[p], p) {
      if owner'[p] != Caller(t) {
        assert Holds(s, owner[p], p) && Untouched(s, owner, s', owner', p);
        HoldsFrame(s, owner, s', owner', p);
      }
    }
  }

  lemma HoldsFrame(s: State, owner: Owners, s': State, owner': Owners, p: Ptr)
    requires Consistent(s, owner) && p in owner && Holds(s, owner[p], p)
    requires s'.queue == s.queue && s'.consumer == s.consumer
    requires owner[p].Caller? ==>
               owner[p].t in s'.calls && owner[p].t in s.calls && s'.calls[owner[p].t] == s.calls[owner[p].t]
    requires forall p :: p in owner && !owner[p].Caller? ==> Untouched(s, owner, s', owner', p)
    ensures Holds(s', owner[p], p)
  {
    match owner[p]
    case QueuedData(m) =>
      assert QueuedOk(s.heap, owner, m);
      assert Untouched(s, owner, s', owner', m);
    case ReaderData =>
      if s.consumer.Handling? {
        assert Owned(s.heap, owner, s.consumer.msg, ReaderMsg);
        assert Untouched(s, owner, s', owner', s.consumer.msg);
      }
    case _ =>
  }

  // ---------- producer steps ----------

  /** The blocks a call holds are exactly those it owns. */
  lemma OwnBlocks(s: State, owner: Owners, t: nat)
    requires Consistent(s, owner) && t in s.calls
    ensures CallOk(s.heap, owner, t, s.calls[t])
    ensures forall p :: p in Held(s.calls[t]) <==> (p in owner && p in s.heap && owner[p] == Caller(t))
  {
    assert CallOk(s.heap, owner, t, s.calls[t]);
    forall p ensures p in Held(s.calls[t]) <==> (p in owner && p in s.heap && owner[p] == Caller(t)) {
      if p in owner && owner[p] == Caller(t) { assert Holds(s, owner[p], p); }
      if p in Held(s.calls[t]) { assert Owned(s.heap, owner, p, Caller(t)); }
    }
  }

  lemma MallocKeeps(s: State, owner: Owners, t: nat, r: Option<Ptr>) returns (owner': Owners)
    requires Consistent(s, owner)
    ensures Consistent(MallocStep(s, t, r), owner')
  {
    owner' := owner;
    if t in s.calls && (r.None? || r.value !in s.heap) && (s.calls[t].Entered? || s.calls[t].MsgTried?) {
      var s' := MallocStep(s, t, r);
      OwnBlocks(s, owner, t);
      if r.Some? { owner' := owner[r.value := Caller(t)]; }
      var c := s'.calls[t];
      assert Held(c) == Held(s.calls[t]) + Opt(r);
      forall p | p in Held(c) ensures Owned(s'.heap, owner', p, Caller(t)) {
        if p in Held(s.calls[t]) { assert p in s.heap; }
      }
      CallStepKeeps(s, owner, s', owner', t);
    }
  }

  lemma FillKeeps(s: State, owner: Owners, t: nat)
    requires Consistent(s, owner) && t in s.calls && s.calls[t].BothTried?
    ensures Consistent(AdvanceStep(s, t), owner)
  {
    var c, s' := s.calls[t], AdvanceStep(s, t);
    OwnBlocks(s, owner, t);
    if c.msg.Some? && c.data.Some? {
      var m, d := c.msg.value, c.data.value;
      assert m in Held(c) && d in Held(c);
      assert s'.heap == s.heap[d := DataBlock(c.m.data)][m := MsgBlock(c.m.event, d)];
      assert s'.heap.Keys == s.heap.Keys;
      assert s'.calls[t] == Filled(c.m, m, d);
      assert Held(s'.calls[t]) == Held(c);
    } else {
      assert s'.heap == s.heap && s'.calls[t] == Dropping(c.msg, c.data);
      assert Held(s'.calls[t]) == Held(c);
    }
    forall p | p in Held(s'.calls[t]) ensures Owned(s'.heap, owner, p, Caller(t)) {
      assert p in s.heap;
    }
    CallStepKeeps(s, owner, s', owner, t);
  }

  lemma DropKeeps(s: State, owner: Owners, t: nat) returns (owner': Owners)
    requires Consistent(s, owner) && t in s.calls
    requires s.calls[t].Dropping? || s.calls[t].DroppingLast? || s.calls[t].Posting?
    ensures Consistent(AdvanceStep(s, t), owner')
  {
    var c, s' := s.calls[t], AdvanceStep(s, t);
    OwnBlocks(s, owner, t);
    var gone := if c.Dropping? then Opt(c.first) else if c.DroppingLast? then Opt(c.last) else {};
    assert gone <= Held(c);
    owner' := owner - gone;
    FreeOpt(s, if c.Dropping? then c.first else if c.DroppingLast? then c.last else None);
    assert s'.heap == s.heap - gone;
    if c.Dropping? {
      assert Held(s'.calls[t]) == Held(c) - gone;
      forall p | p in Held(s'.calls[t]) ensures Owned(s'.heap, owner', p, Caller(t)) {
        assert p in Held(c);
      }
    }
    CallStepKeeps(s, owner, s', owner', t);
  }

  lemma FreeOpt(s: State, p: Option<Ptr>)
    requires Opt(p) <= s.heap.Keys
    ensures Free(s, p) == s.(heap := s.heap - Opt(p))
  {
    assert s.heap - {} == s.heap;
    if p.Some? { assert p.value in Opt(p); }
  }

  lemma PutKeeps(s: State, owner: Owners, t: nat) returns (owner': Owners)
    requires Consistent(s, owner) && t in s.calls && s.calls[t].Filled?
    ensures Consistent(AdvanceStep(s, t), owner')
  {
    var c, s' := s.calls[t], AdvanceStep(s, t);
    OwnBlocks(s, owner, t);
    if |s.queue| < QUEUE_SIZE {
      owner' := owner[c.msgPtr := QueuedMsg][c.dataPtr := QueuedData(c.msgPtr)];
      EnqueueKeeps(s, owner, t, s', owner');
    } else {
      owner' := owner;
      CallStepKeeps(s, owner, s', owner', t);
    }
  }

  ghost predicate Enqueues(s: State, owner: Owners, t: nat, s': State, owner': Owners) {
    && Consistent(s, owner) && t in s.calls && s.calls[t].Filled? && |s.queue| < QUEUE_SIZE
    && CallOk(s.heap, owner, t, s.calls[t])
    && s' == AdvanceStep(s, t)
    && owner' == owner[s.calls[t].msgPtr := QueuedMsg][s.calls[t].dataPtr := QueuedData(s.calls[t].msgPtr)]
  }

  lemma EnqueueQueue(s: State, owner: Owners, t: nat, s': State, owner': Owners)
    requires Enqueues(s, owner, t, s', owner')
    ensures QueueOk(s', owner')
  {
    var c := s.calls[t];
    assert c.msgPtr in Held(c) && c.dataPtr in Held(c);
    assert Owned(s.heap, owner, c.msgPtr, Caller(t)) && Owned(s.heap, owner, c.dataPtr, Caller(t));
    forall q | q in s.queue ensures q != c.msgPtr {
      assert QueuedOk(s.heap, owner, q);
    }
    forall p | p in s'.queue ensures QueuedOk(s'.heap, owner', p) {
      if p in s.queue {
        assert QueuedOk(s.heap, owner, p);
        QueueFrame(s, owner, s', owner', p);
      } else {
        assert p == c.msgPtr;
      }
    }
    forall i, j | 0 <= i < j < |s'.queue| ensures s'.queue[i] != s'.queue[j] {
      assert s'.queue[i] == s.queue[i] && s.queue[i] in s.queue;
    }
  }

  lemma EnqueueKeeps(s: State, owner: Owners, t: nat, s': State, owner': Owners)
    requires Enqueues(s, owner, t, s', owner')
    ensures Consistent(s', owner')
  {
    var c := s.calls[t];
    assert c.msgPtr in Held(c) && c.dataPtr in Held(c);
    assert Owned(s.heap, owner, c.msgPtr, Caller(t)) && Owned(s.heap, owner, c.dataPtr, Caller(t));
    assert owner'.Keys == s.heap.Keys;
    EnqueueQueue(s, owner, t, s', owner');
    OwnBlocks(s, owner, t);
    forall u | u in s'.calls ensures CallOk(s'.heap, owner', u, s'.calls[u]) {
      if u != t { CallFrame(s, owner, s', owner', u, s.calls[u]); }
    }
    ReaderFrame(s, owner, s', owner');
    forall p | p in owner' ensures Holds(s', owner'[p], p) {
      assert Holds(s, owner[p], p);
    }
  }

  // ---------- consumer steps ----------

  /** A consumer step that only touches the consumer's own blocks. */
  lemma ReaderStepKeeps(s: State, owner: Owners, s': State, owner': Owners)
    requires Consistent(s, owner) && Sound(s') && s'.queue == s.queue && s'.calls == s.calls
    requires owner'.Keys == s'.heap.Keys
    requires forall p :: p in owner && !(owner[p].ReaderMsg? || owner[p].ReaderData?)
               ==> Untouched(s, owner, s', owner', p)
    requires forall p :: p in owner' ==> p in owner && owner[p] == owner'[p]
    requires forall p :: p in owner' && owner'[p] == ReaderMsg ==> ReaderHoldsMsg(s'.consumer, p)
    requires forall p :: p in owner' && owner'[p] == ReaderData ==> ReaderHoldsData(s'.heap, s'.consumer, p)
    requires ReaderOk(s'.heap, owner', s'.consumer)
    ensures Consistent(s', owner')
  {
    forall u | u in s'.calls ensures CallOk(s'.heap, owner', u, s'.calls[u]) {
      CallFrame(s, owner, s', owner', u, s.calls[u]);
    }
    forall p | p in s'.queue ensures QueuedOk(s'.heap, owner', p) {
      QueueFrame(s, owner, s', owner', p);
    }
    forall p | p in owner' ensures Holds(s', owner'[p], p) {
      assert Holds(s, owner[p], p);
      if owner[p].QueuedData? {
        assert QueuedOk(s.heap, owner, owner[p].msg);
        assert Untouched(s, owner, s', owner', owner[p].msg);
      }
    }
  }

  lemma ProcessSucceeds(tx: Bytes, m: Message)
    requires |tx| == TX_SIZE && WellFormed(m)
    ensures Process(tx, m).Some? && |Process(tx, m).value.0| == TX_SIZE
  {
  }

  lemma FetchKeeps(s: State, owner: Owners) returns (owner': Owners)
    requires Consistent(s, owner) && s.consumer == Fetching
    ensures Consistent(ConsumeStep(s), owner')
  {
    var p := s.queue[0];
    assert QueuedOk(s.heap, owner, p);
    var d, s' := s.heap[p].data, ConsumeStep(s);
    owner' := owner[p := ReaderMsg][d := ReaderData];
    assert owner'.Keys == s'.heap.Keys;
    forall u | u in s'.calls ensures CallOk(s'.heap, owner', u, s'.calls[u]) {
      CallFrame(s, owner, s', owner', u, s.calls[u]);
    }
    assert p !in s'.queue;
    forall q | q in s'.queue ensures QueuedOk(s'.heap, owner', q) {
      assert q in s.queue && QueuedOk(s.heap, owner, q);
      assert s.heap[q].data != d;
    }
    forall q | q in owner' ensures Holds(s', owner'[q], q) {
      assert Holds(s, owner[q], q);
      if q != p && q != d && q in s.queue { assert s.queue == [p] + s'.queue; }
      if owner[q].QueuedData? { assert s.queue == [p] + s'.queue; }
    }
  }

  lemma ReleaseKeeps(s: State, owner: Owners) returns (owner': Owners)
    requires Consistent(s, owner) && (s.consumer.FreeingData? || s.consumer.FreeingMsg?)
    ensures Consistent(ConsumeStep(s), owner')
  {
    var p := if s.consumer.FreeingData? then s.consumer.data else s.consumer.msg;
    owner' := owner - {p};
    assert forall q :: q in owner && (owner[q].ReaderMsg? || owner[q].ReaderData?) ==> Holds(s, owner[q], q);
    ReaderStepKeeps(s, owner, ConsumeStep(s), owner');
  }

  lemma HandleKeeps(s: State, owner: Owners)
    requires Consistent(s, owner) && s.consumer.Handling?
    ensures Consistent(ConsumeStep(s), owner)
  {
    var p := s.consumer.msg;
    ProcessSucceeds(s.tx, Contents(s.heap, p));
    assert forall q :: q in owner && (owner[q].ReaderMsg? || owner[q].ReaderData?) ==> Holds(s, owner[q], q);
    ReaderStepKeeps(s, owner, ConsumeStep(s), owner);
  }

  lemma IdleKeeps(s: State, owner: Owners)
    requires Consistent(s, owner) && (s.consumer.Waiting? || s.consumer.Blocked? || s.consumer.Checking?)
    ensures Consistent(ConsumeStep(s), owner)
  {
    assert forall q :: q in owner && (owner[q].ReaderMsg? || owner[q].ReaderData?) ==> Holds(s, owner[q], q);
    ReaderStepKeeps(s, owner, ConsumeStep(s), owner);
  }

  lemma ConsumeKeeps(s: State, owner: Owners) returns (owner': Owners)
    requires Consistent(s, owner)
    ensures Consistent(ConsumeStep(s), owner')
  {
    owner' := owner;
    match s.consumer
    case Fetching => owner' := FetchKeeps(s, owner);
    case Handling(_) => HandleKeeps(s, owner);
    case FreeingData(_, _) => owner' := ReleaseKeeps(s, owner);
    case FreeingMsg(_) => owner' := ReleaseKeeps(s, owner);
    case _ => IdleKeeps(s, owner);
  }

  lemma EnterKeeps(s: State, owner: Owners, t: nat, m: Message)
    requires Consistent(s, owner) && t !in s.calls && WellFormed(m)
    ensures Consistent(Step(s, Enter(t, m)), owner)
  {
    assert forall p :: p in owner && owner[p] == Caller(t) ==> Holds(s, Caller(t), p);
    CallStepKeeps(s, owner, Step(s, Enter(t, m)), owner, t);
  }

  lemma StepKeeps(s: State, owner: Owners, a: Action) returns (owner': Owners)
    requires Consistent(s, owner)
    ensures Consistent(Step(s, a), owner')
  {
    owner' := owner;
    match a
    case Enter(t, m) => if t !in s.calls && WellFormed(m) { EnterKeeps(s, owner, t, m); }
    case Malloc(t, r) => owner' := MallocKeeps(s, owner, t, r);
    case Consume => owner' := ConsumeKeeps(s, owner);
    case Advance(t) =>
      if t in s.calls {
        match s.calls[t]
        case BothTried(_, _, _) => FillKeeps(s, owner, t);
        case Filled(_, _, _) => owner' := PutKeeps(s, owner, t);
        case Dropping(_, _) => owner' := DropKeeps(s, owner, t);
        case DroppingLast(_) => owner' := DropKeeps(s, owner, t);
        case Posting(_) => owner' := DropKeeps(s, owner, t);
        case _ =>
      }
  }
}
