/** Saving and restoring the Thread poll period around a provisioning request. Requests and mode toggles run
    on one work queue, replies on the network thread; neither side takes a lock around the saved period. */
module PollPeriod {
  import opened Options

  const RESPONSE_POLL_PERIOD: nat := 100
  const ADDRESS_SIZE: nat := 16

  type Address = seq<bv8>

  /** Where the work queue stands inside `poll_period_response_set`. */
  datatype Worker = Idle | Testing | Saving | Shortening

  /** Where the network thread stands inside `poll_period_restore`. */
  datatype Replier = Quiet | Checking | WritingBack | Clearing

  datatype State = State(saved: nat, link: nat, rxOnWhenIdle: bool, peer: Address, worker: Worker, replier: Replier)

  datatype Action =
    | BeginRequest
    | WorkerStep
    | Toggle(accepted: bool)
    | BeginReply(payload: Option<Address>)
    | ReplierStep

  predicate ValidPayload(payload: Option<Address>) {
    payload.Some? && |payload.value| == ADDRESS_SIZE
  }

  function StepWorker(s: State): State {
    match s.worker
    case Idle => s
    case Testing => s.(worker := if s.saved == 0 then Saving else Idle)
    case Saving => s.(saved := s.link, worker := Shortening)
    case Shortening => s.(link := RESPONSE_POLL_PERIOD, worker := Idle)
  }

  function StepReplier(s: State): State {
    match s.replier
    case Quiet => s
    case Checking => s.(replier := if s.saved != 0 then WritingBack else Quiet)
    case WritingBack => s.(link := s.saved, replier := Clearing)
    case Clearing => s.(saved := 0, replier := Quiet)
  }

  /** One step of either thread. A thread takes up its next job only after the current one has returned. */
  function Step(s: State, a: Action): State {
    match a
    case BeginRequest => if s.worker.Idle? && !s.rxOnWhenIdle then s.(worker := Testing) else s
    case WorkerStep => StepWorker(s)
    case Toggle(accepted) => if s.worker.Idle? && accepted then s.(rxOnWhenIdle := !s.rxOnWhenIdle) else s
    case BeginReply(payload) =>
      if !s.replier.Quiet? then s
      else s.(peer := if ValidPayload(payload) then payload.value else s.peer,
              replier := if s.rxOnWhenIdle then Quiet else Checking)
    case ReplierStep => StepReplier(s)
  }

  function Run(s: State, actions: seq<Action>): State
    decreases |actions|
  {
    if actions == [] then s else Run(Step(s, actions[0]), actions[1..])
  }

  // ---------- the saved period over interleaved threads ----------

  predicate AtRest(s: State) { s.worker.Idle? && s.replier.Quiet? }

  /** The original period is either in force, or put aside while the short one is. */
  predicate Kept(s: State, period: nat) {
    (s.saved == 0 && s.link == period) || (s.saved == period && s.link == RESPONSE_POLL_PERIOD)
  }

  /** A reply writes the period back between the two stores of a request. */
  predicate Intrudes(s: State, a: Action) {
    s.worker.Shortening? && s.replier.WritingBack? && a.ReplierStep?
  }

  predicate Intruded(s: State, actions: seq<Action>)
    decreases |actions|
  {
    actions != [] && (Intrudes(s, actions[0]) || Intruded(Step(s, actions[0]), actions[1..]))
  }

  /** What holds at every step as long as no reply has intruded. */
  predicate Safe(s: State, period: nat) {
    && (s.saved == 0 || s.saved == period)
    && (s.saved == 0 ==> s.link == period && !s.worker.Shortening? && !s.replier.WritingBack? && !s.replier.Clearing?)
    && (s.saved != 0 ==> !s.worker.Saving?
                         && (s.worker.Shortening? || s.replier.Clearing? || s.link == RESPONSE_POLL_PERIOD))
    && (s.worker.Shortening? ==> s.link == period && !s.replier.Clearing?)
    && (s.replier.Clearing? ==> s.link == period)
  }

  /** What holds at every step after an intrusion: both threads race to finish, then the short period stays. */
  predicate Lost(s: State, period: nat) {
    || (s.saved == period && s.link == period && s.worker.Shortening? && s.replier.Clearing?)
    || (s.saved == period && s.link == RESPONSE_POLL_PERIOD
        && (s.worker.Idle? || s.worker.Testing?) && s.replier.Clearing?)
    || (s.saved == 0 && s.link == period && s.worker.Shortening? && (s.replier.Quiet? || s.replier.Checking?))
    || (s.saved == RESPONSE_POLL_PERIOD && s.link == RESPONSE_POLL_PERIOD)
    || (s.saved == 0 && s.link == RESPONSE_POLL_PERIOD && !s.replier.WritingBack?)
  }

  lemma StepSafe(s: State, a: Action, period: nat)
    requires period != 0 && Safe(s, period) && !Intrudes(s, a)
    ensures Safe(Step(s, a), period)
  {
  }

  lemma IntrusionLoses(s: State, a: Action, period: nat)
    requires period != 0 && Safe(s, period) && Intrudes(s, a)
    ensures Lost(Step(s, a), period)
  {
  }

  lemma StepLost(s: State, a: Action, period: nat)
    requires period != 0 && Lost(s, period)
    ensures Lost(Step(s, a), period)
  {
  }

  lemma {:induction false} RunLost(s: State, actions: seq<Action>, period: nat)
    requires period != 0 && Lost(s, period)
    ensures Lost(Run(s, actions), period)
    decreases |actions|
  {
    if actions != [] {
      StepLost(s, actions[0], period);
      RunLost(Step(s, actions[0]), actions[1..], period);
    }
  }

  lemma {:induction false} RunSafeOrLost(s: State, actions: seq<Action>, period: nat)
    requires period != 0 && Safe(s, period)
    ensures if Intruded(s, actions) then Lost(Run(s, actions), period) else Safe(Run(s, actions), period)
    decreases |actions|
  {
    if actions != [] {
      var s' := Step(s, actions[0]);
      if Intrudes(s, actions[0]) {
        IntrusionLoses(s, actions[0], period);
        RunLost(s', actions[1..], period);
      } else {
        StepSafe(s, actions[0], period);
        RunSafeOrLost(s', actions[1..], period);
      }
    }
  }

  /** However the two threads interleave, once both are at rest the original period is still known exactly
      when no reply wrote it back between the two stores of a request (or when it equals the short one). */
  lemma KeptIffNoIntrusion(s: State, actions: seq<Action>, period: nat)
    requires period != 0 && AtRest(s) && Kept(s, period) && AtRest(Run(s, actions))
    ensures Kept(Run(s, actions), period) <==> !Intruded(s, actions) || period == RESPONSE_POLL_PERIOD
  {
    RunSafeOrLost(s, actions, period);
  }

  /** Without an intrusion the saved period is only ever empty or the original one, at every step. */
  lemma NeverOverwritten(s: State, actions: seq<Action>, period: nat)
    requires period != 0 && AtRest(s) && Kept(s, period) && !Intruded(s, actions)
    ensures Run(s, actions).saved in {0, period}
    ensures Run(s, actions).link in {period, RESPONSE_POLL_PERIOD}
  {
    RunSafeOrLost(s, actions, period);
  }

  /** The step hands a request to the network: the worker is done with the period, or leaves it alone. */
  predicate Sends(s: State, a: Action) {
    || (a.WorkerStep? && !s.worker.Idle? && StepWorker(s).worker.Idle?)
    || (a.BeginRequest? && s.worker.Idle? && s.rxOnWhenIdle)
  }

  predicate Receives(s: State, a: Action) {
    a.BeginReply? && s.replier.Quiet?
  }

  /** Requests sent and not yet answered. */
  function OpenAfter(s: State, a: Action, open: nat): nat {
    if Sends(s, a) then open + 1 else if Receives(s, a) && open > 0 then open - 1 else open
  }

  /** Every reply of the run answers a request that was already sent, and no request is answered twice. */
  predicate RepliesAnswer(s: State, actions: seq<Action>, open: nat)
    decreases |actions|
  {
    actions == [] ||
    ((Receives(s, actions[0]) ==> open > 0)
     && RepliesAnswer(Step(s, actions[0]), actions[1..], OpenAfter(s, actions[0], open)))
  }

  lemma RunFirst(s: State, a: Action, rest: seq<Action>, open: nat)
    ensures Run(s, [a] + rest) == Run(Step(s, a), rest)
    ensures Intruded(s, [a] + rest) <==> Intrudes(s, a) || Intruded(Step(s, a), rest)
    ensures RepliesAnswer(s, [a] + rest, open) <==>
            (Receives(s, a) ==> open > 0) && RepliesAnswer(Step(s, a), rest, OpenAfter(s, a, open))
  {
    assert ([a] + rest)[1..] == rest;
  }

  /** A request in sleepy mode, up to and including its send. */
  lemma RequestThen(s: State, rest: seq<Action>, open: nat) returns (actions: seq<Action>)
    requires AtRest(s) && !s.rxOnWhenIdle && s.saved == 0
    ensures var s' := s.(saved := s.link, link := RESPONSE_POLL_PERIOD);
            Run(s, actions) == Run(s', rest) && (RepliesAnswer(s, actions, open) <==> RepliesAnswer(s', rest, open + 1))
  {
    var s2 := s.(saved := s.link, worker := Shortening);
    RunFirst(s2, WorkerStep, rest, open);
    actions := HalfRequestThen(s, [WorkerStep] + rest, open);
  }

  /** The same request stopped between its two stores. */
  lemma HalfRequestThen(s: State, rest: seq<Action>, open: nat) returns (actions: seq<Action>)
    requires s.worker.Idle? && !s.rxOnWhenIdle && s.saved == 0
    ensures var s' := s.(saved := s.link, worker := Shortening);
            Run(s, actions) == Run(s', rest) && (RepliesAnswer(s, actions, open) <==> RepliesAnswer(s', rest, open))
  {
    hide Run, RepliesAnswer, Intruded;
    var s1, s2 := s.(worker := Testing), s.(worker := Saving);
    RunFirst(s2, WorkerStep, rest, open);
    RunFirst(s1, WorkerStep, [WorkerStep] + rest, open);
    RunFirst(s, BeginRequest, [WorkerStep] + ([WorkerStep] + rest), open);
    actions := [BeginRequest] + ([WorkerStep] + ([WorkerStep] + rest));
  }

  /** A request while the period is already short. */
  lemma RequestAgainThen(s: State, rest: seq<Action>, open: nat) returns (actions: seq<Action>)
    requires AtRest(s) && !s.rxOnWhenIdle && s.saved != 0
    ensures Run(s, actions) == Run(s, rest) && (RepliesAnswer(s, actions, open) <==> RepliesAnswer(s, rest, open + 1))
  {
    hide Run, RepliesAnswer, Intruded;
    RunFirst(s.(worker := Testing), WorkerStep, rest, open);
    RunFirst(s, BeginRequest, [WorkerStep] + rest, open);
    actions := [BeginRequest] + ([WorkerStep] + rest);
  }

  /** A reply handled in sleepy mode, wherever the work queue stands. */
  lemma ReplyThen(s: State, peer: Address, rest: seq<Action>, open: nat) returns (actions: seq<Action>)
    requires s.replier.Quiet? && !s.rxOnWhenIdle && s.saved != 0 && |peer| == ADDRESS_SIZE && open > 0
    ensures var s' := s.(saved := 0, link := s.saved, peer := peer);
            Run(s, actions) == Run(s', rest) && (RepliesAnswer(s, actions, open) <==> RepliesAnswer(s', rest, open - 1))
  {
    hide Run, RepliesAnswer, Intruded;
    var a := BeginReply(Some(peer));
    var s1 := s.(peer := peer, replier := Checking);
    var s2 := s1.(replier := WritingBack);
    var s3 := s1.(link := s.saved, replier := Clearing);
    RunFirst(s3, ReplierStep, rest, open - 1);
    RunFirst(s2, ReplierStep, [ReplierStep] + rest, open - 1);
    RunFirst(s1, ReplierStep, [ReplierStep] + ([ReplierStep] + rest), open - 1);
    RunFirst(s, a, [ReplierStep] + ([ReplierStep] + ([ReplierStep] + rest)), open);
    actions := [a] + ([ReplierStep] + ([ReplierStep] + ([ReplierStep] + rest)));
  }

  /** The losing schedule: two requests, a reply to the first, and a reply to the second that restores while a
      third request is between its stores. Every reply answers a request of its own. From then on, whatever
      follows, the short period is the only one left. */
  lemma LateReplyLosesPeriod(peer: Address, period: nat) returns (race: seq<Action>)
    requires period != 0 && period != RESPONSE_POLL_PERIOD && |peer| == ADDRESS_SIZE
    ensures var s := State(0, period, false, peer, Idle, Quiet);
            && AtRest(Run(s, race)) && RepliesAnswer(s, race, 0)
            && forall later :: AtRest(Run(Run(s, race), later)) ==> !Kept(Run(Run(s, race), later), period)
  {
    var s := State(0, period, false, peer, Idle, Quiet);
    var short := s.(saved := period, link := RESPONSE_POLL_PERIOD);
    var window := s.(saved := period, worker := Shortening);
    var lost := s.(link := RESPONSE_POLL_PERIOD);
    assert Run(lost, []) == lost && RepliesAnswer(lost, [], 1);
    hide Run, RepliesAnswer, Intruded;
    RunFirst(s.(worker := Shortening), WorkerStep, [], 0);
    race := ReplyThen(window, peer, [WorkerStep] + [], 1);
    race := HalfRequestThen(s, race, 1);
    race := ReplyThen(short, peer, race, 2);
    race := RequestAgainThen(short, race, 1);
    race := RequestThen(s, race, 0);
    forall later | AtRest(Run(lost, later)) ensures !Kept(Run(lost, later), period) {
      RunLost(lost, later, period);
    }
  }

  lemma Unfold3(s: State, a: Action, b: Action, c: Action, rest: seq<Action>)
    ensures Run(s, [a, b, c] + rest) == Run(Step(Step(Step(s, a), b), c), rest)
    ensures Intruded(s, [a, b, c] + rest) <==>
            Intrudes(s, a) || Intrudes(Step(s, a), b) || Intrudes(Step(Step(s, a), b), c)
            || Intruded(Step(Step(Step(s, a), b), c), rest)
  {
    assert [a, b, c] + rest == [a] + ([b] + ([c] + rest));
    hide *;
    RunFirst(s, a, [b] + ([c] + rest), 0);
    RunFirst(Step(s, a), b, [c] + rest, 0);
    RunFirst(Step(Step(s, a), b), c, rest, 0);
  }

  lemma Unfold4(s: State, a: Action, b: Action, c: Action, d: Action, rest: seq<Action>)
    ensures Run(s, [a, b, c, d] + rest) == Run(Step(Step(Step(Step(s, a), b), c), d), rest)
    ensures Intruded(s, [a, b, c, d] + rest) <==>
            Intrudes(s, a) || Intrudes(Step(s, a), b) || Intrudes(Step(Step(s, a), b), c)
            || Intrudes(Step(Step(Step(s, a), b), c), d) || Intruded(Step(Step(Step(Step(s, a), b), c), d), rest)
  {
    assert [a, b, c, d] + rest == [a, b, c] + ([d] + rest);
    hide *;
    Unfold3(s, a, b, c, [d] + rest);
    RunFirst(Step(Step(Step(s, a), b), c), d, rest, 0);
  }

  // ---------- whole operations, one after the other ----------

  datatype Operation = Request | Reply(payload: Option<Address>) | ToggleMode(accepted: bool)

  function Operate(s: State, o: Operation): State {
    match o
    case Request =>
      if s.rxOnWhenIdle || s.saved != 0 then s else s.(saved := s.link, link := RESPONSE_POLL_PERIOD)
    case Reply(payload) =>
      var heard := s.(peer := if ValidPayload(payload) then payload.value else s.peer);
      if s.rxOnWhenIdle || s.saved == 0 then heard else heard.(link := s.saved, saved := 0)
    case ToggleMode(accepted) => if accepted then s.(rxOnWhenIdle := !s.rxOnWhenIdle) else s
  }

  function OperateAll(s: State, ops: seq<Operation>): State {
    if ops == [] then s else Operate(OperateAll(s, ops[..|ops| - 1]), ops[|ops| - 1])
  }

  /** The steps of one operation, taken without interruption. */
  function Script(o: Operation): seq<Action> {
    match o
    case Request => [BeginRequest, WorkerStep, WorkerStep, WorkerStep]
    case Reply(payload) => [BeginReply(payload), ReplierStep, ReplierStep, ReplierStep]
    case ToggleMode(accepted) => [Toggle(accepted)]
  }

  /** An uninterrupted operation is a run of the interleaved machine, and cannot intrude on anything. */
  lemma OperationIsRun(s: State, o: Operation)
    requires AtRest(s)
    ensures Run(s, Script(o)) == Operate(s, o) && AtRest(Operate(s, o))
    ensures !Intruded(s, Script(o))
  {
    var a := Script(o);
    if !o.ToggleMode? {
      assert a == [a[0], a[1], a[2], a[3]] + [];
      Unfold4(s, a[0], a[1], a[2], a[3], []);
    } else {
      assert a[1..] == [];
    }
  }

  /** Requests, replies (missing, repeated or malformed) and toggles in any order keep the period. */
  lemma {:induction false} OperationsKeep(s: State, ops: seq<Operation>, period: nat)
    requires period != 0 && AtRest(s) && Kept(s, period)
    ensures AtRest(OperateAll(s, ops)) && Kept(OperateAll(s, ops), period)
  {
    if ops != [] {
      var before := OperateAll(s, ops[..|ops| - 1]);
      OperationsKeep(s, ops[..|ops| - 1], period);
      OperationIsRun(before, ops[|ops| - 1]);
      RunSafeOrLost(before, Script(ops[|ops| - 1]), period);
    }
  }

  function AcceptedToggles(ops: seq<Operation>): nat {
    if ops == [] then 0
    else AcceptedToggles(ops[..|ops| - 1]) + if ops[|ops| - 1] == ToggleMode(true) then 1 else 0
  }

  /** Whether the device is a sleepy end device just before operation `i`. */
  predicate SleepyAt(sleepy: bool, ops: seq<Operation>, i: nat)
    requires i <= |ops|
  {
    sleepy == (AcceptedToggles(ops[..i]) % 2 == 0)
  }

  lemma {:induction false} ModeIsParity(s: State, ops: seq<Operation>)
    ensures OperateAll(s, ops).rxOnWhenIdle == !SleepyAt(!s.rxOnWhenIdle, ops, |ops|)
  {
    if ops != [] {
      var front := ops[..|ops| - 1];
      ModeIsParity(s, front);
      assert front[..|front|] == front && ops[..|ops|] == ops;
    }
  }

  /** Operation `i` shortened the period and no later reply has been handled in sleepy mode. */
  predicate Pending(sleepy: bool, ops: seq<Operation>, i: nat) {
    && i < |ops| && ops[i] == Request && SleepyAt(sleepy, ops, i)
    && forall j :: i < j < |ops| && ops[j].Reply? ==> !SleepyAt(sleepy, ops, j)
  }

  ghost predicate AnyPending(sleepy: bool, ops: seq<Operation>) {
    exists i: nat :: Pending(sleepy, ops, i)
  }

  lemma PrefixSleepy(sleepy: bool, ops: seq<Operation>, o: Operation, i: nat)
    requires i <= |ops|
    ensures SleepyAt(sleepy, ops + [o], i) == SleepyAt(sleepy, ops, i)
  {
    assert (ops + [o])[..i] == ops[..i];
  }

  lemma PendingAfter(sleepy: bool, ops: seq<Operation>, o: Operation)
    ensures AnyPending(sleepy, ops + [o]) ==
            if !SleepyAt(sleepy, ops, |ops|) || o.ToggleMode? then AnyPending(sleepy, ops) else o.Request?
  {
    hide SleepyAt;
    var all, n := ops + [o], |ops|;
    forall i: nat | i <= n ensures SleepyAt(sleepy, all, i) == SleepyAt(sleepy, ops, i) {
      PrefixSleepy(sleepy, ops, o, i);
    }
    forall i: nat | i < n
      ensures Pending(sleepy, all, i) <==> Pending(sleepy, ops, i) && (o.Reply? ==> !SleepyAt(sleepy, ops, n))
    {
      if Pending(sleepy, all, i) {
        forall j | i < j < n && ops[j].Reply? ensures !SleepyAt(sleepy, ops, j) { assert all[j] == ops[j]; }
        assert all[n] == o;
      }
    }
    assert Pending(sleepy, all, n) <==> o.Request? && SleepyAt(sleepy, ops, n);
    if AnyPending(sleepy, ops) {
      var i: nat :| Pending(sleepy, ops, i);
      assert Pending(sleepy, all, i) <==> (o.Reply? ==> !SleepyAt(sleepy, ops, n));
    }
  }

  /** The link runs on the short period exactly while some request made in sleepy mode is still waiting for a
      reply handled in sleepy mode. */
  lemma {:induction false} ShortenedIffPending(s: State, ops: seq<Operation>, period: nat)
    requires period != 0 && s.saved == 0 && s.link == period
    ensures OperateAll(s, ops).link == if AnyPending(!s.rxOnWhenIdle, ops) then 100 else period
    ensures OperateAll(s, ops).saved == if AnyPending(!s.rxOnWhenIdle, ops) then period else 0
  {
    if ops != [] {
      var front, o := ops[..|ops| - 1], ops[|ops| - 1];
      assert ops == front + [o];
      ShortenedIffPending(s, front, period);
      ModeIsParity(s, front);
      PendingAfter(!s.rxOnWhenIdle, front, o);
    }
  }

  /** Sixteen bytes, the size of an IPv6 address. */
  lemma ValidPayloadIs(payload: Option<Address>)
    ensures ValidPayload(payload) <==> payload.Some? && |payload.value| == 16
  {
  }

  /** Operation `i` delivered this address and no later reply had the right size. */
  predicate LastDelivered(ops: seq<Operation>, i: nat, peer: Address) {
    && i < |ops| && ops[i] == Reply(Some(peer)) && |peer| == ADDRESS_SIZE
    && NoneValidFrom(ops, i + 1)
  }

  predicate NoneValidFrom(ops: seq<Operation>, i: nat) {
    forall j :: i <= j < |ops| && ops[j].Reply? ==> !ValidPayload(ops[j].payload)
  }

  /** The address the unicast light requests go to is the payload of the last reply of the right size, or the
      first address when there was none. */
  lemma {:induction false} PeerIsLastValidReply(s: State, ops: seq<Operation>) returns (last: Option<nat>)
    ensures last.None? ==> OperateAll(s, ops).peer == s.peer && NoneValidFrom(ops, 0)
    ensures last.Some? ==> LastDelivered(ops, last.value, OperateAll(s, ops).peer)
  {
    last := None;
    if ops != [] {
      var front, o := ops[..|ops| - 1], ops[|ops| - 1];
      assert ops == front + [o];
      PeerStep(OperateAll(s, front), o);
      last := PeerIsLastValidReply(s, front);
      if o.Reply? && ValidPayload(o.payload) {
        last := Some(|ops| - 1);
        assert o == Reply(Some(o.payload.value));
      } else {
        hide Operate, ValidPayload;
        if last.Some? { NoneValidSnoc(ops, last.value + 1); } else { NoneValidSnoc(ops, 0); }
      }
    }
  }

  lemma PeerStep(s: State, o: Operation)
    ensures Operate(s, o).peer == if o.Reply? && ValidPayload(o.payload) then o.payload.value else s.peer
  {
  }

  lemma NoneValidSnoc(ops: seq<Operation>, i: nat)
    requires ops != [] && NoneValidFrom(ops[..|ops| - 1], i)
    requires !(ops[|ops| - 1].Reply? && ValidPayload(ops[|ops| - 1].payload))
    ensures NoneValidFrom(ops, i)
  {
    forall j | i <= j < |ops| && ops[j].Reply? ensures !ValidPayload(ops[j].payload) {
      assert j < |ops| - 1 ==> ops[..|ops| - 1][j] == ops[j];
    }
  }

  // ---------- the client's own variables ----------

  class Client {
    var pollPeriod: nat
    var linkPeriod: nat
    var rxOnWhenIdle: bool
    var peer: Address

    function Model(): State
      reads this
    {
      State(pollPeriod, linkPeriod, rxOnWhenIdle, peer, Idle, Quiet)
    }

    constructor (period: nat, rxOnWhenIdle: bool)
      ensures Model() == State(0, period, rxOnWhenIdle, seq(ADDRESS_SIZE, _ => 0), Idle, Quiet)
    {
      pollPeriod, linkPeriod := 0, period;
      this.rxOnWhenIdle := rxOnWhenIdle;
      peer := seq(ADDRESS_SIZE, _ => 0);
    }

    method PollPeriodResponseSet()
      modifies `pollPeriod, `linkPeriod
      ensures Model() == Operate(old(Model()), Request)
    {
      if rxOnWhenIdle { return; }
      if pollPeriod == 0 {
        pollPeriod := linkPeriod;
        linkPeriod := RESPONSE_POLL_PERIOD;
      }
    }

    method PollPeriodRestore()
      modifies `pollPeriod, `linkPeriod
      ensures Model() == Operate(old(Model()), Reply(None))
    {
      if rxOnWhenIdle { return; }
      if pollPeriod != 0 {
        linkPeriod := pollPeriod;
        pollPeriod := 0;
      }
    }

    /** The request goes to the multicast group whatever happened to the poll period. */
    method SendProvisioningRequest()
      modifies `pollPeriod, `linkPeriod
      ensures Model() == Operate(old(Model()), Request)
      ensures !rxOnWhenIdle && old(pollPeriod) == 0 ==> pollPeriod == old(linkPeriod)
    {
      PollPeriodResponseSet();
    }

    /** The period is restored on the error paths as well. */
    method OnProvisioningReply(payload: Option<Address>, printable: bool) returns (valid: bool)
      modifies `pollPeriod, `linkPeriod, `peer
      ensures Model() == Operate(old(Model()), Reply(payload))
      ensures valid == (ValidPayload(payload) && printable)
    {
      valid := payload.Some? && |payload.value| == ADDRESS_SIZE;
      if valid {
        peer := payload.value;
        valid := printable;
      }
      PollPeriodRestore();
    }

    /** Returns the mode announced to the application, if the stack accepted the change. */
    method ToggleMinimalSleepyEndDevice(accepted: bool) returns (announced: Option<bool>)
      modifies `rxOnWhenIdle
      ensures Model() == Operate(old(Model()), ToggleMode(accepted))
      ensures announced == if accepted then Some(rxOnWhenIdle) else None
    {
      var mode := !rxOnWhenIdle;
      announced := None;
      if accepted {
        rxOnWhenIdle := mode;
        announced := Some(mode);
      }
    }
  }
}
