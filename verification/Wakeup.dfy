/** When the consumer wakes. Entering the wait clears the pending events first, so what counts is not that a
    message is queued but that some call posts after the wait was entered. */
module Wakeup {
  import opened Options
  import opened Pipeline
  import opened PipelineHistory
  import opened Draining
  import opened Producer

  /** The step posts an event: the last step of a call whose message is on the queue. */
  predicate Posts(s: State, a: Action) {
    a.Advance? && a.t in s.calls && s.calls[a.t].Posting?
  }

  predicate Posted(s: State, actions: seq<Action>) {
    actions != [] &&
    (var n := |actions| - 1;
     Posted(s, actions[..n]) || Posts(Run(s, actions[..n]), actions[n]))
  }

  /** Some step posts, and the consumer is scheduled at some later step. */
  predicate PostedThenScheduled(s: State, actions: seq<Action>) {
    actions != [] &&
    (var n := |actions| - 1;
     PostedThenScheduled(s, actions[..n]) || (actions[n] == Consume && Posted(s, actions[..n])))
  }

  /** The consumer never leaves the wait during the run. */
  predicate SleepsThrough(s: State, actions: seq<Action>) {
    s.consumer == Blocked &&
    (actions == [] ||
     (SleepsThrough(s, actions[..|actions| - 1]) && Run(s, actions).consumer == Blocked))
  }

  lemma AsleepStep(s: State, a: Action)
    requires s.consumer == Blocked
    ensures var s' := Step(s, a);
            && (a == Consume ==> s' == if s.events == {} then s else s.(consumer := Checking))
            && (a != Consume ==>
                  && s'.consumer == Blocked && s'.dequeued == s.dequeued
                  && (s'.events == {} <==> s.events == {} && !Posts(s, a)))
  {
    match a
    case Enter(_, _) =>
    case Malloc(t, r) =>
    case Advance(t) =>
    case Consume =>
  }

  lemma AsleepQueue(s: State, a: Action)
    requires s.consumer == Blocked
    ensures s.queue <= Step(s, a).queue
  {
    QueueEffect(s, a);
  }

  lemma PostedSnoc(s: State, actions: seq<Action>)
    requires actions != []
    ensures var n := |actions| - 1;
            && Run(s, actions) == Step(Run(s, actions[..n]), actions[n])
            && (Posted(s, actions) <==> Posted(s, actions[..n]) || Posts(Run(s, actions[..n]), actions[n]))
            && (PostedThenScheduled(s, actions) <==>
                PostedThenScheduled(s, actions[..n]) || (actions[n] == Consume && Posted(s, actions[..n])))
            && (s.consumer == Blocked ==>
                (SleepsThrough(s, actions) <==> SleepsThrough(s, actions[..n]) && Run(s, actions).consumer == Blocked))
  {
  }

  /** A consumer in the wait with nothing pending, whatever is queued, sleeps through a run of any steps exactly
      until a call posts and the consumer is scheduled after that; while it sleeps the queue only grows. */
  lemma {:induction false} SleepsUntilPost(s: State, actions: seq<Action>)
    requires s.consumer == Blocked && s.events == {}
    ensures SleepsThrough(s, actions) <==> !PostedThenScheduled(s, actions)
    ensures SleepsThrough(s, actions) ==>
              var s' := Run(s, actions);
              && s'.consumer == Blocked && (s'.events == {} <==> !Posted(s, actions))
              && s.queue <= s'.queue && s'.dequeued == s.dequeued
  {
    if actions != [] {
      var n := |actions| - 1;
      var r := Run(s, actions[..n]);
      SleepsUntilPost(s, actions[..n]);
      PostedSnoc(s, actions);
      hide *;
      if SleepsThrough(s, actions[..n]) {
        AsleepStep(r, actions[n]);
        AsleepQueue(r, actions[n]);
        if actions[n] == Consume { ConsumePostsNothing(r); }
      }
    }
  }

  lemma ConsumePostsNothing(s: State)
    ensures !Posts(s, Consume)
  {
  }

  /** At any moment of a sleep the consumer, if scheduled next, wakes exactly when some call has posted. */
  lemma {:induction false} WakesIffPosted(s: State, actions: seq<Action>)
    requires s.consumer == Blocked && s.events == {} && SleepsThrough(s, actions)
    ensures ConsumeStep(Run(s, actions)).consumer == Checking <==> Posted(s, actions)
  {
    SleepsUntilPost(s, actions);
    hide Run, Posted, SleepsThrough;
    AsleepStep(Run(s, actions), Consume);
  }

  /** While the consumer is not scheduled, it stays in the wait, and wakes when scheduled exactly if a call posted. */
  lemma {:induction false} UnscheduledSleeps(s: State, actions: seq<Action>)
    requires s.consumer == Blocked && s.events == {} && Consume !in actions
    ensures Run(s, actions).consumer == Blocked
    ensures ConsumeStep(Run(s, actions)).consumer == Checking <==> Posted(s, actions)
  {
    NeverScheduled(s, actions);
    SleepsUntilPost(s, actions);
    WakesIffPosted(s, actions);
  }

  lemma {:induction false} NeverScheduled(s: State, actions: seq<Action>)
    requires Consume !in actions
    ensures !PostedThenScheduled(s, actions)
  {
    if actions != [] { NeverScheduled(s, actions[..|actions| - 1]); }
  }

  /** Entering the wait forgets every earlier post: from there on only later posts count. */
  lemma WaitForgetsPosts(s: State, actions: seq<Action>)
    requires s.consumer == Waiting
    ensures var w := Step(s, Consume);
            && w == s.(events := {}, consumer := Blocked)
            && (SleepsThrough(w, actions) <==> !PostedThenScheduled(w, actions))
            && (SleepsThrough(w, actions) ==> w.queue <= Run(w, actions).queue)
  {
    SleepsUntilPost(Step(s, Consume), actions);
  }

  function AtWait(before: seq<Action>): State {
    Step(Run(Initial(), before), Consume)
  }

  /** The consumer entered the wait after the steps `before` and has slept through the steps `since`. */
  ghost predicate AsleepSince(before: seq<Action>, since: seq<Action>) {
    && Run(Initial(), before).consumer == Waiting && AtWait(before).events == {}
    && SleepsThrough(AtWait(before), since)
    && Run(Initial(), before + [Consume] + since) == Run(AtWait(before), since)
  }

  /** Over every run from power-on that ends with the consumer in the wait: it entered that wait at some step,
      has slept since, and has a wake-up pending exactly when some call has posted since that step. */
  lemma {:induction false} PendingIffPostedSinceWait(actions: seq<Action>)
    returns (before: seq<Action>, since: seq<Action>)
    requires Run(Initial(), actions).consumer == Blocked
    ensures actions == before + [Consume] + since && AsleepSince(before, since)
    ensures Run(Initial(), actions).events != {} <==> Posted(AtWait(before), since)
  {
    before, since := LastWait(actions);
    SleepsUntilPost(AtWait(before), since);
  }

  lemma {:induction false} LastWait(actions: seq<Action>) returns (before: seq<Action>, since: seq<Action>)
    requires Run(Initial(), actions).consumer == Blocked
    ensures actions == before + [Consume] + since && AsleepSince(before, since)
  {
    assert actions != [];
    var front, a := actions[..|actions| - 1], actions[|actions| - 1];
    assert actions == front + [a];
    RunSnoc(Initial(), front, a);
    hide Run, Step;
    if Run(Initial(), front).consumer == Blocked {
      var earlier: seq<Action>;
      before, earlier := LastWait(front);
      since := earlier + [a];
      assert actions == before + [Consume] + since;
      hide AsleepSince;
      AsleepLonger(before, earlier, a);
    } else {
      before, since := front, [];
      EntersWait(Run(Initial(), front), a);
      assert actions == before + [Consume] + since;
      JustAsleep(before);
    }
  }

  lemma JustAsleep(before: seq<Action>)
    requires Run(Initial(), before).consumer == Waiting
    requires AtWait(before).consumer == Blocked && AtWait(before).events == {}
    ensures AsleepSince(before, [])
  {
    hide Step;
    assert before + [Consume] + [] == before + [Consume];
    RunSnoc(Initial(), before, Consume);
  }

  lemma AsleepLonger(before: seq<Action>, since: seq<Action>, a: Action)
    requires AsleepSince(before, since) && Run(Initial(), before + [Consume] + (since + [a])).consumer == Blocked
    ensures AsleepSince(before, since + [a])
  {
    hide Run, SleepsThrough, Step, AtWait;
    assert before + [Consume] + (since + [a]) == (before + [Consume] + since) + [a];
    RunSnoc(Initial(), before + [Consume] + since, a);
    RunSnoc(AtWait(before), since, a);
    SleepsLonger(AtWait(before), since, a);
  }

  lemma SleepsLonger(w: State, before: seq<Action>, a: Action)
    requires SleepsThrough(w, before) && Run(w, before + [a]).consumer == Blocked
    ensures SleepsThrough(w, before + [a])
  {
    hide Run;
    assert (before + [a])[..|before|] == before;
  }

  /** The only way into the wait. */
  lemma EntersWait(s: State, a: Action)
    requires s.consumer != Blocked && Step(s, a).consumer == Blocked
    ensures a == Consume && s.consumer == Waiting && Step(s, a).events == {}
  {
    if a != Consume { ConsumerEffect(s, a); }
  }

  // ---------- the losing schedule ----------

  /** A call that completes between the consumer's last look at the queue and its wait: the message is queued, its
      post is gone, and the consumer sleeps. */
  lemma PostBeforeWaitIsLost(s: State, t: nat, m: Message, p: Ptr, d: Ptr)
    requires s.consumer == Waiting && t !in s.calls && WellFormed(m) && |s.queue| < QUEUE_SIZE
    requires p !in s.heap && d !in s.heap && p != d
    ensures var s' := Run(s, CallScript(t, m, Some(p), Some(d)) + [Consume]);
            && s'.consumer == Blocked && s'.events == {} && s'.calls == s.calls
            && s'.queue == s.queue + [p] && s'.accepted == s.accepted + [m] && s'.dequeued == s.dequeued
  {
    var call := CallScript(t, m, Some(p), Some(d));
    CallRuns(s, t, m, Some(p), Some(d));
    RunSnoc(s, call, Consume);
  }

  lemma RunSnoc(s: State, actions: seq<Action>, a: Action)
    ensures Run(s, actions + [a]) == Step(Run(s, actions), a)
  {
    assert (actions + [a])[..|actions|] == actions;
  }

  /** A temperature reading queued before the first wait does not wake the consumer. */
  lemma LostWakeup(data: Bytes) returns (actions: seq<Action>)
    requires |data| == 6
    ensures var s := Run(Initial(), actions);
            && s.consumer == Blocked && s.events == {} && s.calls == map[]
            && s.accepted == [Message(Aht20Event, data)] && s.dequeued == []
  {
    var m := Message(Aht20Event, data);
    actions := CallScript(0, m, Some(0), Some(1)) + [Consume];
    PostBeforeWaitIsLost(Initial(), 0, m, 0, 1);
  }

  /** From power-on: the consumer enters the wait, a message arrives, and the consumer wakes. */
  lemma OneArrival(m: Message) returns (actions: seq<Action>)
    requires WellFormed(m)
    ensures var s := Run(Initial(), actions);
            s.consumer == Checking && s.calls == map[] && |s.queue| == 1 && s.accepted == [m]
  {
    var asleep := Initial().(consumer := Blocked);
    var call := CallScript(0, m, Some(0), Some(1));
    CallRuns(asleep, 0, m, Some(0), Some(1));
    hide Run, CallScript;
    RunSnoc(asleep, call, Consume);
    RunFirst(Initial(), Consume, call + [Consume], asleep);
    actions := [Consume] + (call + [Consume]);
  }

  /** The message is drained, and the consumer is about to wait again. */
  lemma OneRound(m: Message) returns (round: seq<Action>)
    requires WellFormed(m)
    ensures var s := Run(Initial(), round);
            && s.consumer == Waiting && s.heap == map[] && s.calls == map[] && s.queue == []
            && s.accepted == [m] && s.dequeued == [m]
  {
    var arrival := OneArrival(m);
    DrainLeavesCallBlocks(arrival);
    var s := Run(Initial(), arrival);
    hide Run, Consumes, CallBlocks, Frames;
    var drained := Run(s, Consumes(5 * |s.queue|));
    RunConcat(Initial(), arrival, Consumes(5 * |s.queue|));
    round := (arrival + Consumes(5 * |s.queue|)) + [Consume];
    RunSnoc(Initial(), arrival + Consumes(5 * |s.queue|), Consume);
    BackToWait(drained);
  }

  lemma BackToWait(s: State)
    requires s.consumer == Checking && s.queue == []
    ensures Step(s, Consume) == s.(consumer := Waiting)
  {
  }

  /** A reading that arrives after the last drain and before the next wait does not wake the consumer either, although
      an earlier one did. */
  lemma LostAfterDrain(data: Bytes) returns (actions: seq<Action>)
    requires |data| == 6
    ensures var s, m := Run(Initial(), actions), Message(Aht20Event, data);
            && s.consumer == Blocked && s.events == {} && s.calls == map[]
            && s.accepted == [m, m] && s.dequeued == [m]
  {
    var m := Message(Aht20Event, data);
    var round := OneRound(m);
    var rest := CallScript(0, m, Some(0), Some(1)) + [Consume];
    hide CallScript;
    actions := round + rest;
    RunConcat(Initial(), round, rest);
    PostBeforeWaitIsLost(Run(Initial(), round), 0, m, 0, 1);
  }
}
