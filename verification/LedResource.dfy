/** The LED resource of the CoAP server: what each request does to the LED states, which response it gets, and
    what becomes of every message taken from the stack. */
module LedResource {

  datatype Type = Confirmable | NonConfirmable | Acknowledgment | Reset
  datatype Code = Get | Put | Changed | Content | OtherCode

  const LED_OFF: int := 0
  const LED_ON: int := 1
  const LED_TOGGLE: int := 2
  const JSON_MAX_LED: nat := 4

  /** A parsed body; the parser's view of the bytes is an input of the model. */
  datatype LedState = LedState(id: nat, state: int)

  datatype Request = Request(typ: Type, code: Code, body: LedState)

  datatype Packet = Packet(typ: Type, code: Code, leds: seq<LedState>)

  datatype Return = Done | InvalidArgument | NoDevice | NoMemory | BadMessage | IoError | GpioError(code: int)

  /** What the stack and the pin driver answer while one request is handled. */
  datatype Answers = Answers(gpio: int, instance: bool, message: bool, prepared: bool,
    marked: bool, appended: bool, sent: bool)

  predicate StackUp(x: Answers) {
    x.instance && x.message && x.prepared && x.marked && x.appended && x.sent
  }

  predicate Bits(leds: seq<int>) {
    |leds| <= JSON_MAX_LED && forall i :: 0 <= i < |leds| ==> leds[i] == 0 || leds[i] == 1
  }

  // ---------- specification ----------

  /** Whether the request reaches LED `k` with a state the switch knows. */
  predicate Commands(r: Request, k: nat, count: nat) {
    && (r.typ == Confirmable || r.typ == NonConfirmable) && r.code == Put
    && r.body.id == k < count && LED_OFF <= r.body.state <= LED_TOGGLE
  }

  function Commanded(was: int, state: int): int {
    if state == LED_TOGGLE then 1 - was else state
  }

  function After(leds: seq<int>, r: Request): seq<int> {
    if Commands(r, r.body.id, |leds|) then leds[r.body.id := Commanded(leds[r.body.id], r.body.state)] else leds
  }

  function AfterAll(leds: seq<int>, rs: seq<Request>): seq<int> {
    if rs == [] then leds else After(AfterAll(leds, rs[..|rs| - 1]), rs[|rs| - 1])
  }

  /** The state list a reply carries: identifiers in order, each with its state. */
  function Report(leds: seq<int>): seq<LedState> {
    seq(|leds|, i requires 0 <= i < |leds| => LedState(i, leds[i]))
  }

  function ResponseType(t: Type): Type {
    if t == Confirmable then Acknowledgment else NonConfirmable
  }

  function ResponseCode(c: Code): Code {
    if c == Get then Content else Changed
  }

  /** The requests that are answered when nothing fails. */
  predicate Answered(leds: seq<int>, r: Request) {
    || (r.code == Get && (r.typ == Confirmable || r.typ == NonConfirmable))
    || (r.typ == Confirmable && Commands(r, r.body.id, |leds|))
  }

  predicate Responds(leds: seq<int>, r: Request, x: Answers) {
    Answered(leds, r) && StackUp(x) && (r.code == Put ==> x.gpio == 0)
  }

  function Responses(leds: seq<int>, r: Request, x: Answers): seq<Packet> {
    if Responds(leds, r, x) then [Packet(ResponseType(r.typ), ResponseCode(r.code), Report(After(leds, r)))] else []
  }

  // ---------- what one request does and gets, spelled out ----------

  predicate Plain(t: Type) {
    t == Confirmable || t == NonConfirmable
  }

  /** A PUT of 0, 1 or 2 for an LED that exists clears, sets or turns it over, and touches no other LED. */
  lemma PutEffect(leds: seq<int>, typ: Type, k: nat)
    requires Plain(typ) && k < |leds|
    ensures After(leds, Request(typ, Put, LedState(k, 0))) == leds[k := 0]
    ensures After(leds, Request(typ, Put, LedState(k, 1))) == leds[k := 1]
    ensures After(leds, Request(typ, Put, LedState(k, 2))) == leds[k := 1 - leds[k]]
  {
  }

  /** Any other request leaves all LEDs alone. */
  lemma NoEffect(leds: seq<int>, r: Request)
    requires !Plain(r.typ) || r.code != Put || r.body.id >= |leds| || r.body.state < 0 || r.body.state > 2
    ensures After(leds, r) == leds
  {
  }

  /** The response fits the request. */
  predicate FitsRequest(r: Request, p: Packet) {
    && ((r.code == Get && p.code == Content) || (r.code == Put && p.code == Changed))
    && ((r.typ == Confirmable && p.typ == Acknowledgment) || (r.typ == NonConfirmable && p.typ == NonConfirmable))
  }

  /** When a request gets a response, and which: 2.05 Content for a GET, 2.04 Changed for a PUT, piggybacked on the
      acknowledgment of a confirmable request, non-confirmable otherwise. */
  lemma ResponseIff(leds: seq<int>, r: Request, x: Answers)
    ensures Responses(leds, r, x) != [] <==>
            && x.instance && x.message && x.prepared && x.marked && x.appended && x.sent
            && ((Plain(r.typ) && r.code == Get)
                || (r.typ == Confirmable && r.code == Put && r.body.id < |leds| && 0 <= r.body.state <= 2
                    && x.gpio == 0))
    ensures |Responses(leds, r, x)| <= 1
    ensures forall p :: p in Responses(leds, r, x) ==> FitsRequest(r, p) && p.leds == Report(After(leds, r))
  {
  }

  /** The report lists every LED once, in order, with its state. */
  lemma ReportIs(leds: seq<int>)
    ensures |Report(leds)| == |leds|
    ensures forall i :: 0 <= i < |leds| ==> Report(leds)[i].id == i && Report(leds)[i].state == leds[i]
  {
  }

  // ---------- states over whole request sequences ----------

  function Toggles(rs: seq<Request>, k: nat, count: nat): nat {
    if rs == [] then 0
    else Toggles(rs[..|rs| - 1], k, count)
         + if Commands(rs[|rs| - 1], k, count) && rs[|rs| - 1].body.state == LED_TOGGLE then 1 else 0
  }

  predicate Sets(r: Request, k: nat, count: nat) {
    Commands(r, k, count) && r.body.state != LED_TOGGLE
  }

  lemma {:induction false} StatesStayBits(leds: seq<int>, rs: seq<Request>)
    requires Bits(leds)
    ensures Bits(AfterAll(leds, rs)) && |AfterAll(leds, rs)| == |leds|
  {
    if rs != [] { StatesStayBits(leds, rs[..|rs| - 1]); }
  }

  lemma {:induction false} Chained(leds: seq<int>, before: seq<Request>, rs: seq<Request>)
    ensures AfterAll(leds, before + rs) == AfterAll(AfterAll(leds, before), rs)
  {
    if rs == [] {
      assert before + rs == before;
    } else {
      var all := before + rs;
      assert all[..|all| - 1] == before + rs[..|rs| - 1];
      Chained(leds, before, rs[..|rs| - 1]);
    }
  }

  /** While no ON or OFF reaches LED `k`, its state changes with the parity of the toggles. */
  lemma {:induction false} TogglesOnly(leds: seq<int>, rs: seq<Request>, k: nat)
    requires Bits(leds) && k < |leds| && forall i :: 0 <= i < |rs| ==> !Sets(rs[i], k, |leds|)
    ensures |AfterAll(leds, rs)| == |leds|
    ensures AfterAll(leds, rs)[k] == (leds[k] + Toggles(rs, k, |leds|)) % 2
  {
    if rs != [] {
      var front := rs[..|rs| - 1];
      TogglesOnly(leds, front, k);
      StatesStayBits(leds, front);
    }
  }

  /** After the last ON or OFF that reached it, the state of an LED is that value turned over once for every
      later toggle that reached it; whatever happened before, and whether or not the pins obeyed, is forgotten. */
  lemma StateIsLastSetAndParity(leds: seq<int>, before: seq<Request>, r: Request, since: seq<Request>, k: nat)
    requires Bits(leds) && k < |leds| && Sets(r, k, |leds|)
    requires forall i :: 0 <= i < |since| ==> !Sets(since[i], k, |leds|)
    ensures |AfterAll(leds, before + [r] + since)| == |leds|
    ensures AfterAll(leds, before + [r] + since)[k] == (r.body.state + Toggles(since, k, |leds|)) % 2
  {
    Chained(leds, before + [r], since);
    StatesStayBits(leds, before);
    var base := AfterAll(leds, before + [r]);
    assert (before + [r])[..|before|] == before;
    assert base == After(AfterAll(leds, before), r);
    StatesStayBits(leds, before + [r]);
    TogglesOnly(base, since, k);
  }

  /** Requests that do not command an LED, other LEDs' included, leave it alone. */
  lemma {:induction false} OthersUntouched(leds: seq<int>, rs: seq<Request>, k: nat)
    requires k < |leds| && forall i :: 0 <= i < |rs| ==> !Commands(rs[i], k, |leds|)
    ensures |AfterAll(leds, rs)| == |leds| && AfterAll(leds, rs)[k] == leds[k]
  {
    if rs != [] { OthersUntouched(leds, rs[..|rs| - 1], k); }
  }

  /** A read after a write that was not followed by commands for the same LED reports what was written. */
  lemma ReadYourWrite(leds: seq<int>, w: Request, others: seq<Request>, g: Request, x: Answers)
    requires Bits(leds) && Sets(w, w.body.id, |leds|)
    requires forall i :: 0 <= i < |others| ==> !Commands(others[i], w.body.id, |leds|)
    requires g.code == Get && Responds(AfterAll(leds, [w] + others), g, x)
    ensures var reply := Responses(AfterAll(leds, [w] + others), g, x);
            |reply| == 1 && |reply[0].leds| == |leds| && reply[0].leds[w.body.id] == w.body
  {
    Chained(leds, [w], others);
    assert [w][..0] == [];
    assert AfterAll(leds, [w]) == After(leds, w);
    OthersUntouched(After(leds, w), others, w.body.id);
  }

  // ---------- the pins ----------

  /** The levels on the pins, which follow a command only when the driver takes it. */
  function PinsAfter(leds: seq<int>, pins: seq<int>, r: Request, x: Answers): seq<int>
    requires |pins| == |leds|
  {
    if Commands(r, r.body.id, |leds|) && x.gpio == 0 then pins[r.body.id := After(leds, r)[r.body.id]] else pins
  }

  /** A request together with what the stack and the driver answer while it is handled. */
  datatype Exchange = Exchange(req: Request, ans: Answers)

  function Requests(xs: seq<Exchange>): (rs: seq<Request>)
    ensures |rs| == |xs|
  {
    seq(|xs|, i requires 0 <= i < |xs| => xs[i].req)
  }

  function PinsAfterAll(leds: seq<int>, pins: seq<int>, xs: seq<Exchange>): (p: seq<int>)
    requires |pins| == |leds|
    ensures |p| == |leds|
  {
    if xs == [] then pins
    else
      var front, last := xs[..|xs| - 1], xs[|xs| - 1];
      SizeKept(leds, Requests(front));
      PinsAfter(AfterAll(leds, Requests(front)), PinsAfterAll(leds, pins, front), last.req, last.ans)
  }

  lemma {:induction false} SizeKept(leds: seq<int>, rs: seq<Request>)
    ensures |AfterAll(leds, rs)| == |leds|
  {
    if rs != [] { SizeKept(leds, rs[..|rs| - 1]); }
  }

  /** The exchange commands LED `k` and the pin driver takes the command. */
  predicate Taken(x: Exchange, k: nat, count: nat) {
    Commands(x.req, k, count) && x.ans.gpio == 0
  }

  /** The requests after the last command for LED `k` that the driver took. */
  function SinceTaken(xs: seq<Exchange>, k: nat, count: nat): seq<Request> {
    if xs == [] || Taken(xs[|xs| - 1], k, count) then []
    else SinceTaken(xs[..|xs| - 1], k, count) + [xs[|xs| - 1].req]
  }

  /** The value of the last ON or OFF for LED `k`, or `was` without one. */
  function LastSet(rs: seq<Request>, k: nat, count: nat, was: int): int {
    if rs == [] then was
    else if Sets(rs[|rs| - 1], k, count) then rs[|rs| - 1].body.state
    else LastSet(rs[..|rs| - 1], k, count, was)
  }

  function TogglesSinceSet(rs: seq<Request>, k: nat, count: nat): nat {
    if rs == [] || Sets(rs[|rs| - 1], k, count) then 0
    else TogglesSinceSet(rs[..|rs| - 1], k, count)
         + if Commands(rs[|rs| - 1], k, count) then 1 else 0
  }

  /** Closed form over any sequence: the last ON or OFF, or the first state, turned over by the toggles since. */
  lemma {:induction false} StateClosedForm(leds: seq<int>, rs: seq<Request>, k: nat)
    requires Bits(leds) && k < |leds|
    ensures |AfterAll(leds, rs)| == |leds|
    ensures AfterAll(leds, rs)[k] == (LastSet(rs, k, |leds|, leds[k]) + TogglesSinceSet(rs, k, |leds|)) % 2
  {
    if rs != [] {
      StateClosedForm(leds, rs[..|rs| - 1], k);
      StatesStayBits(leds, rs[..|rs| - 1]);
    }
  }

  lemma RequestsSnoc(xs: seq<Exchange>)
    requires xs != []
    ensures Requests(xs) == Requests(xs[..|xs| - 1]) + [xs[|xs| - 1].req]
    ensures Requests(xs)[..|xs| - 1] == Requests(xs[..|xs| - 1])
  {
  }

  lemma PinStep(leds: seq<int>, pins: seq<int>, x: Exchange, k: nat)
    requires |pins| == |leds| && k < |leds|
    ensures PinsAfter(leds, pins, x.req, x.ans)[k] == if Taken(x, k, |leds|) then After(leds, x.req)[k] else pins[k]
  {
  }

  /** The exchanges up to and including the last command for LED `k` that the driver took. */
  function UpToTaken(xs: seq<Exchange>, k: nat, count: nat): seq<Exchange> {
    if xs == [] || Taken(xs[|xs| - 1], k, count) then xs else UpToTaken(xs[..|xs| - 1], k, count)
  }

  lemma {:induction false} SplitAtTaken(xs: seq<Exchange>, k: nat, count: nat)
    ensures var done := UpToTaken(xs, k, count);
            && done <= xs && (done != [] ==> Taken(done[|done| - 1], k, count))
            && (forall i :: |done| <= i < |xs| ==> !Taken(xs[i], k, count))
            && Requests(xs) == Requests(done) + SinceTaken(xs, k, count)
  {
    if xs != [] {
      SplitAtTaken(xs[..|xs| - 1], k, count);
      RequestsSnoc(xs);
    }
  }

  /** The pin of an LED holds the stored state as it was after the last command for that LED that the driver took,
      or its first level when there was none. */
  lemma {:induction false} PinIsLastTaken(leds: seq<int>, pins: seq<int>, xs: seq<Exchange>, k: nat)
    requires |pins| == |leds| && k < |leds|
    ensures var done := UpToTaken(xs, k, |leds|);
            && |AfterAll(leds, Requests(done))| == |leds|
            && PinsAfterAll(leds, pins, xs)[k] == if done == [] then pins[k] else AfterAll(leds, Requests(done))[k]
  {
    SizeKept(leds, Requests(UpToTaken(xs, k, |leds|)));
    if xs != [] {
      var front, last := xs[..|xs| - 1], xs[|xs| - 1];
      PinIsLastTaken(leds, pins, front, k);
      RequestsSnoc(xs);
      SizeKept(leds, Requests(front));
      PinStep(AfterAll(leds, Requests(front)), PinsAfterAll(leds, pins, front), last, k);
    }
  }

  /** From agreement, or once the driver has taken a command, state and pin agree exactly when the pin's level
      equals the last ON or OFF refused since that command (or the level itself, without one) turned over by the
      toggles refused since. */
  lemma {:induction false} AgreementIff(leds: seq<int>, pins: seq<int>, xs: seq<Exchange>, k: nat)
    requires Bits(leds) && |pins| == |leds| && k < |leds|
    requires pins[k] == leds[k] || exists i :: 0 <= i < |xs| && Taken(xs[i], k, |leds|)
    ensures |AfterAll(leds, Requests(xs))| == |leds|
    ensures var level, refused := PinsAfterAll(leds, pins, xs)[k], SinceTaken(xs, k, |leds|);
            level == AfterAll(leds, Requests(xs))[k] <==>
            level == (LastSet(refused, k, |leds|, level) + TogglesSinceSet(refused, k, |leds|)) % 2
  {
    hide *;
    var done, refused := UpToTaken(xs, k, |leds|), SinceTaken(xs, k, |leds|);
    PinIsLastTaken(leds, pins, xs, k);
    SplitAtTaken(xs, k, |leds|);
    NothingTaken(leds);
    StatesStayBits(leds, Requests(done));
    var mid := AfterAll(leds, Requests(done));
    Chained(leds, Requests(done), refused);
    StateClosedForm(mid, refused, k);
  }

  lemma NothingTaken(leds: seq<int>)
    ensures AfterAll(leds, Requests([])) == leds
  {
  }

  /** A single refused ON on a fresh LED: the stored state is 1, the pin stays at 0, and nobody is told. */
  lemma RefusedCommandDisagrees(leds: seq<int>, pins: seq<int>, k: nat, x: Answers) returns (r: Request)
    requires Bits(leds) && k < |leds| && pins == leds && leds[k] == 0 && x.gpio != 0
    ensures After(leds, r)[k] == 1 && PinsAfterAll(leds, pins, [Exchange(r, x)]) == pins
    ensures Responses(leds, r, x) == []
  {
    r := Request(Confirmable, Put, LedState(k, LED_ON));
    var xs := [Exchange(r, x)];
    assert xs[..0] == [];
    assert PinsAfterAll(leds, pins, xs[..0]) == pins;
  }

  // ---------- messages and the server ----------

  /** A message of the stack under construction. */
  class Message {
    var typ: Type
    var code: Code
    var marker: bool
    var payload: seq<LedState>

    constructor ()
      ensures !marker && payload == []
    {
      typ, code, marker, payload := Reset, OtherCode, false, [];
    }
  }

  /** The stack's message pool: what is taken from it, given back to it or handed over for sending. */
  class Stack {
    var live: set<Message>
    var taken: nat
    var freed: nat
    var sent: seq<Packet>

    /** No message is lost: each one taken is live, freed or sent. */
    predicate Valid()
      reads this
    {
      taken == |live| + freed + |sent|
    }

    constructor ()
      ensures Valid() && live == {} && taken == 0 && freed == 0 && sent == []
    {
      live, taken, freed, sent := {}, 0, 0, [];
    }

    method NewMessage() returns (m: Message)
      requires Valid()
      modifies this
      ensures Valid() && fresh(m) && live == old(live) + {m} && m !in old(live)
      ensures freed == old(freed) && sent == old(sent) && m.payload == [] && !m.marker
      ensures taken == old(taken) + 1
    {
      m := new Message();
      live := live + {m};
      taken := taken + 1;
    }

    /** Only a live message can be given back, so none is given back twice or after it was sent. */
    method Free(m: Message)
      requires Valid() && m in live
      modifies this
      ensures Valid() && live == old(live) - {m} && freed == old(freed) + 1
      ensures sent == old(sent) && taken == old(taken)
    {
      live := live - {m};
      freed := freed + 1;
    }

    /** A message that the stack accepts belongs to the stack; a refused one still belongs to the caller. */
    method Send(m: Message, accepted: bool)
      requires Valid() && m in live
      modifies this
      ensures Valid() && freed == old(freed) && taken == old(taken)
      ensures live == if accepted then old(live) - {m} else old(live)
      ensures sent == old(sent) + if accepted then [Packet(m.typ, m.code, m.payload)] else []
    {
      if accepted {
        live := live - {m};
        sent := sent + [Packet(m.typ, m.code, m.payload)];
      }
    }

    /** At most one message was taken, and it left by exactly one of the two doors. */
    twostate predicate OneMessage(x: Answers, ret: Return)
      reads this
    {
      && Valid() && live == old(live)
      && taken == old(taken) + (if x.instance && x.message then 1 else 0)
      && freed == old(freed) + (if x.instance && x.message && ret != Done then 1 else 0)
    }
  }

  /** The first call that fails names the return value. */
  lemma ReturnNamesFailure(x: Answers, acceptable: bool)
    ensures SendReturn(x, acceptable) == NoDevice <==> !x.instance
    ensures SendReturn(x, acceptable) == NoMemory <==> x.instance && !x.message
    ensures SendReturn(x, acceptable) == InvalidArgument <==> x.instance && x.message && !acceptable
    ensures SendReturn(x, acceptable) == BadMessage <==>
            x.instance && x.message && acceptable && !(x.prepared && x.marked && x.appended)
    ensures SendReturn(x, acceptable) == IoError <==> acceptable && StackUp(x.(sent := true)) && !x.sent
    ensures SendReturn(x, acceptable) == Done <==> acceptable && StackUp(x)
  {
  }

  /** What a sender learns from the stack when the message itself is acceptable. */
  function SendReturn(x: Answers, acceptable: bool): Return {
    if !x.instance then NoDevice
    else if !x.message then NoMemory
    else if !acceptable then InvalidArgument
    else if !x.prepared || !x.marked || !x.appended then BadMessage
    else if !x.sent then IoError
    else Done
  }

  class Server {
    const leds: array<int>
    const pins: array<int>
    const stack: Stack

    predicate Valid()
      reads this, leds, stack
    {
      leds != pins && leds.Length == pins.Length && Bits(leds[..]) && stack.Valid()
    }

    constructor (count: nat)
      requires count <= JSON_MAX_LED
      ensures Valid() && fresh(leds) && fresh(pins) && fresh(stack)
      ensures leds[..] == seq(count, _ => 0) && stack.live == {}
    {
      leds := new int[count](_ => 0);
      pins := new int[count](_ => 0);
      stack := new Stack();
    }

    method RespSend(req: Request, payload: seq<LedState>, x: Answers) returns (ret: Return)
      requires stack.Valid()
      modifies stack
      ensures stack.OneMessage(x, ret)
      ensures ret == SendReturn(x, req.typ in {Confirmable, NonConfirmable} && req.code in {Get, Put})
      ensures ret == Done ==>
                |stack.sent| == |old(stack.sent)| + 1
                && FitsRequest(req, stack.sent[|old(stack.sent)|]) && stack.sent[|old(stack.sent)|].leds == payload
      ensures stack.sent == old(stack.sent)
                            + if ret == Done then [Packet(ResponseType(req.typ), ResponseCode(req.code), payload)]
                              else []
    {
      if !x.instance { return NoDevice; }
      if !x.message { return NoMemory; }
      var resp := stack.NewMessage();
      ret := Compose(resp, req, payload, x);
      if ret == Done {
        stack.Send(resp, x.sent);
        if !x.sent { ret := IoError; }
      }
      if ret != Done {
        stack.Free(resp);
      }
    }

    method Compose(resp: Message, req: Request, payload: seq<LedState>, x: Answers) returns (ret: Return)
      requires resp.payload == []
      modifies resp
      ensures ret == SendReturn(x.(instance := true, message := true, sent := true),
                                req.typ in {Confirmable, NonConfirmable} && req.code in {Get, Put})
      ensures ret == Done ==> resp.typ == ResponseType(req.typ) && resp.code == ResponseCode(req.code)
                              && resp.marker && resp.payload == payload
    {
      var typ, code;
      match req.typ {
        case Confirmable => typ := Acknowledgment;
        case NonConfirmable => typ := NonConfirmable;
        case _ => return InvalidArgument;
      }
      match req.code {
        case Get => code := Content;
        case Put => code := Changed;
        case _ => return InvalidArgument;
      }
      if !x.prepared { return BadMessage; }
      resp.typ, resp.code := typ, code;
      if !x.marked { return BadMessage; }
      resp.marker := true;
      if !x.appended { return BadMessage; }
      resp.payload := resp.payload + payload;
      ret := Done;
    }

    /** The state follows the command even when the pin driver refuses; the refusal is returned. */
    method HandlerPut(body: LedState, x: Answers) returns (ret: Return)
      requires Valid()
      modifies leds, pins
      ensures Valid()
      ensures forall typ :: typ in {Confirmable, NonConfirmable} ==>
                leds[..] == After(old(leds[..]), Request(typ, Put, body))
                && pins[..] == PinsAfter(old(leds[..]), old(pins[..]), Request(typ, Put, body), x)
      ensures ret == if body.id < leds.Length && LED_OFF <= body.state <= LED_TOGGLE then
                       (if x.gpio == 0 then Done else GpioError(x.gpio))
                     else InvalidArgument
    {
      if body.id >= leds.Length { return InvalidArgument; }
      var level;
      if body.state == LED_ON { level := 1; }
      else if body.state == LED_OFF { level := 0; }
      else if body.state == LED_TOGGLE { level := 1 - leds[body.id]; }
      else { return InvalidArgument; }
      leds[body.id] := level;
      if x.gpio == 0 { pins[body.id] := level; }
      ret := if x.gpio == 0 then Done else GpioError(x.gpio);
    }

    method HandlerGet(req: Request, x: Answers) returns (ret: Return)
      requires Valid()
      modifies stack
      ensures Valid() && stack.OneMessage(x, ret)
      ensures ret == SendReturn(x, req.typ in {Confirmable, NonConfirmable} && req.code in {Get, Put})
      ensures stack.sent == old(stack.sent)
              + if ret == Done then [Packet(ResponseType(req.typ), ResponseCode(req.code), Report(leds[..]))] else []
    {
      var report: seq<LedState> := [];
      for i := 0 to leds.Length
        invariant report == Report(leds[..i])
      {
        assert leds[..i + 1][..i] == leds[..i];
        report := report + [LedState(i, leds[i])];
      }
      assert leds[..leds.Length] == leds[..];
      ret := RespSend(req, report, x);
    }

    /** One request, from either end of its types and codes. */
    method ReqHandler(req: Request, x: Answers) returns (ret: Return)
      requires Valid()
      modifies leds, pins, stack
      ensures Valid() && stack.live == old(stack.live)
      ensures leds[..] == After(old(leds[..]), req)
      ensures pins[..] == PinsAfter(old(leds[..]), old(pins[..]), req, x)
      ensures stack.sent == old(stack.sent) + Responses(old(leds[..]), req, x)
      ensures forall i :: |old(stack.sent)| <= i < |stack.sent| ==> FitsRequest(req, stack.sent[i])
      ensures stack.taken - old(stack.taken)
           == |stack.sent| - |old(stack.sent)| + stack.freed - old(stack.freed) <= 1
      ensures ret == Done <==> if req.code == Put && req.typ == NonConfirmable
                               then Commands(req, req.body.id, leds.Length) && x.gpio == 0
                               else Responds(old(leds[..]), req, x)
    {
      if req.typ != Confirmable && req.typ != NonConfirmable { return InvalidArgument; }
      if req.code == Put {
        ret := HandlerPut(req.body, x);
        if ret != Done { return; }
        if req.typ == Confirmable {
          ret := HandlerGet(req, x);
        }
        return;
      }
      if req.code == Get {
        ret := HandlerGet(req, x);
        return;
      }
      ret := InvalidArgument;
    }
  }

  /** The client's side: every request goes out confirmable, or its message is given back. */
  method ReqSend(stack: Stack, code: Code, payload: seq<LedState>, x: Answers) returns (ret: Return)
    requires stack.Valid()
    modifies stack
    ensures stack.OneMessage(x, ret) && ret == SendReturn(x, true)
    ensures stack.sent == old(stack.sent) + if ret == Done then [Packet(Confirmable, code, payload)] else []
  {
    if !x.instance { return NoDevice; }
    if !x.message { return NoMemory; }
    var msg := stack.NewMessage();
    msg.typ, msg.code := Confirmable, code;
    ret := Done;
    if !x.prepared || !x.marked || !x.appended {
      ret := BadMessage;
    } else {
      msg.payload := msg.payload + payload;
      assert msg.payload == payload;
      stack.Send(msg, x.sent);
      if !x.sent { ret := IoError; }
    }
    if ret != Done {
      stack.Free(msg);
    }
  }
}
