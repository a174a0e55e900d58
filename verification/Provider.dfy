/** The mock provider's counters and tool offers, over every interleaving of its request handlers. */
module Provider {
  import opened Options

  type Thread = nat

  const OUTPUT_CASES: set<string> := {"clean_tool", "tool_output_secret", "tool_output_pii"}
  const TOOL_CASES: set<string> := {"ssrf", "config_exfil"} + OUTPUT_CASES
  const NATIVE_COMMAND_TOOLS: set<string> := {"bash", "shell", "exec_command", "shell_command", "run_shell_command"}

  datatype Endpoint = Chat | Responses | Messages | Gemini | CountTokens

  // The native shell a request advertises: its name, and the name with its case folded.
  datatype Tool = Tool(name: string, folded: string)

  datatype OutputValue = Str | Object(success: bool) | Array | Null | Scalar

  datatype Output = Output(callId: Option<string>, value: OutputValue)

  // What a request holds of a function call output, and which sensitive values it has in it.
  datatype Request = Request(endpoint: Endpoint, tool: Option<Tool>, outputs: seq<Output>, rawCases: seq<string>)

  datatype Handler =
    | Idle
    | Observing(request: Request, known: nat, next: nat)
    | Observed(request: Request)
    | Cased(request: Request, case_: string)
    | Recorded(request: Request, case_: string, call: nat, toolCall: nat)

  // A response with the case it was made for; with a tool call, it has the identity of the call.
  datatype Response = Plain(case_: string) | Calls(case_: string, identity: Option<string>, name: string)

  // What became of the offer for a case.
  datatype Offer = Pending(thread: Thread) | Made(response: nat) | Lost

  datatype Counters = Counters(
    requests: multiset<string>,
    commandToolRequests: multiset<string>,
    toolOffers: multiset<string>,
    toolNames: map<string, multiset<string>>,
    cleanResults: nat,
    rawOutputs: multiset<string>,
    outputs: multiset<string>,
    known: multiset<string>,
    unknown: multiset<string>,
    shapes: map<string, multiset<string>>,
    categories: map<string, multiset<string>>)

  datatype State = State(
    counters: Counters, identities: map<string, string>, geminiCases: map<string, string>,
    handlers: map<Thread, Handler>, responses: seq<Response>, offers: map<string, Offer>)
  {
    function At(t: Thread): Handler { if t in handlers then handlers[t] else Idle }
    function Move(t: Thread, to: Handler): State { this.(handlers := handlers[t := to]) }
  }

  // What a handler does next. The case a request is for, the categories of its outputs and a new identity come
  // from its text and from a random source, and may be any.
  datatype Action =
    | Receive(request: Request)
    | Correlate
    | Observe(case_: string, categories: seq<string>, clean: nat)
    | Resolve(case_: string)
    | Record
    | Respond(identity: string)
    | Fail

  function ShapeOf(value: OutputValue): string {
    match value
    case Str => "string"
    case Object(success) => if success then "object_success" else "object_other"
    case Array => "array"
    case Null => "null"
    case Scalar => "scalar"
  }

  function ShapesOf(outputs: seq<Output>): (r: multiset<string>)
    ensures |r| == |outputs|
  {
    if outputs == [] then multiset{} else ShapesOf(outputs[1..]) + multiset{ShapeOf(outputs[0].value)}
  }

  function Get(counts: map<string, multiset<string>>, key: string): multiset<string> {
    if key in counts then counts[key] else multiset{}
  }

  // The counters are charged to the case, or to the last sensitive case, whose loop variable has the same name.
  function ChargedTo(request: Request, case_: string): string {
    if request.rawCases == [] then case_ else request.rawCases[|request.rawCases| - 1]
  }

  function Times(key: string, n: nat): multiset<string> { multiset{}[key := n] }

  // _observe_request, the part under the lock
  function Observation(c: Counters, request: Request, known: nat, case_: string, categories: seq<string>, clean: nat): Counters
    requires known <= |request.outputs| && |categories| == |request.outputs|
  {
    var charged, n := ChargedTo(request, case_), |request.outputs|;
    var c' := c.(rawOutputs := c.rawOutputs + multiset(request.rawCases), cleanResults := c.cleanResults + clean);
    if n == 0 then c'
    else
      c'.(outputs := c.outputs + Times(charged, n),
          known := c.known + Times(charged, known),
          unknown := c.unknown + Times(charged, n - known),
          shapes := c.shapes[charged := Get(c.shapes, charged) + ShapesOf(request.outputs)],
          categories := c.categories[charged := Get(c.categories, charged) + multiset(categories)])
  }

  // The tool call a recorded request gets.
  predicate Offers(h: Handler) {
    h.Recorded? && h.case_ in TOOL_CASES && h.toolCall == 1 && h.request.tool.Some?
  }

  // _record_request
  function Recording(c: Counters, request: Request, case_: string): Counters {
    var c' := c.(requests := c.requests + multiset{case_});
    if request.tool.None? then c'
    else
      var c'' := c'.(commandToolRequests := c.commandToolRequests + multiset{case_});
      if case_ in TOOL_CASES && c''.commandToolRequests[case_] == 1 then
        c''.(toolOffers := c.toolOffers + multiset{case_},
             toolNames := if request.tool.value.folded in NATIVE_COMMAND_TOOLS
                          then c.toolNames[case_ := Get(c.toolNames, case_) + multiset{request.tool.value.folded}]
                          else c.toolNames)
      else c''
  }

  function Answer(s: State, t: Thread, h: Handler, identity: string): State
    requires h.Recorded?
  {
    if !Offers(h) then s.Move(t, Idle).(responses := s.responses + [Plain(h.case_)])
    else
      var s' := s.Move(t, Idle).(offers := s.offers[h.case_ := Made(|s.responses|)]);
      var name := h.request.tool.value.name;
      if h.request.endpoint.Gemini? then
        s'.(responses := s.responses + [Calls(h.case_, None, name)],
            geminiCases := if h.case_ in OUTPUT_CASES then s.geminiCases[name := h.case_] else s.geminiCases)
      else
        s'.(responses := s.responses + [Calls(h.case_, Some(identity), name)],
            identities := if h.case_ in OUTPUT_CASES then s.identities[identity := h.case_] else s.identities)
  }

  function Step(s: State, t: Thread, a: Action): State {
    match (s.At(t), a)
    case (Idle, Receive(request)) =>
      if request.tool.Some? && request.tool.value.folded !in NATIVE_COMMAND_TOOLS then s
      else s.Move(t, Observing(request, 0, 0))
    case (Observing(request, known, next), Correlate) =>
      if next < |request.outputs| then
        var id := request.outputs[next].callId;
        s.Move(t, Observing(request, known + (if id.Some? && id.value in s.identities then 1 else 0), next + 1))
      else s
    case (Observing(request, known, next), Observe(case_, categories, clean)) =>
      if next == |request.outputs| == |categories| && known <= next then
        s.Move(t, if request.endpoint.CountTokens? then Idle else Observed(request))
        .(counters := Observation(s.counters, request, known, case_, categories, clean))
      else s
    case (Observed(request), Resolve(case_)) => s.Move(t, Cased(request, case_))
    case (Cased(request, case_), Record) =>
      var c := Recording(s.counters, request, case_);
      var h := Recorded(request, case_, c.requests[case_], if request.tool.None? then 0 else c.commandToolRequests[case_]);
      s.Move(t, h).(counters := c, offers := if Offers(h) then s.offers[case_ := Pending(t)] else s.offers)
    case (Recorded(_, _, _, _), Respond(identity)) =>
      if identity in s.identities then s else Answer(s, t, s.At(t), identity)
    case (_, Fail) =>
      s.Move(t, Idle).(offers := if Offers(s.At(t)) then s.offers[s.At(t).case_ := Lost] else s.offers)
    case _ => s
  }

  function Run(s: State, trace: seq<(Thread, Action)>, n: nat): State
    requires n <= |trace|
  {
    if n == 0 then s else Step(Run(s, trace, n - 1), trace[n - 1].0, trace[n - 1].1)
  }

  const START := State(
    Counters(multiset{}, multiset{}, multiset{}, map[], 0, multiset{}, multiset{}, multiset{}, multiset{}, map[], map[]),
    map[], map[], map[], [], map[])

  /* ---- what is conserved ---- */

  predicate Conserved(c: Counters, key: string) { OutputsAddUp(c, key) && OffersAddUp(c, key) }

  predicate OutputsAddUp(c: Counters, key: string) {
    && c.outputs[key] == c.known[key] + c.unknown[key]
    && c.outputs[key] == |Get(c.shapes, key)|
    && c.outputs[key] == |Get(c.categories, key)|
  }

  predicate OffersAddUp(c: Counters, key: string) {
    && c.toolOffers[key] == (if key in TOOL_CASES && c.commandToolRequests[key] > 0 then 1 else 0)
    && c.toolOffers[key] == |Get(c.toolNames, key)|
    && c.commandToolRequests[key] <= c.requests[key]
  }

  lemma {:induction false} ObservationConserves(
    c: Counters, request: Request, known: nat, case_: string, categories: seq<string>, clean: nat, key: string)
    requires Conserved(c, key) && known <= |request.outputs| && |categories| == |request.outputs|
    ensures Conserved(Observation(c, request, known, case_, categories, clean), key)
  {
    hide OutputsAddUp, OffersAddUp;
    var c' := Observation(c, request, known, case_, categories, clean);
    ObservationAddsUp(c, request, known, case_, categories, clean, key);
    assert OffersAddUp(c', key) by { OffersDepend(c, c', key); }
  }

  lemma {:induction false} OffersDepend(c: Counters, c': Counters, key: string)
    requires OffersAddUp(c, key) && c'.requests == c.requests && c'.commandToolRequests == c.commandToolRequests
    requires c'.toolOffers == c.toolOffers && c'.toolNames == c.toolNames
    ensures OffersAddUp(c', key)
  {}

  lemma {:induction false} ObservationAddsUp(
    c: Counters, request: Request, known: nat, case_: string, categories: seq<string>, clean: nat, key: string)
    requires OutputsAddUp(c, key) && known <= |request.outputs| && |categories| == |request.outputs|
    ensures OutputsAddUp(Observation(c, request, known, case_, categories, clean), key)
  {
    hide ShapesOf, Times, Get, ChargedTo;
    var charged, n := ChargedTo(request, case_), |request.outputs|;
    MoreTimes(c.outputs, charged, n, key);
    MoreTimes(c.known, charged, known, key);
    MoreTimes(c.unknown, charged, n - known, key);
    MoreIn(c.shapes, charged, ShapesOf(request.outputs), key);
    MoreIn(c.categories, charged, multiset(categories), key);
  }

  lemma {:induction false} MoreTimes(counts: multiset<string>, x: string, n: nat, key: string)
    ensures (counts + Times(x, n))[key] == counts[key] + if key == x then n else 0
  {}

  lemma {:induction false} MoreIn(counts: map<string, multiset<string>>, x: string, more: multiset<string>, key: string)
    ensures |Get(counts[x := Get(counts, x) + more], key)| == |Get(counts, key)| + if key == x then |more| else 0
  {}

  lemma {:induction false} RecordingConserves(c: Counters, request: Request, case_: string, key: string)
    requires Conserved(c, key) && (request.tool.Some? ==> request.tool.value.folded in NATIVE_COMMAND_TOOLS)
    ensures Conserved(Recording(c, request, case_), key)
  {
    hide OffersAddUp;
    RecordingAddsUp(c, request, case_, key);
  }

  lemma {:induction false} RecordingAddsUp(c: Counters, request: Request, case_: string, key: string)
    requires OffersAddUp(c, key) && (request.tool.Some? ==> request.tool.value.folded in NATIVE_COMMAND_TOOLS)
    ensures OffersAddUp(Recording(c, request, case_), key)
  {}

  /* ---- one offer a case ---- */

  predicate ToolOf(h: Handler) {
    h.Idle? || h.request.tool.None? || h.request.tool.value.folded in NATIVE_COMMAND_TOOLS
  }

  // An offer is with the handler that is about to make it, or in the response that made it.
  ghost predicate Inv(s: State) {
    && (forall key :: Conserved(s.counters, key))
    && (forall key :: key in s.offers <==> key in TOOL_CASES && s.counters.commandToolRequests[key] > 0)
    && HandlersFit(s) && ResponsesFit(s)
  }

  // A handler with an offer is the one the offer is pending with.
  ghost predicate HandlersFit(s: State) {
    && (forall t :: t in s.handlers ==> ToolOf(s.handlers[t]))
    && (forall t :: t in s.handlers && Offers(s.handlers[t]) ==>
      s.handlers[t].case_ in s.offers && s.offers[s.handlers[t].case_] == Pending(t))
    && (forall key :: key in s.offers && s.offers[key].Pending? ==> OffersIn(s, s.offers[key].thread, key))
  }

  // A response with a tool call is the one that made the offer.
  ghost predicate ResponsesFit(s: State) {
    && (forall i :: 0 <= i < |s.responses| && s.responses[i].Calls? ==>
      s.responses[i].case_ in s.offers && s.offers[s.responses[i].case_] == Made(i))
    && (forall key :: key in s.offers && s.offers[key].Made? ==> CallsIn(s, s.offers[key].response, key))
    && (forall i :: 0 <= i < |s.responses| ==> Resolves(s, s.responses[i]))
  }

  predicate OffersIn(s: State, t: Thread, key: string) { Offers(s.At(t)) && s.At(t).case_ == key }

  predicate CallsIn(s: State, i: nat, key: string) {
    i < |s.responses| && s.responses[i].Calls? && s.responses[i].case_ == key
  }

  // The identity of a tool call is known as that of its case.
  predicate Resolves(s: State, r: Response) {
    r.Calls? && r.identity.Some? && r.case_ in OUTPUT_CASES ==>
      r.identity.value in s.identities && s.identities[r.identity.value] == r.case_
  }

  lemma {:induction false} StartIsGood()
    ensures Inv(START)
  {}

  // What the steps of a handler leave alone, besides the counters.
  lemma {:induction false} ObserveKeeps(s: State, t: Thread, a: Action)
    requires Inv(s) && s.At(t).Observing? && a.Observe?
    ensures Inv(Step(s, t, a))
  {
    hide Conserved, Observation;
    var s' := Step(s, t, a);
    var h := s.At(t);
    if s' != s {
      forall key ensures Conserved(s'.counters, key) {
        ObservationConserves(s.counters, h.request, h.known, a.case_, a.categories, a.clean, key);
      }
      ObservationLeaves(s.counters, h.request, h.known, a.case_, a.categories, a.clean);
      OffersStay(s, s', t);
    }
  }

  lemma {:induction false} ObservationLeaves(
    c: Counters, request: Request, known: nat, case_: string, categories: seq<string>, clean: nat)
    requires known <= |request.outputs| && |categories| == |request.outputs|
    ensures Observation(c, request, known, case_, categories, clean).commandToolRequests == c.commandToolRequests
  {}

  // A step that makes no offer and answers nothing.
  lemma {:induction false} OffersStay(s: State, s': State, t: Thread)
    requires Inv(s) && !Offers(s.At(t)) && s' == s.(counters := s'.counters, handlers := s.handlers[t := s'.At(t)])
    requires t in s'.handlers && !Offers(s'.At(t)) && ToolOf(s'.At(t))
    requires s'.counters.commandToolRequests == s.counters.commandToolRequests && forall key :: Conserved(s'.counters, key)
    ensures Inv(s')
  {
    hide Conserved, Offers, ToolOf;
    forall key | key in s'.offers && s'.offers[key].Pending? ensures OffersIn(s', s'.offers[key].thread, key) {
      assert OffersIn(s, s.offers[key].thread, key);
    }
    forall key | key in s'.offers && s'.offers[key].Made? ensures CallsIn(s', s'.offers[key].response, key) {
      assert CallsIn(s, s.offers[key].response, key);
    }
    forall i | 0 <= i < |s'.responses| ensures Resolves(s', s'.responses[i]) { assert Resolves(s, s.responses[i]); }
  }

  lemma {:induction false} RecordKeeps(s: State, t: Thread)
    requires Inv(s) && s.At(t).Cased?
    ensures Inv(Step(s, t, Record))
  {
    hide Conserved, Recording, HandlersFit, ResponsesFit, Offers;
    var s' := Step(s, t, Record);
    forall key ensures Conserved(s'.counters, key) { KeptConserved(s, t, key); }
    RecordOffers(s, t);
    RecordKeepsHandlers(s, s', t);
    RecordKeepsResponses(s, s');
  }

  lemma {:induction false} RecordKeepsHandlers(s: State, s': State, t: Thread)
    requires HandlersFit(s) && t in s'.handlers && s'.handlers == s.handlers[t := s'.At(t)] && !Offers(s.At(t))
    requires s'.At(t).Recorded? && ToolOf(s'.At(t)) && (Offers(s'.At(t)) ==> s'.At(t).case_ !in s.offers)
    requires s'.offers == if Offers(s'.At(t)) then s.offers[s'.At(t).case_ := Pending(t)] else s.offers
    ensures HandlersFit(s')
  {
    hide Offers, ToolOf;
    forall key | key in s'.offers && s'.offers[key].Pending? ensures OffersIn(s', s'.offers[key].thread, key) {
      if key in s.offers && s.offers[key].Pending? { assert OffersIn(s, s.offers[key].thread, key); }
    }
  }

  lemma {:induction false} RecordKeepsResponses(s: State, s': State)
    requires ResponsesFit(s) && s'.responses == s.responses && s'.identities == s.identities
    requires forall key :: key in s.offers && s.offers[key].Made? ==> key in s'.offers && s'.offers[key] == s.offers[key]
    requires forall key :: key in s'.offers && s'.offers[key].Made? ==> key in s.offers && s'.offers[key] == s.offers[key]
    ensures ResponsesFit(s')
  {
    forall key | key in s'.offers && s'.offers[key].Made? ensures CallsIn(s', s'.offers[key].response, key) {
      assert CallsIn(s, s.offers[key].response, key);
    }
    forall i | 0 <= i < |s'.responses| ensures Resolves(s', s'.responses[i]) { assert Resolves(s, s.responses[i]); }
  }

  lemma {:induction false} KeptConserved(s: State, t: Thread, key: string)
    requires Inv(s) && s.At(t).Cased?
    ensures Conserved(Recording(s.counters, s.At(t).request, s.At(t).case_), key)
  {
    hide Recording, Conserved;
    RecordingConserves(s.counters, s.At(t).request, s.At(t).case_, key);
  }

  // A request is recorded with an offer exactly when it is the first with a native shell for its tool case.
  lemma {:induction false} RecordOffers(s: State, t: Thread)
    requires Inv(s) && s.At(t).Cased?
    ensures var s', h := Step(s, t, Record), s.At(t);
      var first := h.request.tool.Some? && h.case_ in TOOL_CASES && s.counters.commandToolRequests[h.case_] == 0;
      && s'.At(t).Recorded? && s'.At(t).case_ == h.case_ && ToolOf(s'.At(t)) && !Offers(h)
      && (Offers(s'.At(t)) <==> first) && (first <==> Offers(s'.At(t)) && h.case_ !in s.offers)
      && s' == s.(handlers := s.handlers[t := s'.At(t)], counters := s'.counters,
                  offers := if first then s.offers[h.case_ := Pending(t)] else s.offers)
      && (forall key :: s'.counters.commandToolRequests[key] > 0 <==>
          s.counters.commandToolRequests[key] > 0 || (key == h.case_ && h.request.tool.Some?))
  {
    hide Conserved, Recording;
    var h := s.At(t);
    RecordingCounts(s.counters, h.request, h.case_);
  }

  lemma {:induction false} RecordingCounts(c: Counters, request: Request, case_: string)
    ensures Recording(c, request, case_).commandToolRequests ==
            c.commandToolRequests + if request.tool.Some? then multiset{case_} else multiset{}
  {}

  // A handler's offer is made or lost.
  lemma {:induction false} OfferEnds(s: State, s': State, t: Thread, key: string)
    requires Inv(s) && OffersIn(s, t, key) && key in s'.offers && t in s'.handlers
    requires s'.counters == s.counters && s'.handlers == s.handlers[t := Idle] && s'.offers == s.offers[key := s'.offers[key]]
    requires forall id :: id in s.identities ==> id in s'.identities && s'.identities[id] == s.identities[id]
    requires (s'.offers[key].Lost? && s'.responses == s.responses)
      || (s'.offers[key] == Made(|s.responses|) && EndsWithCall(s, s', key))
    ensures Inv(s')
  {
    hide Conserved, ResponsesFit, Offers, ToolOf, EndsWithCall;
    assert s.offers[key] == Pending(t) by { HandlersHold(s, t, key); }
    OfferEndsHandlers(s, s', t, key);
    OfferEndsResponses(s, s', key);
  }

  lemma {:induction false} HandlersHold(s: State, t: Thread, key: string)
    requires HandlersFit(s) && OffersIn(s, t, key)
    ensures key in s.offers && s.offers[key] == Pending(t)
  {}

  lemma {:induction false} OfferEndsHandlers(s: State, s': State, t: Thread, key: string)
    requires HandlersFit(s) && key in s.offers && s.offers[key] == Pending(t)
    requires key in s'.offers && !s'.offers[key].Pending? && s'.offers == s.offers[key := s'.offers[key]]
    requires s'.handlers == s.handlers[t := Idle]
    ensures HandlersFit(s')
  {
    hide Offers, ToolOf;
    IdleIsQuiet();
    assert OffersIn(s, t, key);
    forall k | k in s'.offers && s'.offers[k].Pending? ensures OffersIn(s', s'.offers[k].thread, k) {
      assert OffersIn(s, s.offers[k].thread, k);
    }
  }

  lemma {:induction false} OfferEndsResponses(s: State, s': State, key: string)
    requires ResponsesFit(s) && key in s.offers && s.offers[key].Pending?
    requires key in s'.offers && s'.offers == s.offers[key := s'.offers[key]]
    requires forall id :: id in s.identities ==> id in s'.identities && s'.identities[id] == s.identities[id]
    requires (s'.offers[key].Lost? && s'.responses == s.responses)
      || (s'.offers[key] == Made(|s.responses|) && EndsWithCall(s, s', key))
    ensures ResponsesFit(s')
  {
    hide Resolves;
    forall k | k in s'.offers && s'.offers[k].Made? ensures CallsIn(s', s'.offers[k].response, k) {
      if k != key { assert CallsIn(s, s.offers[k].response, k); }
    }
    forall i | 0 <= i < |s'.responses| ensures Resolves(s', s'.responses[i]) {
      if i < |s.responses| { StillResolves(s, s', s.responses[i]); }
    }
  }

  lemma {:induction false} StillResolves(s: State, s': State, r: Response)
    requires Resolves(s, r)
    requires forall id :: id in s.identities ==> id in s'.identities && s'.identities[id] == s.identities[id]
    ensures Resolves(s', r)
  {}

  predicate EndsWithCall(s: State, s': State, key: string) {
    var n := |s.responses|;
    && |s'.responses| == n + 1 && s'.responses[..n] == s.responses && CallsIn(s', n, key) && Resolves(s', s'.responses[n])
  }

  lemma {:induction false} PlainKeeps(s: State, t: Thread, case_: string)
    requires Inv(s) && !Offers(s.At(t))
    ensures Inv(s.Move(t, Idle).(responses := s.responses + [Plain(case_)]))
  {
    hide Conserved, Offers, ToolOf;
    var s' := s.Move(t, Idle).(responses := s.responses + [Plain(case_)]);
    IdleIsQuiet();
    forall key | key in s'.offers && s'.offers[key].Pending? ensures OffersIn(s', s'.offers[key].thread, key) {
      assert OffersIn(s, s.offers[key].thread, key);
    }
    forall key | key in s'.offers && s'.offers[key].Made? ensures CallsIn(s', s'.offers[key].response, key) {
      assert CallsIn(s, s.offers[key].response, key);
    }
    forall i | 0 <= i < |s'.responses| ensures Resolves(s', s'.responses[i]) {
      if i < |s.responses| { assert Resolves(s, s.responses[i]); }
    }
  }

  lemma {:induction false} IdleIsQuiet()
    ensures !Offers(Idle) && ToolOf(Idle)
  {}

  lemma {:induction false} RespondKeeps(s: State, t: Thread, identity: string)
    requires Inv(s) && s.At(t).Recorded?
    ensures Inv(Step(s, t, Respond(identity)))
  {
    hide Inv;
    var s', h := Step(s, t, Respond(identity)), s.At(t);
    if s' != s {
      if Offers(h) { OfferEnds(s, s', t, h.case_); } else { PlainKeeps(s, t, h.case_); }
    }
  }

  lemma {:induction false} FailKeeps(s: State, t: Thread)
    requires Inv(s)
    ensures Inv(Step(s, t, Fail))
  {
    hide Inv;
    var s', h := Step(s, t, Fail), s.At(t);
    if Offers(h) { OfferEnds(s, s', t, h.case_); } else { InvSays(s); OffersStay(s, s', t); }
  }

  lemma {:induction false} InvSays(s: State)
    requires Inv(s)
    ensures forall key :: Conserved(s.counters, key)
  {}

  lemma {:induction false} StepKeeps(s: State, t: Thread, a: Action)
    requires Inv(s)
    ensures Inv(Step(s, t, a))
  {
    hide Inv, Conserved;
    var h, s' := s.At(t), Step(s, t, a);
    if a.Fail? {
      FailKeeps(s, t);
    } else if s' == s {
    } else if h.Observing? && a.Observe? {
      ObserveKeeps(s, t, a);
    } else if h.Cased? && a.Record? {
      RecordKeeps(s, t);
    } else if h.Recorded? {
      RespondKeeps(s, t, a.identity);
    } else {
      QuietMoves(s, t, a);
      OffersStay(s, s', t);
    }
  }

  lemma {:induction false} QuietMoves(s: State, t: Thread, a: Action)
    requires Inv(s) && Step(s, t, a) != s && !a.Fail? && !a.Observe? && !a.Record? && !s.At(t).Recorded?
    ensures var s' := Step(s, t, a);
      && s' == s.(counters := s'.counters, handlers := s.handlers[t := s'.At(t)]) && t in s'.handlers
      && !Offers(s'.At(t)) && ToolOf(s'.At(t)) && s'.counters == s.counters && forall key :: Conserved(s'.counters, key)
  {}

  lemma {:induction false} RunKeeps(trace: seq<(Thread, Action)>, n: nat)
    requires n <= |trace|
    ensures Inv(Run(START, trace, n))
  {
    hide Step, Inv;
    if n == 0 {
      StartIsGood();
    } else {
      RunKeeps(trace, n - 1);
      StepKeeps(Run(START, trace, n - 1), trace[n - 1].0, trace[n - 1].1);
    }
  }

  // Over every interleaving no case is offered a tool call twice,
  lemma {:induction false} OneOfferACase(trace: seq<(Thread, Action)>, i: nat, j: nat)
    requires var r := Run(START, trace, |trace|).responses;
      i < |r| && j < |r| && r[i].Calls? && r[j].Calls? && r[i].case_ == r[j].case_
    ensures i == j
    ensures var s := Run(START, trace, |trace|); s.responses[i].case_ in TOOL_CASES
  {
    RunKeeps(trace, |trace|);
    var s := Run(START, trace, |trace|);
    assert s.offers[s.responses[i].case_] == Made(i);
  }

  // and a tool case for which a native shell has been advertised is offered one, unless the handler that is to make
  // the offer has not answered yet or has failed. Its identity is known as that of its case.
  lemma {:induction false} AnOfferIsMade(trace: seq<(Thread, Action)>, key: string)
    requires key in TOOL_CASES && Run(START, trace, |trace|).counters.commandToolRequests[key] > 0
    requires var s := Run(START, trace, |trace|); forall t :: !OffersIn(s, t, key)
    requires var s := Run(START, trace, |trace|); key in s.offers ==> !s.offers[key].Lost?
    ensures var s := Run(START, trace, |trace|);
      exists i :: 0 <= i < |s.responses| && CallsIn(s, i, key) && Resolves(s, s.responses[i])
  {
    hide Run;
    RunKeeps(trace, |trace|);
    var s := Run(START, trace, |trace|);
    assert key in s.offers;
    assert s.offers[key].Pending? ==> OffersIn(s, s.offers[key].thread, key);
    assert CallsIn(s, s.offers[key].response, key) && Resolves(s, s.responses[s.offers[key].response]);
  }

  // An issued identity stays known as that of its case.
  lemma {:induction false} IdentitiesStay(s: State, trace: seq<(Thread, Action)>, m: nat, n: nat, identity: string)
    requires m <= n <= |trace| && identity in Run(s, trace, m).identities
    ensures identity in Run(s, trace, n).identities
    ensures Run(s, trace, n).identities[identity] == Run(s, trace, m).identities[identity]
  {
    hide Step;
    if m < n {
      IdentitiesStay(s, trace, m, n - 1, identity);
      IdentityStays(Run(s, trace, n - 1), trace[n - 1].0, trace[n - 1].1, identity);
    }
  }

  lemma {:induction false} IdentityStays(s: State, t: Thread, a: Action, identity: string)
    requires identity in s.identities
    ensures identity in Step(s, t, a).identities && Step(s, t, a).identities[identity] == s.identities[identity]
  {
    hide Observation, Recording;
  }

  // Every output is counted once as known or unknown, once by its shape and once by its category.
  lemma {:induction false} OutputsAreConserved(trace: seq<(Thread, Action)>, n: nat, key: string)
    requires n <= |trace|
    ensures Conserved(Run(START, trace, n).counters, key)
  {
    hide Run;
    RunKeeps(trace, n);
  }

  // A request that nothing disturbs is counted and answered: with a tool call exactly when it is the first with a native
  // shell for its tool case, by the advertised name, and with the identity unless that name stands for it.
  lemma {:induction false} RequestIsAnswered(s: State, t: Thread, case_: string, identity: string)
    requires s.At(t).Observed? && identity !in s.identities
    ensures var request := s.At(t).request;
      var s' := Step(Step(Step(s, t, Resolve(case_)), t, Record), t, Respond(identity));
      var shell := request.tool.Some?;
      var offered := shell && case_ in {"ssrf", "config_exfil", "clean_tool", "tool_output_secret", "tool_output_pii"}
        && s.counters.commandToolRequests[case_] == 0;
      && s'.At(t).Idle? && s'.counters.requests == s.counters.requests + multiset{case_}
      && s'.counters.commandToolRequests == s.counters.commandToolRequests + (if shell then multiset{case_} else multiset{})
      && s'.counters.toolOffers == s.counters.toolOffers + (if offered then multiset{case_} else multiset{})
      && s'.responses == s.responses + [
        if offered then Calls(case_, if request.endpoint.Gemini? then None else Some(identity), request.tool.value.name)
        else Plain(case_)]
  {
    hide Recording, Observation, Answer;
    var request := s.At(t).request;
    var s1 := Step(s, t, Resolve(case_));
    var s2 := Step(s1, t, Record);
    RecordingIs(s.counters, request, case_);
    var toolCall := if request.tool.None? then 0 else s2.counters.commandToolRequests[case_];
    assert s1.At(t) == Cased(request, case_);
    assert s2.At(t) == Recorded(request, case_, s2.counters.requests[case_], toolCall);
    AnswerIs(s2, t, s2.At(t), identity);
  }

  lemma {:induction false} AnswerIs(s: State, t: Thread, h: Handler, identity: string)
    requires h.Recorded?
    ensures var s' := Answer(s, t, h, identity);
      && s'.At(t).Idle? && s'.counters == s.counters
      && s'.responses == s.responses + [
        if Offers(h) then Calls(h.case_, if h.request.endpoint.Gemini? then None else Some(identity), h.request.tool.value.name)
        else Plain(h.case_)]
  {}

  lemma {:induction false} RecordingIs(c: Counters, request: Request, case_: string)
    ensures var c', shell := Recording(c, request, case_), request.tool.Some?;
      var offered := shell && case_ in TOOL_CASES && c.commandToolRequests[case_] == 0;
      && c'.requests == c.requests + multiset{case_}
      && c'.commandToolRequests == c.commandToolRequests + (if shell then multiset{case_} else multiset{})
      && c'.toolOffers == c.toolOffers + (if offered then multiset{case_} else multiset{})
  {
    assert (c.commandToolRequests + multiset{case_})[case_] == c.commandToolRequests[case_] + 1;
  }

  /* ---- what is looked up ---- */

  // A response whose tool call has an identity that is looked up,
  predicate Issues(r: Response, identity: string) {
    r.Calls? && r.case_ in OUTPUT_CASES && r.identity == Some(identity)
  }

  // and one whose tool call is looked up by its name.
  predicate Names(r: Response, name: string) { r.Calls? && r.case_ in OUTPUT_CASES && r.identity.None? && r.name == name }

  ghost predicate Issued(responses: seq<Response>, identity: string) {
    exists i :: 0 <= i < |responses| && Issues(responses[i], identity)
  }

  ghost predicate LastNames(responses: seq<Response>, i: int, name: string) {
    0 <= i < |responses| && Names(responses[i], name) && forall j :: i < j < |responses| ==> !Names(responses[j], name)
  }

  // The identities are those issued, each with its case; the names are those used, each with its last case.
  ghost predicate LookedUp(s: State) {
    IdentitiesLookUp(s.responses, s.identities) && NamesLookUp(s.responses, s.geminiCases)
  }

  ghost predicate IdentitiesLookUp(responses: seq<Response>, identities: map<string, string>) {
    && (forall id :: id in identities <==> Issued(responses, id))
    && (forall i, id :: 0 <= i < |responses| && Issues(responses[i], id) ==>
        id in identities && identities[id] == responses[i].case_)
  }

  ghost predicate NamesLookUp(responses: seq<Response>, names: map<string, string>) {
    && (forall name :: name in names <==> exists i :: 0 <= i < |responses| && Names(responses[i], name))
    && (forall i, name :: LastNames(responses, i, name) ==> name in names && names[name] == responses[i].case_)
  }

  lemma {:induction false} LookedUpByAll(trace: seq<(Thread, Action)>, n: nat)
    requires n <= |trace|
    ensures LookedUp(Run(START, trace, n))
  {
    hide Step, LookedUp;
    if n == 0 {
      StartLooksUp();
    } else {
      LookedUpByAll(trace, n - 1);
      StepLooksUp(Run(START, trace, n - 1), trace[n - 1].0, trace[n - 1].1);
    }
  }

  lemma {:induction false} StartLooksUp()
    ensures LookedUp(START)
  {}

  lemma {:induction false} StepLooksUp(s: State, t: Thread, a: Action)
    requires LookedUp(s)
    ensures LookedUp(Step(s, t, a))
  {
    hide LookedUp;
    if s.At(t).Recorded? && a.Respond? && a.identity !in s.identities {
      AnswerLooksUp(s, t, s.At(t), a.identity);
    } else {
      OthersLookNothingUp(s, t, a);
      SameLookedUp(s, Step(s, t, a));
    }
  }

  lemma {:induction false} OthersLookNothingUp(s: State, t: Thread, a: Action)
    requires !(s.At(t).Recorded? && a.Respond? && a.identity !in s.identities)
    ensures var s' := Step(s, t, a);
      s'.responses == s.responses && s'.identities == s.identities && s'.geminiCases == s.geminiCases
  {
    hide Observation, Recording;
  }

  lemma {:induction false} SameLookedUp(s: State, s': State)
    requires LookedUp(s)
    requires s'.responses == s.responses && s'.identities == s.identities && s'.geminiCases == s.geminiCases
    ensures LookedUp(s')
  {}

  lemma {:induction false} AnswerLooksUp(s: State, t: Thread, h: Handler, identity: string)
    requires LookedUp(s) && h.Recorded? && identity !in s.identities
    ensures LookedUp(Answer(s, t, h, identity))
  {
    hide Offers, IdentitiesLookUp, NamesLookUp, Issues, Names;
    var s', n := Answer(s, t, h, identity), |s.responses|;
    var r := s'.responses[n];
    AnswersOneLookUp(s, t, h, identity);
    IdentitiesStillLookUp(s.responses, s.identities, r, s'.identities, identity);
    NamesStillLookUp(s.responses, s.geminiCases, r, s'.geminiCases);
  }

  lemma {:induction false} AnswersOneLookUp(s: State, t: Thread, h: Handler, identity: string)
    requires h.Recorded?
    ensures var s', n := Answer(s, t, h, identity), |s.responses|;
      && |s'.responses| == n + 1 && s'.responses == s.responses + [s'.responses[n]]
      && (forall id :: Issues(s'.responses[n], id) ==> id == identity)
      && s'.identities == (if Issues(s'.responses[n], identity) then s.identities[identity := s'.responses[n].case_] else s.identities)
      && s'.geminiCases == NamesAfter(s.geminiCases, s'.responses[n])
  {}

  function NamesAfter(names: map<string, string>, r: Response): map<string, string> {
    if r.Calls? && Names(r, r.name) then names[r.name := r.case_] else names
  }

  lemma {:induction false} IdentitiesStillLookUp(
    responses: seq<Response>, identities: map<string, string>, r: Response, identities': map<string, string>, identity: string)
    requires IdentitiesLookUp(responses, identities) && identity !in identities
    requires forall id :: Issues(r, id) ==> id == identity
    requires identities' == if Issues(r, identity) then identities[identity := r.case_] else identities
    ensures IdentitiesLookUp(responses + [r], identities')
  {
    var n, responses' := |responses|, responses + [r];
    assert responses'[n] == r;
    forall id ensures id in identities' <==> Issued(responses', id) {
      if Issued(responses, id) {
        var i :| 0 <= i < n && Issues(responses[i], id);
        assert Issues(responses'[i], id);
      }
      assert Issues(r, id) ==> Issues(responses'[n], id);
    }
  }

  lemma {:induction false} NamesStillLookUp(
    responses: seq<Response>, names: map<string, string>, r: Response, names': map<string, string>)
    requires NamesLookUp(responses, names) && names' == NamesAfter(names, r)
    ensures NamesLookUp(responses + [r], names')
  {
    var n, responses' := |responses|, responses + [r];
    assert responses'[n] == r;
    forall name ensures name in names' <==> exists i :: 0 <= i < |responses'| && Names(responses'[i], name) {
      if name in names {
        var i :| 0 <= i < n && Names(responses[i], name);
        assert Names(responses'[i], name);
      }
      assert Names(r, name) ==> Names(responses'[n], name);
    }
    forall i, name | LastNames(responses', i, name) ensures name in names' && names'[name] == responses'[i].case_ {
      if i < n {
        forall j | i < j < n ensures !Names(responses[j], name) { assert !Names(responses'[j], name); }
        assert LastNames(responses, i, name) && !Names(responses'[n], name);
      }
    }
  }

  // Over every interleaving an output is correlated as known exactly when a response has issued its identity before.
  lemma {:induction false} KnownIsIssued(trace: seq<(Thread, Action)>, n: nat)
    requires n < |trace| && trace[n].1.Correlate?
    requires var h := Run(START, trace, n).At(trace[n].0); h.Observing? && h.next < |h.request.outputs|
    ensures var s, s', t := Run(START, trace, n), Run(START, trace, n + 1), trace[n].0;
      var id := s.At(t).request.outputs[s.At(t).next].callId;
      s'.At(t) == s.At(t).(next := s.At(t).next + 1,
        known := s.At(t).known + if id.Some? && Issued(s.responses, id.value) then 1 else 0)
  {
    LookedUpByAll(trace, n);
  }

  // What was correlated as known is counted as known, for the case that is charged alone, and the rest as unknown.
  lemma {:induction false} KnownIsCounted(s: State, t: Thread, a: Action, key: string)
    requires a.Observe? && s.At(t).Observing? && s.At(t).known <= s.At(t).next
    requires s.At(t).next == |s.At(t).request.outputs| == |a.categories|
    ensures var h, c, c' := s.At(t), s.counters, Step(s, t, a).counters;
      && c'.known[key] == c.known[key] + (if key == ChargedTo(h.request, a.case_) then h.known else 0)
      && c'.unknown[key] == c.unknown[key] + if key == ChargedTo(h.request, a.case_) then h.next - h.known else 0
  {
    hide Times, ChargedTo, ShapesOf, Get;
    var h := s.At(t);
    MoreTimes(s.counters.known, ChargedTo(h.request, a.case_), h.known, key);
    MoreTimes(s.counters.unknown, ChargedTo(h.request, a.case_), h.next - h.known, key);
    NoTimes(ChargedTo(h.request, a.case_));
  }

  lemma {:induction false} NoTimes(x: string)
    ensures Times(x, 0) == multiset{}
  {}

  // Over every interleaving a name that Gemini calls resolves to the last case offered under it.
  lemma {:induction false} NameResolvesToLast(trace: seq<(Thread, Action)>, n: nat, name: string)
    requires n <= |trace|
    ensures var s := Run(START, trace, n);
      && (name in s.geminiCases <==> exists i :: LastNames(s.responses, i, name))
      && (forall i :: LastNames(s.responses, i, name) ==> s.geminiCases[name] == s.responses[i].case_)
  {
    hide Run;
    LookedUpByAll(trace, n);
    var responses := Run(START, trace, n).responses;
    if i :| 0 <= i < |responses| && Names(responses[i], name) { LastOf(responses, i, name, |responses|); }
  }

  lemma {:induction false} LastOf(responses: seq<Response>, i: nat, name: string, n: nat)
    requires i < n <= |responses| && Names(responses[i], name) && forall j :: n <= j < |responses| ==> !Names(responses[j], name)
    ensures exists k :: LastNames(responses, k, name)
  {
    if Names(responses[n - 1], name) {
      assert LastNames(responses, n - 1, name);
    } else {
      LastOf(responses, i, name, n - 1);
    }
  }
}
