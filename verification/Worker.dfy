/**
 The proving worker: one client slot, one process at a time, requests numbered
 by both sides. Steps of client, server and pipes interleave freely.
 */
module Worker {
  import opened Arith
  import opened Bytes
  import opened Wrappers

  const VERSION: nat := 1

  // What a request asks to prove. A response carries the request it was computed from.
  type Job = nat

  datatype Request = Request(id: nat, job: Job)

  datatype Response = Response(answers: Request, proof: seq<byte>, public: seq<byte>, failed: bool)

  datatype Message = Ready(protocol: nat, artifact: nat) | Answer(response: Response)

  // The server: its greeting, a request its reader goroutine holds, one being proved, the ID it expects.
  datatype Server = Server(greeted: bool, reading: Option<Request>, proving: Option<Request>, next: nat, stopped: bool)

  datatype Process = Process(toServer: seq<Request>, toClient: seq<Message>, server: Server)

  datatype Client = Client(process: Process, nextRequestId: nat)

  // The call that holds the slot's lock.
  datatype Call =
    | NoCall
    | Starting(process: Process, job: Job) // waiting for the greeting
    | Holding(client: Client, job: Job)    // about to send
    | Waiting(client: Client, job: Job)    // request sent

  datatype Accepted = Accepted(asked: Request, response: Response)

  // `rejected` records a request ID the server refused other than by exhaustion,
  // `exhausted` a client whose ID counter wrapped.
  datatype System = System(slot: Option<Client>, call: Call, accepted: seq<Accepted>, rejected: bool, exhausted: bool)

  // The artifact both sides were given, what the server announces, and the public witness of each job.
  datatype Setup = Setup(artifact: nat, serverArtifact: nat, expected: Job -> seq<byte>)

  datatype Event =
    | Begin(job: Job)
    | Greeted                                 // client reads the greeting
    | Send
    | Received                                // client reads a response
    | GiveUp                                  // timeout, cancellation or an I/O error
    | Server(step: ServerStep)

  datatype ServerStep =
    | Greet | Read | Take
    | Respond(proof: seq<byte>, public: seq<byte>, failed: bool)
    | Stop

  const FRESH: Process := Process([], [], Server.Server(false, None, None, 1, false))

  function WrappingNext(id: nat): nat {
    (id + 1) % TWO_64
  }

  // ----- Server -----

  // One step of `serve` or `readRequests`; the flag tells whether a request ID was refused.
  function Serve(setup: Setup, p: Process, step: ServerStep): (Process, bool) {
    var s := p.server;
    if s.stopped then (p, false)
    else
      match step
      case Greet =>
        if s.greeted then (p, false)
        else (p.(toClient := p.toClient + [Ready(VERSION, setup.serverArtifact)], server := s.(greeted := true)), false)
      case Read =>
        if !s.greeted || s.reading.Some? || p.toServer == [] then (p, false)
        else (p.(toServer := p.toServer[1..], server := s.(reading := Some(p.toServer[0]))), false)
      case Take =>
        if s.reading.None? || s.proving.Some? then (p, false)
        else if s.reading.value.id != s.next then (p.(server := s.(stopped := true)), true)
        else
          var next := WrappingNext(s.next);
          if next == 0 then (p.(server := s.(next := next, reading := None, stopped := true)), false)
          else (p.(server := s.(next := next, reading := None, proving := s.reading)), false)
      case Respond(proof, public, failed) =>
        if s.proving.None? then (p, false)
        else (p.(toClient := p.toClient + [Answer(Response(s.proving.value, proof, public, failed))],
                 server := s.(proving := None)), false)
      case Stop => (p.(server := s.(stopped := true)), false)
  }

  // ----- Client -----

  // `validate_response`, then the comparison with the expected public witness.
  predicate Valid(setup: Setup, client: Client, job: Job, m: Message) {
    && m.Answer?
    && m.response.answers.id == client.nextRequestId
    && !m.response.failed
    && m.response.proof != [] && m.response.public != []
    && m.response.public == setup.expected(job)
  }

  function Step(setup: Setup, s: System, e: Event): System {
    match e
    case Begin(job) =>
      if s.call != NoCall then s
      else if s.slot.Some? then s.(slot := None, call := Holding(s.slot.value, job))
      else s.(call := Starting(FRESH, job))
    case Greeted =>
      if !s.call.Starting? || s.call.process.toClient == [] then s
      else if s.call.process.toClient[0] == Ready(VERSION, setup.artifact) then
        s.(call := Holding(Client.Client(s.call.process.(toClient := s.call.process.toClient[1..]), 0), s.call.job))
      else s.(call := NoCall)
    case Send =>
      if !s.call.Holding? then s
      else
        var client := s.call.client;
        var id := WrappingNext(client.nextRequestId);
        if id == 0 then s.(call := NoCall, exhausted := true)
        else
          var p := client.process;
          s.(call := Waiting(Client.Client(p.(toServer := p.toServer + [Request(id, s.call.job)]), id), s.call.job))
    case Received =>
      if !s.call.Waiting? || s.call.client.process.toClient == [] then s
      else
        var client, job := s.call.client, s.call.job;
        var m, p := client.process.toClient[0], client.process;
        if !Valid(setup, client, job, m) then s.(call := NoCall)
        else
          s.(slot := Some(client.(process := p.(toClient := p.toClient[1..]))), call := NoCall,
             accepted := s.accepted + [Accepted(Request(client.nextRequestId, job), m.response)])
    case GiveUp =>
      if s.call == NoCall then s else s.(call := NoCall)
    case Server(step) =>
      ServeLive(setup, s, step)
  }

  // The only process alive is the one in the slot or in the call; all others were killed.
  function ServeLive(setup: Setup, s: System, step: ServerStep): System {
    if s.slot.Some? then
      var (p, refused) := Serve(setup, s.slot.value.process, step);
      s.(slot := Some(s.slot.value.(process := p)), rejected := s.rejected || refused)
    else
      match s.call
      case NoCall => s
      case Starting(process, job) =>
        var (p, refused) := Serve(setup, process, step);
        s.(call := Starting(p, job), rejected := s.rejected || refused)
      case Holding(client, job) =>
        var (p, refused) := Serve(setup, client.process, step);
        s.(call := Holding(client.(process := p), job), rejected := s.rejected || refused)
      case Waiting(client, job) =>
        var (p, refused) := Serve(setup, client.process, step);
        s.(call := Waiting(client.(process := p), job), rejected := s.rejected || refused)
  }

  function Run(setup: Setup, events: seq<Event>): System {
    if events == [] then System(None, NoCall, [], false, false)
    else Step(setup, Run(setup, events[..|events| - 1]), events[|events| - 1])
  }

  // ----- Invariant -----

  // No message in flight, and the server expects the client's last ID plus one.
  predicate Quiet(client: Client) {
    var p := client.process;
    && p.toServer == [] && p.toClient == []
    && p.server.greeted && p.server.reading.None? && p.server.proving.None?
    && client.nextRequestId < TWO_64 - 1 && p.server.next == client.nextRequestId + 1
  }

  predicate Greeting(setup: Setup, p: Process) {
    && p.toServer == [] && p.server.reading.None? && p.server.proving.None? && p.server.next == 1
    && p.toClient == if p.server.greeted then [Ready(VERSION, setup.serverArtifact)] else []
  }

  // The one request in flight is somewhere on its way.
  predicate InFlight(client: Client, job: Job) {
    var p, r := client.process, Request(client.nextRequestId, job);
    && 0 < r.id < TWO_64 && p.server.greeted
    && if p.toServer != [] then
         && p.toServer == [r] && p.toClient == []
         && p.server.reading.None? && p.server.proving.None? && p.server.next == r.id
       else if p.server.reading.Some? then
         p.server.reading.value == r && p.server.proving.None? && p.toClient == [] && p.server.next == r.id
       else if p.server.proving.Some? then
         p.server.proving.value == r && p.toClient == [] && p.server.next == r.id + 1 < TWO_64
       else if p.toClient != [] then
         |p.toClient| == 1 && p.toClient[0].Answer? && p.toClient[0].response.answers == r
         && p.server.next == r.id + 1 < TWO_64
       else p.server.stopped && r.id == TWO_64 - 1 && p.server.next == 0
  }

  predicate Lockstep(setup: Setup, s: System) {
    && (s.slot.Some? ==> s.call == NoCall && Quiet(s.slot.value))
    && (match s.call
        case NoCall => true
        case Starting(p, job) => Greeting(setup, p)
        case Holding(client, job) => Quiet(client)
        case Waiting(client, job) => InFlight(client, job))
    && (forall a | a in s.accepted :: a.response.answers == a.asked && a.response.public == setup.expected(a.asked.job)
                                      && a.response.proof != [] && !a.response.failed && a.asked.id < TWO_64 - 1)
    && !s.rejected && !s.exhausted
  }

  lemma ServeKeepsQuiet(setup: Setup, client: Client, step: ServerStep)
    requires Quiet(client)
    ensures var (p, refused) := Serve(setup, client.process, step); Quiet(client.(process := p)) && !refused
  {
  }

  lemma ServeKeepsGreeting(setup: Setup, p: Process, step: ServerStep)
    requires Greeting(setup, p)
    ensures var (p', refused) := Serve(setup, p, step); Greeting(setup, p') && !refused
  {
  }

  lemma ServeKeepsInFlight(setup: Setup, client: Client, job: Job, step: ServerStep)
    requires InFlight(client, job)
    ensures var (p, refused) := Serve(setup, client.process, step); InFlight(client.(process := p), job) && !refused
  {
    var p := client.process;
    if p.server.next + 1 < TWO_64 {
      SmallMod(p.server.next + 1, TWO_64);
    }
    if p.toServer != [] {
      assert p.toServer[1..] == [];
    }
  }

  lemma StepKeepsLockstep(setup: Setup, s: System, e: Event)
    requires Lockstep(setup, s)
    ensures Lockstep(setup, Step(setup, s, e))
  {
    match e
    case Begin(job) =>
    case Greeted =>
      if s.call.Starting? && s.call.process.toClient != [] {
        assert s.call.process.toClient[1..] == [];
      }
    case Send =>
      if s.call.Holding? {
        SmallMod(s.call.client.nextRequestId + 1, TWO_64);
      }
    case Received =>
      if s.call.Waiting? && s.call.client.process.toClient != [] {
        assert s.call.client.process.toClient[1..] == [];
      }
    case GiveUp =>
    case Server(step) =>
      if s.slot.Some? {
        ServeKeepsQuiet(setup, s.slot.value, step);
      }
      match s.call
      case NoCall =>
      case Starting(p, job) => ServeKeepsGreeting(setup, p, step);
      case Holding(client, job) => ServeKeepsQuiet(setup, client, step);
      case Waiting(client, job) => ServeKeepsInFlight(setup, client, job, step);
  }

  lemma {:induction false} RunKeepsLockstep(setup: Setup, events: seq<Event>)
    ensures Lockstep(setup, Run(setup, events))
  {
    if events == [] {
    } else {
      RunKeepsLockstep(setup, events[..|events| - 1]);
      StepKeepsLockstep(setup, Run(setup, events[..|events| - 1]), events[|events| - 1]);
    }
  }

  /**
   Over every interleaving: an occupied slot is quiet, every accepted response was computed
   from the request of the call that accepted it and carries the public witness that call
   expects, the server never refuses an ID, and the client's counter never wraps.
   */
  lemma WorkerSafety(setup: Setup, events: seq<Event>)
    ensures var s := Run(setup, events);
      && (s.slot.Some? ==> Quiet(s.slot.value))
      && (forall a | a in s.accepted ::
            && a.response.answers == a.asked && a.response.public == setup.expected(a.asked.job)
            && a.response.proof != [] && !a.response.failed)
      && !s.rejected && !s.exhausted
  {
    RunKeepsLockstep(setup, events);
  }

  // The server reads, takes and answers the request in its pipe.
  function Served(setup: Setup, p: Process, proof: seq<byte>, public: seq<byte>): Process {
    var read := Serve(setup, p, Read).0;
    var taken := Serve(setup, read, Take).0;
    Serve(setup, taken, Respond(proof, public, false)).0
  }

  lemma ServedAnswers(setup: Setup, p: Process, r: Request, proof: seq<byte>, public: seq<byte>)
    requires p.server == Server.Server(true, None, None, r.id, false) && p.toServer == [r] && p.toClient == []
    requires 0 < r.id < TWO_64
    ensures Served(setup, p, proof, public)
         == if r.id < TWO_64 - 1
            then Process([], [Answer(Response(r, proof, public, false))], p.server.(next := r.id + 1))
            else Process([], [], Server.Server(true, None, None, 0, true))
  {
    assert p.toServer[1..] == [];
    if r.id < TWO_64 - 1 {
      SmallMod(r.id + 1, TWO_64);
      assert p.toClient + [Answer(Response(r, proof, public, false))] == [Answer(Response(r, proof, public, false))];
    }
  }

  // One undisturbed exchange of a call about to send.
  function Exchange(setup: Setup, s: System, proof: seq<byte>, public: seq<byte>): System {
    var sent := Step(setup, s, Send);
    if !sent.call.Waiting? then sent
    else
      var process := Served(setup, sent.call.client.process, proof, public);
      Step(setup, sent.(call := Waiting(sent.call.client.(process := process), sent.call.job)), Received)
  }

  // The steps of one undisturbed exchange.
  function ExchangeSteps(proof: seq<byte>, public: seq<byte>): seq<Event> {
    [Send, Event.Server(Read), Event.Server(Take), Event.Server(Respond(proof, public, false)), Received]
  }

  // The server alone moves while the call waits.
  lemma ServedInSteps(setup: Setup, s: System, proof: seq<byte>, public: seq<byte>)
    requires s.slot.None? && s.call.Waiting? && InFlight(s.call.client, s.call.job) && !s.rejected
    ensures Step(setup, Step(setup, Step(setup, s, Event.Server(Read)), Event.Server(Take)),
                 Event.Server(Respond(proof, public, false)))
         == s.(call := Waiting(s.call.client.(process := Served(setup, s.call.client.process, proof, public)),
                               s.call.job))
  {
    var client, job := s.call.client, s.call.job;
    var read := client.(process := Serve(setup, client.process, Read).0);
    ServeKeepsInFlight(setup, client, job, Read);
    assert Step(setup, s, Event.Server(Read)) == s.(call := Waiting(read, job));
    var taken := read.(process := Serve(setup, read.process, Take).0);
    ServeKeepsInFlight(setup, read, job, Take);
    assert Step(setup, s.(call := Waiting(read, job)), Event.Server(Take)) == s.(call := Waiting(taken, job));
  }

  // It is an interleaving of the system's own steps.
  lemma ExchangeIsARun(setup: Setup, events: seq<Event>, proof: seq<byte>, public: seq<byte>)
    requires Run(setup, events).call.Holding?
    ensures Exchange(setup, Run(setup, events), proof, public) == Run(setup, events + ExchangeSteps(proof, public))
  {
    var read, take, respond := Event.Server(Read), Event.Server(Take), Event.Server(Respond(proof, public, false));
    RunFive(setup, events, Send, read, take, respond, Received);
    RunKeepsLockstep(setup, events);
    StepKeepsLockstep(setup, Run(setup, events), Send);
    SmallMod(Run(setup, events).call.client.nextRequestId + 1, TWO_64);
    ServedInSteps(setup, Step(setup, Run(setup, events), Send), proof, public);
  }

  lemma RunFive(setup: Setup, events: seq<Event>, a: Event, b: Event, c: Event, d: Event, e: Event)
    ensures Run(setup, events + [a, b, c, d, e])
         == Step(setup, Step(setup, Step(setup, Step(setup, Step(setup, Run(setup, events), a), b), c), d), e)
  {
    FiveMore(events, a, b, c, d, e);
    RunAppend(setup, events, a);
    RunAppend(setup, events + [a], b);
    RunAppend(setup, events + [a] + [b], c);
    RunAppend(setup, events + [a] + [b] + [c], d);
    RunAppend(setup, events + [a] + [b] + [c] + [d], e);
  }

  lemma FiveMore<T>(s: seq<T>, a: T, b: T, c: T, d: T, e: T)
    ensures s + [a, b, c, d, e] == s + [a] + [b] + [c] + [d] + [e]
  {
  }

  lemma RunAppend(setup: Setup, events: seq<Event>, e: Event)
    ensures Run(setup, events + [e]) == Step(setup, Run(setup, events), e)
  {
    assert (events + [e])[..|events|] == events;
  }

  // An answer the client accepts: complete, and with the public witness the call expects.
  predicate Acceptable(setup: Setup, job: Job, proof: seq<byte>, public: seq<byte>) {
    proof != [] && public != [] && public == setup.expected(job)
  }

  // `after` has the worker back, one request further and with its answer accepted, if and only if the
  // answer is acceptable and the request's ID is below 2^64 - 1.
  predicate Answered(setup: Setup, client: Client, job: Job, accepted: seq<Accepted>,
                     proof: seq<byte>, public: seq<byte>, after: System)
  {
    var id := client.nextRequestId + 1;
    && (after.slot.Some? <==> id < TWO_64 - 1 && Acceptable(setup, job, proof, public))
    && (after.slot.Some? ==>
          && after.call == NoCall
          && after.slot.value == Client.Client(client.process.(server := client.process.server.(next := id + 1)), id)
          && after.accepted
               == accepted + [Accepted(Request(id, job), Response(Request(id, job), proof, public, false))])
  }

  /** A running worker answers every request but the last, whose ID the server spends on stopping. */
  lemma AnsweredExactly(setup: Setup, s: System, proof: seq<byte>, public: seq<byte>)
    requires Lockstep(setup, s) && s.slot.None? && s.call.Holding? && !s.call.client.process.server.stopped
    ensures Answered(setup, s.call.client, s.call.job, s.accepted, proof, public, Exchange(setup, s, proof, public))
  {
    var client, id := s.call.client, s.call.client.nextRequestId + 1;
    SmallMod(id, TWO_64);
    var request := Request(id, s.call.job);
    var sent := client.process.(toServer := client.process.toServer + [request]);
    assert sent.toServer == [request];
    ServedAnswers(setup, sent, request, proof, public);
  }

  // ----- Taking the worker -----

  /** A call takes the idle worker out of the slot; only an empty slot starts a new process. */
  lemma BeginTakes(setup: Setup, events: seq<Event>, job: Job)
    ensures var s, after := Run(setup, events), Run(setup, events + [Begin(job)]);
      after == if s.slot.Some? then s.(slot := None, call := Holding(s.slot.value, job))
               else if s.call == NoCall then s.(call := Starting(FRESH, job))
               else s
  {
    RunKeepsLockstep(setup, events);
    RunAppend(setup, events, Begin(job));
  }

  /** Reuse: a call that finds a worker in the slot has it answer its next request, and puts it back. */
  lemma WorkerReused(setup: Setup, events: seq<Event>, job: Job, proof: seq<byte>, public: seq<byte>)
    requires var s := Run(setup, events); s.slot.Some? && !s.slot.value.process.server.stopped
    ensures var s := Run(setup, events);
      Answered(setup, s.slot.value, job, s.accepted, proof, public,
               Run(setup, events + [Begin(job)] + ExchangeSteps(proof, public)))
  {
    var begun := events + [Begin(job)];
    BeginTakes(setup, events, job);
    RunKeepsLockstep(setup, begun);
    ExchangeIsARun(setup, begun, proof, public);
    AnsweredExactly(setup, Run(setup, begun), proof, public);
  }

  // ----- Starting and losing a worker -----

  /** A new process serves its first call, as request 1, if and only if both sides were given the same artifact. */
  lemma StartedExactly(setup: Setup, events: seq<Event>, job: Job)
    requires var s := Run(setup, events); s.call == NoCall && s.slot.None?
    ensures var s, greeted := Run(setup, events), Run(setup, events + [Begin(job)] + [Event.Server(Greet)] + [Greeted]);
      if setup.serverArtifact == setup.artifact then
        greeted.call == Holding(Client.Client(Process([], [], Server.Server(true, None, None, 1, false)), 0), job)
      else greeted.call == NoCall
  {
    var b := events + [Begin(job)];
    RunAppend(setup, events, Begin(job));
    RunAppend(setup, b, Event.Server(Greet));
    RunAppend(setup, b + [Event.Server(Greet)], Greeted);
  }

  // No call got past the greeting.
  predicate Unserved(s: System) {
    s.slot.None? && !s.call.Holding? && !s.call.Waiting? && s.accepted == []
  }

  /** With different artifacts on the two sides nothing is ever asked or accepted. */
  lemma {:induction false} MismatchServesNothing(setup: Setup, events: seq<Event>)
    requires setup.serverArtifact != setup.artifact
    ensures Unserved(Run(setup, events))
  {
    if events == [] {
    } else {
      var prefix, last := events[..|events| - 1], events[|events| - 1];
      MismatchServesNothing(setup, prefix);
      RunKeepsLockstep(setup, prefix);
    }
  }

  /** A call that ends puts its worker back if and only if it accepted a response; giving up always ends it. */
  lemma WorkerKeptExactly(setup: Setup, events: seq<Event>, e: Event)
    requires Run(setup, events).call != NoCall
    ensures var s, after := Run(setup, events), Run(setup, events + [e]);
      && (after.call == NoCall ==> (after.slot.Some? <==> |after.accepted| == |s.accepted| + 1))
      && (after.call != NoCall ==> after.slot.None? && after.accepted == s.accepted)
      && (e == GiveUp ==> after.call == NoCall && after.slot.None? && after.accepted == s.accepted)
  {
    RunKeepsLockstep(setup, events);
    RunAppend(setup, events, e);
  }

  /** Whatever arrives, and from whatever server, is accepted if and only if it answers the pending request. */
  lemma ReceivedExactly(setup: Setup, s: System, m: Message)
    requires s.call.Waiting? && s.call.client.process.toClient != [] && s.call.client.process.toClient[0] == m
    ensures var client, job, after := s.call.client, s.call.job, Step(setup, s, Received);
      && after.call == NoCall
      && after.accepted
         == if m.Answer? && m.response.answers.id == client.nextRequestId && !m.response.failed
               && Acceptable(setup, job, m.response.proof, m.response.public)
            then s.accepted + [Accepted(Request(client.nextRequestId, job), m.response)]
            else s.accepted
  {
  }

  /**
   Whatever arrives, the server proves only the request it expects next, refuses exactly the
   others, holds one request at a time, and does nothing once it has stopped.
   */
  lemma TakenInOrder(setup: Setup, p: Process, step: ServerStep)
    requires p.server.next < TWO_64
    ensures var s, (p', refused) := p.server, Serve(setup, p, step);
      var taking := step == Take && !s.stopped && s.reading.Some? && s.proving.None?;
      && (p'.server.proving.Some? && p'.server.proving != s.proving ==>
            && taking && p'.server.proving == s.reading
            && s.reading.value.id == s.next && p'.server.next == s.next + 1)
      && (refused <==> taking && s.reading.value.id != s.next)
      && (refused || step == Stop ==> p'.server.stopped)
      && (s.stopped || (step == Read && s.reading.Some?) ==> p' == p)
  {
    if p.server.next + 1 < TWO_64 {
      SmallMod(p.server.next + 1, TWO_64);
    }
  }

  // The process alive, if any.
  function Live(s: System): Option<Process> {
    if s.slot.Some? then Some(s.slot.value.process)
    else
      match s.call
      case NoCall => None
      case Starting(process, _) => Some(process)
      case Holding(client, _) => Some(client.process)
      case Waiting(client, _) => Some(client.process)
  }

  // What `rejected` and `exhausted` record, in every state.
  lemma FaultsRecorded(setup: Setup, s: System, e: Event)
    ensures var after := Step(setup, s, e);
      && (after.rejected <==> s.rejected || (e.Server? && Live(s).Some? && Serve(setup, Live(s).value, e.step).1))
      && (after.exhausted <==>
            s.exhausted || (e == Send && s.call.Holding? && WrappingNext(s.call.client.nextRequestId) == 0))
      && (e.Server? && Live(s).Some? ==> Live(after) == Some(Serve(setup, Live(s).value, e.step).0))
  {
  }
}
