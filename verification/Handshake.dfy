/** The request and response handshake of a machine with the gateway, across sessions that are
    lost at any point. The machine issues a request when request and response are both 0, holds it
    until the response is not 0, and then resets it. */
module Handshake {
  import opened Wrappers
  import opened Variants
  import opened SaveRequest
  import opened Requests

  /** What became of a request. History variables: how many times a handler started it, how many
      sessions were lost before its response was written, how each of its runs ended. */
  datatype Record = Record(code: u8, starts: nat, lost: nat, answered: bool, outcomes: seq<Operations>)

  /** Where a handler is, between two points where it waits. */
  datatype Handler =
    | Waiting
    | Checking(found: u8)
    | Checked(found: u8, read: Option<seq<DataValue>>)
    | Running(found: u8)
    | Responding(found: u8, response: u8)

  /** A session: the last request code its server has sampled, the notification the server has not
      published yet (the next sample takes its place), and those the handler has not taken yet.
      History variable: whether it has started the last request. */
  datatype Session = Session(isInitial: bool, handler: Handler, queue: seq<u8>, slot: Option<u8>, sampled: u8,
                             started: bool)

  datatype Machine = Machine(request: u8, response: u8, log: seq<Record>, session: Option<Session>) {
    /** The last request issued. */
    function Last(): Record
      requires log != []
    {
      log[|log| - 1]
    }

    function WithLast(r: Record): Machine
      requires log != []
    {
      this.(log := log[|log| - 1 := r])
    }

    predicate Ready() {
      request == 0 && response == 0
    }

    predicate Active() {
      request != 0 && response == 0
    }

    predicate Answered() {
      request != 0 && response != 0
    }

    predicate Resetting() {
      request == 0 && response != 0
    }
  }

  const AT_REST: Machine := Machine(0, 0, [], None)

  datatype Event =
    // The machine's program.
    | Issue(code: u8)
    | ResetRequest
    // The session manager and the network.
    | StartSession
    | LoseSession
    // The machine's server.
    | Sample
    | Publish
    // The handler.
    | Take
    | ReadResponse(answer: Option<seq<DataValue>>)
    | Decide
    | Finish(ops: Operations)
    | WriteResponse(lands: bool)

  // ---------------------------------------------------------------------------
  // Steps
  // ---------------------------------------------------------------------------

  function Issued(m: Machine, code: u8): Option<Machine> {
    if !m.Ready() || code == 0 then None
    else
      Some(m.(request := code, log := m.log + [Record(code, 0, 0, false, [])],
              session := if m.session.None? then None else Some(m.session.value.(started := false))))
  }

  function SessionStarted(m: Machine): Option<Machine> {
    if m.session.Some? then None
    else Some(m.(session := Some(Session(true, Waiting, [], Some(m.request), m.request, false))))
  }

  function SessionLost(m: Machine): Option<Machine> {
    if m.session.None? then None
    else
      var left := m.(session := None);
      if m.log == [] || m.Last().answered then Some(left)
      else Some(left.WithLast(m.Last().(lost := m.Last().lost + 1)))
  }

  function Sampled(m: Machine, s: Session): Option<Session> {
    if s.sampled == m.request then None else Some(s.(sampled := m.request, slot := Some(m.request)))
  }

  function Published(s: Session): Option<Session> {
    if s.slot.None? then None else Some(s.(queue := s.queue + [s.slot.value], slot := None))
  }

  /** The handler turns to a request value: a reset is answered at once, anything else starts. */
  function Begun(m: Machine, s: Session, code: u8): Machine {
    if code == 0 then m.(session := Some(s.(handler := Responding(0, RESPONSE_RESET))))
    else
      var running := m.(session := Some(s.(handler := Running(code), started := true)));
      if m.log == [] then running else running.WithLast(m.Last().(starts := m.Last().starts + 1))
  }

  /** The handler takes a notification. The first one may be of a request that was answered before:
      when it would count as answered if nothing were known of the response, the handler asks. */
  function Taken(m: Machine, s: Session): Option<Machine> {
    if !s.handler.Waiting? || s.queue == [] then None
    else
      var code := s.queue[0];
      var rest := s.(queue := s.queue[1..], isInitial := false);
      if s.isInitial && IsInitialRequestAnswered(Reported(code), None) then
        Some(m.(session := Some(rest.(handler := Checking(code)))))
      else Some(Begun(m, rest, code))
  }

  function Decided(m: Machine, s: Session): Option<Machine> {
    if !s.handler.Checked? then None
    else
      if IsInitialRequestAnswered(Reported(s.handler.found), s.handler.read)
      then Some(m.(session := Some(s.(handler := Waiting))))
      else Some(Begun(m, s, s.handler.found))
  }

  function Finished(m: Machine, s: Session, ops: Operations): Option<Machine> {
    if !s.handler.Running? then None
    else
      var code := s.handler.found;
      var done := m.(session := Some(s.(handler := Responding(code, ResponseTo(Reported(code), ops)))));
      Some(if m.log == [] then done else done.WithLast(m.Last().(outcomes := m.Last().outcomes + [ops])))
  }

  function Responded(m: Machine, s: Session, lands: bool): Option<Machine> {
    if !s.handler.Responding? then None
    else
      var left := m.(session := Some(s.(handler := Waiting)));
      if !lands then Some(left)
      else
        var written := left.(response := s.handler.response);
        Some(if s.handler.response == 0 || m.log == [] then written else written.WithLast(m.Last().(answered := true)))
  }

  function WithSession(m: Machine, s: Option<Session>): Option<Machine> {
    if s.None? then None else Some(m.(session := s))
  }

  /** What the server may answer when asked for the response: the response, or nothing of the kind. */
  predicate IsResponseAnswer(m: Machine, answer: Option<seq<DataValue>>) {
    answer.Some? && |answer.value| == 1 && IntoByte(answer.value[0]).Ok? ==>
      IntoByte(answer.value[0]) == Ok(m.response)
  }

  function Read(m: Machine, s: Session, answer: Option<seq<DataValue>>): Option<Session> {
    if !s.handler.Checking? || !IsResponseAnswer(m, answer) then None
    else Some(s.(handler := Checked(s.handler.found, answer)))
  }

  /** The machine after an event, when the event can happen. */
  function Step(m: Machine, e: Event): Option<Machine> {
    if e.Issue? then Issued(m, e.code)
    else if e.ResetRequest? then (if m.Answered() then Some(m.(request := 0)) else None)
    else if e.StartSession? then SessionStarted(m)
    else if e.LoseSession? then SessionLost(m)
    else if m.session.None? then None
    else
      var s := m.session.value;
      match e
      case Sample => WithSession(m, Sampled(m, s))
      case Publish => WithSession(m, Published(s))
      case Take => Taken(m, s)
      case ReadResponse(answer) => WithSession(m, Read(m, s, answer))
      case Decide => Decided(m, s)
      case Finish(ops) => Finished(m, s, ops)
      case WriteResponse(lands) => Responded(m, s, lands)
      case _ => None
  }

  function Play(run: seq<Event>): Option<Machine> {
    if run == [] then Some(AT_REST)
    else
      match Play(run[..|run| - 1])
      case None => None
      case Some(m) => Step(m, run[|run| - 1])
  }

  // ---------------------------------------------------------------------------
  // The invariant
  // ---------------------------------------------------------------------------

  function Pending(s: Session): seq<u8> {
    s.queue + if s.slot.Some? then [s.slot.value] else []
  }

  /** The request codes the handler will be notified of if the machine does nothing more. */
  function Upcoming(m: Machine, s: Session): seq<u8> {
    Pending(s) + if s.sampled != m.request then [m.request] else []
  }

  ghost predicate RecordOk(r: Record) {
    r.code != 0 && r.starts <= 1 + r.lost
  }

  /** The last response computed for a request. */
  ghost predicate IsComputedFor(response: u8, r: Record) {
    r.outcomes != [] && response == ResponseTo(Reported(r.code), r.outcomes[|r.outcomes| - 1])
  }

  ghost predicate LogOk(m: Machine) {
    && (forall i :: 0 <= i < |m.log| ==> RecordOk(m.log[i]))
    && (m.request != 0 ==> m.log != [] && m.Last().code == m.request)
    && (m.response != 0 ==> m.log != [] && IsComputedFor(m.response, m.Last()))
    && (m.log != [] ==> (m.Active() <==> !m.Last().answered))
    && (m.Active() ==> m.Last().starts <= m.Last().lost + if m.session.Some? && m.session.value.started then 1 else 0)
  }

  ghost predicate WaitingOk(m: Machine, s: Session) {
    var upcoming := Upcoming(m, s);
    if s.isInitial then
      && Pending(s) != [] && !s.started
      && (m.Ready() ==> upcoming == [0])
      && (m.Active() ==> upcoming == [m.request] || upcoming == [0, m.request])
      && (m.Answered() ==> upcoming == [m.request])
      && (m.Resetting() ==> upcoming == [0] || (|upcoming| == 2 && upcoming[0] != 0 && upcoming[1] == 0))
    else
      && (m.Ready() ==> upcoming == [])
      && (m.Active() ==> upcoming == [] || (upcoming == [m.request] && !s.started))
      && (m.Answered() ==> upcoming == [])
      && (m.Resetting() ==> upcoming == [] || upcoming == [0])
  }

  ghost predicate CheckingOk(m: Machine, s: Session, found: u8) {
    && found != 0 && !m.Ready() && !s.isInitial
    && (m.Active() ==> found == m.request && Upcoming(m, s) == [] && !s.started)
    && (m.Answered() ==> Upcoming(m, s) == [])
    && (m.Resetting() ==> Upcoming(m, s) == [0])
  }

  ghost predicate RunningOk(m: Machine, s: Session, found: u8) {
    m.Active() && found == m.request && Upcoming(m, s) == [] && s.started && !s.isInitial
  }

  ghost predicate RespondingOk(m: Machine, s: Session, found: u8, response: u8) {
    if found == 0 then
      && response == 0 && !m.Answered() && !s.isInitial
      && (m.Active() ==> Upcoming(m, s) == [m.request] && !s.started)
      && (!m.Active() ==> Upcoming(m, s) == [])
    else
      RunningOk(m, s, found) && m.log != [] && IsComputedFor(response, m.Last())
  }

  /** The answer is a single good 0. */
  ghost predicate SaysReset(read: Option<seq<DataValue>>) {
    read == Some([DataValue(true, Some(Byte(0)))])
  }

  ghost predicate SessionOk(m: Machine, s: Session) {
    match s.handler
    case Waiting => WaitingOk(m, s)
    case Checking(found) => CheckingOk(m, s, found)
    case Checked(found, read) => CheckingOk(m, s, found) && (SaysReset(read) ==> m.Active())
    case Running(found) => RunningOk(m, s, found)
    case Responding(found, response) => RespondingOk(m, s, found, response)
  }

  ghost predicate Inv(m: Machine) {
    LogOk(m) && (m.session.Some? ==> SessionOk(m, m.session.value))
  }

  lemma TakenIsFirst(m: Machine, s: Session)
    requires s.queue != []
    ensures Upcoming(m, s) != [] && Upcoming(m, s)[0] == s.queue[0]
    ensures Upcoming(m, s.(queue := s.queue[1..])) == Upcoming(m, s)[1..]
  {
    var rest := s.(queue := s.queue[1..]);
    assert Pending(rest) == Pending(s)[1..];
  }

  lemma UpcomingIsAboutNotifications(m: Machine, s: Session, n: Machine)
    requires n.session.Some? && n.request == m.request
    requires n.session.value.queue == s.queue && n.session.value.slot == s.slot && n.session.value.sampled == s.sampled
    ensures Upcoming(n, n.session.value) == Upcoming(m, s)
  {
  }

  lemma RequestChanges(m: Machine, s: Session, code: u8)
    requires code != m.request
    requires Upcoming(m, s) == [] || (|Upcoming(m, s)| == 1 && Pending(s) != [])
    ensures Upcoming(m.(request := code), s) == Upcoming(m, s) + [code]
  {
    assert s.sampled == m.request;
  }

  lemma IssueKeeps(m: Machine, code: u8)
    requires Inv(m) && Issued(m, code).Some?
    ensures Inv(Issued(m, code).value)
  {
  }

  lemma ResetKeeps(m: Machine)
    requires Inv(m) && m.Answered()
    ensures Inv(m.(request := 0))
  {
    if m.session.Some? {
      hide IsComputedFor, Upcoming, Pending;
      RequestChanges(m, m.session.value, 0);
    }
  }

  lemma StartKeeps(m: Machine)
    requires Inv(m) && SessionStarted(m).Some?
    ensures Inv(SessionStarted(m).value)
  {
  }

  lemma LossKeeps(m: Machine)
    requires Inv(m) && SessionLost(m).Some?
    ensures Inv(SessionLost(m).value)
  {
  }

  lemma SampleKeeps(m: Machine, s: Session)
    requires Inv(m) && m.session == Some(s) && Sampled(m, s).Some?
    ensures Inv(m.(session := Sampled(m, s)))
  {
  }

  lemma PublishKeeps(m: Machine, s: Session)
    requires Inv(m) && m.session == Some(s) && Published(s).Some?
    ensures Inv(m.(session := Published(s)))
  {
    assert Pending(Published(s).value) == Pending(s);
  }

  lemma TakeKeeps(m: Machine, s: Session)
    requires Inv(m) && m.session == Some(s) && Taken(m, s).Some?
    ensures Inv(Taken(m, s).value)
  {
    hide IsComputedFor, Upcoming, Pending;
    TakenIsFirst(m, s);
    UpcomingIsAboutNotifications(m, s.(queue := s.queue[1..]), Taken(m, s).value);
  }

  lemma ReadKeeps(m: Machine, s: Session, answer: Option<seq<DataValue>>)
    requires Inv(m) && m.session == Some(s) && Read(m, s, answer).Some?
    ensures Inv(m.(session := Read(m, s, answer)))
  {
  }

  lemma DecideKeeps(m: Machine, s: Session)
    requires Inv(m) && m.session == Some(s) && Decided(m, s).Some?
    ensures Inv(Decided(m, s).value)
  {
    hide IsInitialRequestAnswered, IsComputedFor;
    InitialRequestAnsweredIff(Reported(s.handler.found), s.handler.read);
  }

  lemma FinishKeeps(m: Machine, s: Session, ops: Operations)
    requires Inv(m) && m.session == Some(s) && Finished(m, s, ops).Some?
    ensures Inv(Finished(m, s, ops).value)
  {
  }

  lemma ResponseKeeps(m: Machine, s: Session, lands: bool)
    requires Inv(m) && m.session == Some(s) && Responded(m, s, lands).Some?
    ensures Inv(Responded(m, s, lands).value)
  {
  }

  lemma StepKeeps(m: Machine, e: Event)
    requires Inv(m) && Step(m, e).Some?
    ensures Inv(Step(m, e).value)
  {
    hide Inv, Issued, SessionStarted, SessionLost, Sampled, Published, Taken, Read, Decided, Finished, Responded;
    match e
    case Issue(code) => IssueKeeps(m, code);
    case ResetRequest => ResetKeeps(m);
    case StartSession => StartKeeps(m);
    case LoseSession => LossKeeps(m);
    case Sample => SampleKeeps(m, m.session.value);
    case Publish => PublishKeeps(m, m.session.value);
    case Take => TakeKeeps(m, m.session.value);
    case ReadResponse(answer) => ReadKeeps(m, m.session.value, answer);
    case Decide => DecideKeeps(m, m.session.value);
    case Finish(ops) => FinishKeeps(m, m.session.value, ops);
    case WriteResponse(lands) => ResponseKeeps(m, m.session.value, lands);
  }

  lemma {:induction false} Reached(run: seq<Event>)
    requires Play(run).Some?
    ensures Inv(Play(run).value)
  {
    hide Step, Inv;
    if run == [] {
      AtRestIsFine();
    } else {
      Reached(run[..|run| - 1]);
      StepKeeps(Play(run[..|run| - 1]).value, run[|run| - 1]);
    }
  }

  lemma AtRestIsFine()
    ensures Inv(AT_REST)
  {
  }

  // ---------------------------------------------------------------------------
  // What holds in every run
  // ---------------------------------------------------------------------------

  /** No stale response: in every run, a response seen while a request is active is the one
      computed for that request, by the last of its runs. */
  lemma NoStaleResponse(run: seq<Event>)
    requires Play(run).Some? && Play(run).value.Answered()
    ensures
      var m := Play(run).value;
      && m.log != [] && m.Last().code == m.request && m.Last().answered
      && m.Last().outcomes != []
      && var ops := m.Last().outcomes[|m.Last().outcomes| - 1];
      && m.response == ResponseTo(Reported(m.request), ops)
      && (m.response == RESPONSE_SUCCESS <==> Succeeds(m.request, ops))
  {
    hide Step, Play, SessionOk, RecordOk;
    Reached(run);
    var m := Play(run).value;
    ResponsesTellRequests(Reported(m.request), m.Last().outcomes[|m.Last().outcomes| - 1]);
  }

  /** The gateway works on a request only while it is active, and never on a stale one. */
  lemma RunsAreForTheActiveRequest(run: seq<Event>)
    requires Play(run).Some? && Play(run).value.session.Some? && Play(run).value.session.value.handler.Running?
    ensures Play(run).value.Active() && Play(run).value.session.value.handler.found == Play(run).value.request
  {
    hide Step, Play, LogOk;
    Reached(run);
  }

  /** The response is cleared only once the machine has reset its request. */
  lemma OnlyResetsClear(run: seq<Event>, e: Event)
    requires Play(run).Some? && Step(Play(run).value, e).Some?
    requires Play(run).value.response != 0 && Step(Play(run).value, e).value.response != Play(run).value.response
    ensures Play(run).value.request == 0 && Step(Play(run).value, e).value.response == 0
  {
    hide Play, LogOk;
    Reached(run);
  }

  /** Starts bound: in every run, each request has been started at most once more than sessions
      were lost before its response was written. */
  lemma StartsAreBounded(run: seq<Event>, i: nat)
    requires Play(run).Some? && i < |Play(run).value.log|
    ensures Play(run).value.log[i].starts <= 1 + Play(run).value.log[i].lost
  {
    hide Step, Play, SessionOk;
    Reached(run);
    assert RecordOk(Play(run).value.log[i]);
  }

  // What a step does to the count of starts of a request.

  ghost predicate SameRequest(m: Machine, n: Machine, i: nat) {
    && i < |m.log| <= |n.log| && n.log[i].code == m.log[i].code
    && (m.log[i].answered ==> n.log[i].answered)
  }

  /** Whether the session at hand has started a request. */
  predicate HasStarted(m: Machine, i: nat) {
    i == |m.log| - 1 && m.session.Some? && m.session.value.started
  }

  ghost predicate StartsOnce(m: Machine, n: Machine, i: nat)
    requires SameRequest(m, n, i)
  {
    || n.log[i].starts == m.log[i].starts
    || (n.log[i].starts == m.log[i].starts + 1 && !m.log[i].answered && !HasStarted(m, i) && HasStarted(n, i))
  }

  lemma StepStarts(m: Machine, e: Event, i: nat)
    requires Inv(m) && Step(m, e).Some? && i < |m.log|
    ensures SameRequest(m, Step(m, e).value, i) && StartsOnce(m, Step(m, e).value, i)
    ensures m.session.Some? && !e.LoseSession? ==>
              && Step(m, e).value.session.Some?
              && (HasStarted(m, i) ==> HasStarted(Step(m, e).value, i) || |Step(m, e).value.log| > |m.log|)
  {
    hide ResponseTo, IsComputedFor, IsInitialRequestAnswered;
    StepKeeps(m, e);
  }

  lemma {:induction false} PrefixPlays(run: seq<Event>, k: nat)
    requires Play(run).Some? && k <= |run|
    ensures Play(run[..k]).Some?
  {
    if k < |run| {
      assert run[..|run| - 1][..k] == run[..k];
      PrefixPlays(run[..|run| - 1], k);
    } else {
      assert run[..k] == run;
    }
  }

  /** Never again: once the response to a request is written, the request is never started again,
      whatever happens next and however many sessions come and go. */
  lemma {:induction false} NeverStartedAgain(run: seq<Event>, k: nat, i: nat)
    requires Play(run).Some? && k <= |run| && Play(run[..k]).Some?
    requires i < |Play(run[..k]).value.log| && Play(run[..k]).value.log[i].answered
    ensures SameRequest(Play(run[..k]).value, Play(run).value, i)
    ensures Play(run).value.log[i].starts == Play(run[..k]).value.log[i].starts
  {
    hide Step, Inv;
    if k == |run| {
      assert run[..k] == run;
    } else {
      var before := run[..|run| - 1];
      assert before[..k] == run[..k];
      NeverStartedAgain(before, k, i);
      Reached(before);
      StepStarts(Play(before).value, run[|run| - 1], i);
    }
  }

  /** At most once per session: as long as the session is not lost, a request is started at most
      once more, and not at all when the session has started it. */
  lemma {:induction false} OncePerSession(run: seq<Event>, k: nat, i: nat)
    requires Play(run).Some? && k <= |run| && Play(run[..k]).Some?
    requires i < |Play(run[..k]).value.log| && Play(run[..k]).value.session.Some?
    requires forall j :: k <= j < |run| ==> !run[j].LoseSession?
    ensures SameRequest(Play(run[..k]).value, Play(run).value, i) && Play(run).value.session.Some?
    ensures
      var before, after := Play(run[..k]).value, Play(run).value;
      var spent := if HasStarted(before, i) then 1 else 0;
      && after.log[i].starts + spent <= before.log[i].starts + 1
      && (i == |after.log| - 1 && !HasStarted(after, i) ==>
         !HasStarted(before, i) && after.log[i].starts == before.log[i].starts)
  {
    hide Step, Inv;
    if k == |run| {
      assert run[..k] == run;
    } else {
      var before := run[..|run| - 1];
      assert before[..k] == run[..k];
      OncePerSession(before, k, i);
      Reached(before);
      StepStarts(Play(before).value, run[|run| - 1], i);
    }
  }

  lemma PlayOne(run: seq<Event>, m: Machine, e: Event)
    requires Play(run) == Some(m)
    ensures Play(run + [e]) == Step(m, e)
  {
    assert (run + [e])[..|run|] == run;
  }

  /** The machine once a new session has started its request. */
  function Started(m: Machine): Machine
    requires m.log != []
  {
    m.WithLast(m.Last().(starts := m.Last().starts + 1)).(
      session := Some(Session(false, Running(m.request), [], None, m.request, true)))
  }

  /** A session that finds an unanswered request starts it. */
  lemma SessionStartsRequest(run: seq<Event>, m: Machine) returns (more: seq<Event>)
    requires Play(run) == Some(m) && m.Active() && m.session.None? && m.log != []
    ensures run <= more && Play(more) == Some(Started(m))
  {
    hide Play;
    more := run;
    PlayOne(more, m, StartSession);
    more := more + [StartSession];
    var s := Session(true, Waiting, [], Some(m.request), m.request, false);
    PlayOne(more, m.(session := Some(s)), Publish);
    more := more + [Publish];
    s := s.(queue := [] + [m.request], slot := None);
    PlayOne(more, m.(session := Some(s)), Take);
    more := more + [Take];
    s := s.(queue := s.queue[1..], isInitial := false, handler := Checking(m.request));
    assert s.queue == [];
    PlayOne(more, m.(session := Some(s)), ReadResponse(Some([Reported(0)])));
    more := more + [ReadResponse(Some([Reported(0)]))];
    s := s.(handler := Checked(m.request, Some([Reported(0)])));
    PlayOne(more, m.(session := Some(s)), Decide);
    more := more + [Decide];
  }

  /** The bound is reached: for any number of lost sessions, some run starts a request once more
      than that. */
  lemma {:induction false} BoundIsReached(code: u8, losses: nat) returns (run: seq<Event>)
    requires code != 0
    ensures Play(run).Some?
    ensures
      var m := Play(run).value;
      && m.log != [] && m.Last().starts == losses + 1 && m.Last().lost == losses && m.Last().code == code
      && m.Active() && m.session.Some?
  {
    hide Play;
    var m: Machine;
    if losses == 0 {
      NothingPlayed();
      PlayOne([], AT_REST, Issue(code));
      run := [] + [Issue(code)];
    } else {
      run := BoundIsReached(code, losses - 1);
      m := Play(run).value;
      ActiveIsUnanswered(run);
      PlayOne(run, m, LoseSession);
      run := run + [LoseSession];
    }
    run := SessionStartsRequest(run, Play(run).value);
  }

  lemma ActiveIsUnanswered(run: seq<Event>)
    requires Play(run).Some? && Play(run).value.Active()
    ensures Play(run).value.log != [] && !Play(run).value.Last().answered
  {
    Reached(run);
  }

  // ---------------------------------------------------------------------------
  // Recovery
  // ---------------------------------------------------------------------------

  /** The machine once its session is lost, if it has one. */
  lemma SessionIsLost(run: seq<Event>) returns (more: seq<Event>)
    requires Play(run).Some?
    ensures run <= more && Play(more).Some? && Play(more).value.session.None?
    ensures Play(more).value.request == Play(run).value.request && Play(more).value.response == Play(run).value.response
  {
    hide Play;
    more := run;
    if Play(run).value.session.Some? {
      PlayOne(run, Play(run).value, LoseSession);
      more := run + [LoseSession];
    }
  }

  /** A new session answers an active request. */
  lemma RequestIsAnswered(run: seq<Event>) returns (more: seq<Event>)
    requires Play(run).Some? && Play(run).value.Active() && Play(run).value.session.None?
    ensures run <= more && Play(more).Some? && Play(more).value.Answered()
  {
    hide Play, ResponseTo;
    ActiveIsUnanswered(run);
    more := SessionStartsRequest(run, Play(run).value);
    var m, ops := Play(more).value, Operations(Ok(()), Ok(()), Ok(()));
    PlayOne(more, m, Finish(ops));
    more := more + [Finish(ops)];
    ResponsesTellRequests(Reported(m.request), ops);
    PlayOne(more, Play(more).value, WriteResponse(true));
    more := more + [WriteResponse(true)];
  }

  /** A new session answers a machine that has reset its request. */
  lemma ResetIsAnswered(run: seq<Event>) returns (more: seq<Event>)
    requires Play(run).Some? && Play(run).value.Resetting() && Play(run).value.session.None?
    ensures run <= more && Play(more).Some? && Play(more).value.Ready()
  {
    hide Play;
    var m := Play(run).value;
    PlayOne(run, m, StartSession);
    more := run + [StartSession];
    var s := Session(true, Waiting, [], Some(0), 0, false);
    PlayOne(more, m.(session := Some(s)), Publish);
    more := more + [Publish];
    s := s.(queue := [] + [0], slot := None);
    PlayOne(more, m.(session := Some(s)), Take);
    more := more + [Take];
    PlayOne(more, Play(more).value, WriteResponse(true));
    more := more + [WriteResponse(true)];
  }

  /** Never stuck: whatever has happened, and whenever it was that sessions were lost, a run can go
      on so that the machine is at rest again, and can issue its next request. */
  lemma RestIsReachable(run: seq<Event>) returns (more: seq<Event>)
    requires Play(run).Some?
    ensures run <= more && Play(more).Some? && Play(more).value.Ready()
  {
    hide Play;
    if Play(run).value.Ready() {
      return run;
    }
    more := SessionIsLost(run);
    if Play(more).value.Active() {
      more := RequestIsAnswered(more);
    }
    if Play(more).value.Answered() {
      PlayOne(more, Play(more).value, ResetRequest);
      more := more + [ResetRequest];
    }
    more := SessionIsLost(more);
    more := ResetIsAnswered(more);
  }

  lemma NothingPlayed()
    ensures Play([]) == Some(AT_REST)
  {
  }
}
