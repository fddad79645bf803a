/** Whole runs of the RPC protocol: any number of callers and requesters, one responder with a
    functional handler, and a network that drops, repeats and reorders messages. */
module RpcRun {
  import opened Values
  import opened RpcProtocol

  /** Where a caller is: waiting for the acknowledgement, for the reply, done with both waits
      but still filed as pending, gone with a value, or gone with an exception. */
  datatype Stage = AwaitAck | AwaitReply | Leaving | Returned(value: Value) | Thrown

  datatype Caller = Caller(address: string, service: string, request: Value, call: Call, stage: Stage)

  /** One call per rid: getUniqueId never repeats one.

      `requests` and `answers` hold everything ever sent with where it goes; `jobs` is what the
      responder has taken on.  `looked` pairs a message with the call the requester's I/O thread
      found for it: the lookup and the update are separate sections, so a call may time out
      or be swept in between. */
  datatype System = System(
    callers: map<string, Caller>,
    pending: set<string>,
    requests: set<(string, Value)>,
    jobs: set<Job>,
    answers: set<(string, Value)>,
    looked: set<(string, Value)>)

  datatype Action =
    | Begin(rid: string, address: string, service: string, request: Value)
    | Transmit(rid: string)
    | CannotSend(rid: string)
    | Serve(from: string, message: Value)
    | Respond(job: Job)
    | LookUp(address: string, message: Value)
    | Apply(rid: string, message: Value)
    | Sweep(address: string)
    | FailOne(rid: string, err: string)
    | JudgeAckOf(rid: string, timedOut: bool)
    | JudgeReplyOf(rid: string, timedOut: bool)
    | Leave(rid: string)

  /** The protocol's parameters: the transport, the requesters' name in error texts, and the
      responder's handler, a function of the request. */
  datatype Config = Config(transport: Transport, name: string, handler: Value -> Value)

  predicate Enabled(k: Config, s: System, a: Action) {
    match a
    case Begin(rid, _, _, _) => rid !in s.callers
    case Transmit(rid) => rid in s.callers
    case CannotSend(rid) => rid in s.callers && s.callers[rid].stage.AwaitAck?
    case Serve(from, message) => (from, message) in s.requests && Accept(k.transport, from, message).Some?
    case Respond(job) => job in s.jobs
    case LookUp(address, message) =>
      && (address, message) in s.answers
      && RidOf(k.transport, message).Some?
      && RidOf(k.transport, message).value in s.pending
      && RidOf(k.transport, message).value in s.callers
      && s.callers[RidOf(k.transport, message).value].address == address
    case Apply(rid, message) => (rid, message) in s.looked && rid in s.callers && RidOf(k.transport, message).Some?
    case Sweep(_) => true
    case FailOne(rid, err) => rid in s.callers && rid !in s.pending
    case JudgeAckOf(rid, timedOut) =>
      rid in s.callers && s.callers[rid].stage.AwaitAck? && !JudgeAck(s.callers[rid].call, timedOut).Wait?
    case JudgeReplyOf(rid, timedOut) =>
      rid in s.callers && s.callers[rid].stage.AwaitReply? && !JudgeReply(s.callers[rid].call, timedOut).Wait?
    case Leave(rid) => rid in s.callers && s.callers[rid].stage.Leaving?
  }

  function Step(k: Config, s: System, a: Action): System
    requires Enabled(k, s, a)
  {
    match a
    case Begin(rid, address, service, request) =>
      s.(callers := s.callers[rid := Caller(address, service, request, NEW_CALL, AwaitAck)],
         pending := s.pending + {rid})
    case Transmit(rid) =>
      var c := s.callers[rid];
      s.(requests := s.requests + {(c.address, RequestMessage(k.transport, c.address, c.service, rid, c.request))})
    case CannotSend(rid) => Throwing(s, rid)
    case Serve(from, message) =>
      var job := Accept(k.transport, from, message).value;
      s.(jobs := s.jobs + {job}, answers := s.answers + {(job.address, AckMessage(k.transport, job.rid))})
    case Respond(job) =>
      s.(answers := s.answers + {(job.address, ReplyMessage(k.transport, job.rid, k.handler(job.payload)))})
    case LookUp(address, message) =>
      s.(looked := s.looked + {(RidOf(k.transport, message).value, message)})
    case Apply(rid, message) =>
      Update(s, rid, s.callers[rid].(call := Process(k.transport, k.name, s.callers[rid].call, message)))
    case Sweep(address) =>
      s.(pending := set rid | rid in s.pending && !(rid in s.callers && s.callers[rid].address == address))
    case FailOne(rid, err) => Update(s, rid, s.callers[rid].(call := Failed(s.callers[rid].call, err)))
    case JudgeAckOf(rid, timedOut) =>
      if JudgeAck(s.callers[rid].call, timedOut).Proceed?
      then Update(s, rid, s.callers[rid].(stage := AwaitReply)) else Throwing(s, rid)
    case JudgeReplyOf(rid, timedOut) =>
      if JudgeReply(s.callers[rid].call, timedOut).Proceed?
      then Update(s, rid, s.callers[rid].(stage := Leaving)) else Throwing(s, rid)
    case Leave(rid) =>
      Update(s, rid, s.callers[rid].(stage := Returned(s.callers[rid].call.payload))).(pending := s.pending - {rid})
  }

  function Update(s: System, rid: string, c: Caller): System {
    s.(callers := s.callers[rid := c])
  }

  function Throwing(s: System, rid: string): System
    requires rid in s.callers
  {
    Update(s, rid, s.callers[rid].(stage := Thrown)).(pending := s.pending - {rid})
  }

  const EMPTY := System(map[], {}, {}, {}, {}, {})

  ghost predicate IsRun(k: Config, run: seq<System>, actions: seq<Action>) {
    && |run| == |actions| + 1
    && run[0] == EMPTY
    && forall i :: 0 <= i < |actions| ==> Enabled(k, run[i], actions[i]) && run[i + 1] == Step(k, run[i], actions[i])
  }

  // ----- the invariant -----

  /** The message is an acknowledgement of this call, or the reply to its own request. */
  predicate IsAnswerTo(k: Config, rid: string, c: Caller, message: Value) {
    || message == AckMessage(k.transport, rid)
    || message == ReplyMessage(k.transport, rid, k.handler(c.request))
  }

  predicate IsRequestOf(k: Config, rid: string, c: Caller, address: string, message: Value) {
    c.address == address && message == RequestMessage(k.transport, address, c.service, rid, c.request)
  }

  ghost predicate RequestsGenuine(k: Config, s: System) {
    forall address, message | (address, message) in s.requests ::
      exists rid :: rid in s.callers && IsRequestOf(k, rid, s.callers[rid], address, message)
  }

  predicate JobsGenuine(s: System) {
    forall job | job in s.jobs ::
      job.rid in s.callers && s.callers[job.rid].address == job.address && s.callers[job.rid].request == job.payload
  }

  ghost predicate AnswersGenuine(k: Config, s: System) {
    forall address, message | (address, message) in s.answers ::
      exists rid :: rid in s.callers && IsAnswerTo(k, rid, s.callers[rid], message)
  }

  ghost predicate LookedGenuine(k: Config, s: System) {
    forall rid, message | (rid, message) in s.looked ::
      rid in s.callers && IsAnswerTo(k, rid, s.callers[rid], message)
  }

  /** A replied call holds the handler's value for its own request; a caller past a wait has
      what it waited for. */
  predicate CallerGood(k: Config, c: Caller) {
    && (c.call.replied ==> c.call.payload == k.handler(c.request))
    && (c.stage.AwaitReply? || c.stage.Leaving? || c.stage.Returned? ==> c.call.acked)
    && (c.stage.Leaving? || c.stage.Returned? ==> c.call.replied)
    && (c.stage.Returned? ==> c.stage.value == k.handler(c.request))
  }

  ghost predicate Inv(k: Config, s: System) {
    && RequestsGenuine(k, s)
    && JobsGenuine(s)
    && AnswersGenuine(k, s)
    && LookedGenuine(k, s)
    && (forall rid :: rid in s.callers ==> CallerGood(k, s.callers[rid]))
    && (forall rid :: rid in s.pending ==> rid in s.callers && !Gone(s.callers[rid]))
  }

  predicate Gone(c: Caller) {
    c.stage.Returned? || c.stage.Thrown?
  }

  // ----- every step keeps it -----

  /** Who calls and what for never changes. */
  predicate SameCall(c: Caller, c': Caller) {
    c'.address == c.address && c'.service == c.service && c'.request == c.request
  }

  lemma StepKeepsCalls(k: Config, s: System, a: Action)
    requires Enabled(k, s, a)
    ensures forall rid :: rid in s.callers ==> rid in Step(k, s, a).callers && SameCall(s.callers[rid], Step(k, s, a).callers[rid])
  {
  }

  lemma StepKeepsRequests(k: Config, s: System, a: Action)
    requires Enabled(k, s, a) && RequestsGenuine(k, s)
    ensures RequestsGenuine(k, Step(k, s, a))
  {
    StepKeepsCalls(k, s, a);
    var s' := Step(k, s, a);
    forall address, message | (address, message) in s'.requests
      ensures exists rid :: rid in s'.callers && IsRequestOf(k, rid, s'.callers[rid], address, message)
    {
      if (address, message) in s.requests {
        var rid :| rid in s.callers && IsRequestOf(k, rid, s.callers[rid], address, message);
        assert IsRequestOf(k, rid, s'.callers[rid], address, message);
      } else {
        assert IsRequestOf(k, a.rid, s'.callers[a.rid], address, message);
      }
    }
  }

  lemma StepKeepsJobs(k: Config, s: System, a: Action)
    requires Enabled(k, s, a) && RequestsGenuine(k, s) && JobsGenuine(s)
    ensures JobsGenuine(Step(k, s, a))
  {
    StepKeepsCalls(k, s, a);
    if a.Serve? {
      var rid :| rid in s.callers && IsRequestOf(k, rid, s.callers[rid], a.from, a.message);
      RequestRoundTrip(k.transport, a.from, s.callers[rid].service, rid, s.callers[rid].request);
    }
  }

  lemma StepKeepsAnswers(k: Config, s: System, a: Action)
    requires Enabled(k, s, a) && RequestsGenuine(k, s) && JobsGenuine(s) && AnswersGenuine(k, s)
    ensures AnswersGenuine(k, Step(k, s, a))
  {
    StepKeepsCalls(k, s, a);
    StepKeepsJobs(k, s, a);
    var s' := Step(k, s, a);
    forall address, message | (address, message) in s'.answers
      ensures exists rid :: rid in s'.callers && IsAnswerTo(k, rid, s'.callers[rid], message)
    {
      if (address, message) in s.answers {
        var rid :| rid in s.callers && IsAnswerTo(k, rid, s.callers[rid], message);
        assert IsAnswerTo(k, rid, s'.callers[rid], message);
      } else if a.Serve? {
        var job := Accept(k.transport, a.from, a.message).value;
        assert job in s'.jobs;
        assert IsAnswerTo(k, job.rid, s'.callers[job.rid], message);
      } else {
        assert IsAnswerTo(k, a.job.rid, s'.callers[a.job.rid], message);
      }
    }
  }

  lemma StepKeepsLooked(k: Config, s: System, a: Action)
    requires Enabled(k, s, a) && AnswersGenuine(k, s) && LookedGenuine(k, s)
    ensures LookedGenuine(k, Step(k, s, a))
  {
    StepKeepsCalls(k, s, a);
    var s' := Step(k, s, a);
    forall rid, message | (rid, message) in s'.looked
      ensures rid in s'.callers && IsAnswerTo(k, rid, s'.callers[rid], message)
    {
      if (rid, message) in s.looked {
        assert IsAnswerTo(k, rid, s.callers[rid], message);
      } else {
        var rid' :| rid' in s.callers && IsAnswerTo(k, rid', s.callers[rid'], message);
        AnswersDoTheirPart(k.transport, k.name, NEW_CALL, rid', k.handler(s.callers[rid'].request));
      }
    }
  }

  lemma StepKeepsCallers(k: Config, s: System, a: Action)
    requires Enabled(k, s, a) && LookedGenuine(k, s)
    requires forall rid :: rid in s.callers ==> CallerGood(k, s.callers[rid])
    ensures forall rid :: rid in Step(k, s, a).callers ==> CallerGood(k, Step(k, s, a).callers[rid])
  {
    if a.Apply? {
      var c := s.callers[a.rid];
      assert IsAnswerTo(k, a.rid, c, a.message);
      AnswersDoTheirPart(k.transport, k.name, c.call, a.rid, k.handler(c.request));
    }
  }

  lemma StepKeepsPending(k: Config, s: System, a: Action)
    requires Enabled(k, s, a)
    requires forall rid :: rid in s.pending ==> rid in s.callers && !Gone(s.callers[rid])
    ensures forall rid :: rid in Step(k, s, a).pending ==> rid in Step(k, s, a).callers && !Gone(Step(k, s, a).callers[rid])
  {
  }

  lemma {:induction false} InvInEveryRun(k: Config, run: seq<System>, actions: seq<Action>)
    requires IsRun(k, run, actions)
    ensures Inv(k, run[|actions|])
  {
    if actions != [] {
      var n := |actions| - 1;
      InvInEveryRun(k, run[..n + 1], actions[..n]);
      StepKeepsRequests(k, run[n], actions[n]);
      StepKeepsJobs(k, run[n], actions[n]);
      StepKeepsAnswers(k, run[n], actions[n]);
      StepKeepsLooked(k, run[n], actions[n]);
      StepKeepsCallers(k, run[n], actions[n]);
      StepKeepsPending(k, run[n], actions[n]);
    }
  }

  // ----- the promises -----

  ghost predicate Applied(actions: seq<Action>, rid: string, message: Value) {
    exists i :: 0 <= i < |actions| && actions[i] == Apply(rid, message)
  }

  /** The flags of a call say what was processed for it. */
  lemma {:induction false} FlagsTellWhatWasApplied(k: Config, run: seq<System>, actions: seq<Action>, rid: string)
    requires IsRun(k, run, actions) && rid in run[|actions|].callers
    ensures var c := run[|actions|].callers[rid];
            && (c.call.acked <==> Applied(actions, rid, AckMessage(k.transport, rid)))
            && (c.call.replied <==> Applied(actions, rid, ReplyMessage(k.transport, rid, k.handler(c.request))))
  {
    if actions != [] {
      var n := |actions| - 1;
      var before, a := actions[..n], actions[n];
      assert actions == before + [a];
      forall m ensures Applied(actions, rid, m) <==> Applied(before, rid, m) || a == Apply(rid, m) {
        AppliedOnceMore(before, a, rid, m);
      }
      InvInEveryRun(k, run[..n + 1], before);
      if rid in run[n].callers {
        StepKeepsCalls(k, run[n], a);
        FlagsTellWhatWasApplied(k, run[..n + 1], before, rid);
        FlagsChangeByApplying(k, run[n], a, rid);
      } else {
        assert a.Begin?;
        NothingAppliedBefore(k, run[..n + 1], before, rid);
      }
    }
  }

  lemma AppliedOnceMore(before: seq<Action>, a: Action, rid: string, m: Value)
    ensures Applied(before + [a], rid, m) <==> Applied(before, rid, m) || a == Apply(rid, m)
  {
    var actions := before + [a];
    if Applied(before, rid, m) {
      var i :| 0 <= i < |before| && before[i] == Apply(rid, m);
      assert actions[i] == Apply(rid, m);
    }
    assert actions[|before|] == a;
    if Applied(actions, rid, m) && a != Apply(rid, m) {
      var i :| 0 <= i < |actions| && actions[i] == Apply(rid, m);
      assert before[i] == Apply(rid, m);
    }
  }

  lemma {:induction false} NothingAppliedBefore(k: Config, run: seq<System>, actions: seq<Action>, rid: string)
    requires IsRun(k, run, actions) && rid !in run[|actions|].callers
    ensures forall m :: !Applied(actions, rid, m)
  {
    if actions != [] {
      var n := |actions| - 1;
      assert actions == actions[..n] + [actions[n]] && Enabled(k, run[n], actions[n]);
      StepKeepsCalls(k, run[n], actions[n]);
      NothingAppliedBefore(k, run[..n + 1], actions[..n], rid);
      forall m ensures !Applied(actions, rid, m) {
        AppliedOnceMore(actions[..n], actions[n], rid, m);
      }
    }
  }

  lemma FlagsChangeByApplying(k: Config, s: System, a: Action, rid: string)
    requires Inv(k, s) && Enabled(k, s, a) && rid in s.callers
    ensures var c, c' := s.callers[rid], Step(k, s, a).callers[rid];
            && (c'.call.acked <==> c.call.acked || a == Apply(rid, AckMessage(k.transport, rid)))
            && (c'.call.replied <==> c.call.replied || a == Apply(rid, ReplyMessage(k.transport, rid, k.handler(c.request))))
  {
    if a.Apply? {
      var c := s.callers[a.rid];
      assert IsAnswerTo(k, a.rid, c, a.message);
      AnswersDoTheirPart(k.transport, k.name, c.call, a.rid, k.handler(c.request));
    }
  }

  /** In every run, a call that returns normally returns the handler's value for its own
      request, and only after an acknowledgement and a reply for its own rid were processed, in
      either order. */
  lemma ReturnsItsOwnReply(k: Config, run: seq<System>, actions: seq<Action>, rid: string)
    requires IsRun(k, run, actions) && rid in run[|actions|].callers
    requires run[|actions|].callers[rid].stage.Returned?
    ensures var c := run[|actions|].callers[rid];
            && c.stage.value == k.handler(c.request)
            && Applied(actions, rid, AckMessage(k.transport, rid))
            && Applied(actions, rid, ReplyMessage(k.transport, rid, k.handler(c.request)))
  {
    InvInEveryRun(k, run, actions);
    FlagsTellWhatWasApplied(k, run, actions, rid);
  }

  /** In every run, once every caller has left, by whatever way, nothing is pending. */
  lemma NothingStaysPending(k: Config, run: seq<System>, actions: seq<Action>)
    requires IsRun(k, run, actions)
    requires forall rid :: rid in run[|actions|].callers ==> Gone(run[|actions|].callers[rid])
    ensures run[|actions|].pending == {}
  {
    InvInEveryRun(k, run, actions);
  }

  /** How a call ended is final, whatever messages still arrive. */
  lemma EndingIsFinal(k: Config, s: System, a: Action, rid: string)
    requires Enabled(k, s, a) && rid in s.callers && Gone(s.callers[rid])
    ensures Step(k, s, a).callers[rid].stage == s.callers[rid].stage
  {
  }

  /** How a call ends, from its own fields: it throws when it cannot send, or when it judges a wait that
      nothing has ended and there is an error or a time-out; it returns only by leaving. */
  lemma EndsExactly(k: Config, run: seq<System>, actions: seq<Action>, n: nat, rid: string)
    requires IsRun(k, run, actions) && n < |actions| && rid in run[n].callers && !run[n].callers[rid].stage.Thrown?
    ensures rid in run[n + 1].callers
    ensures var c, a := run[n].callers[rid], actions[n];
            run[n + 1].callers[rid].stage.Thrown?
            <==> a == CannotSend(rid)
                 || (a.JudgeAckOf? && a.rid == rid && !c.call.acked && (c.call.error != "" || a.timedOut))
                 || (a.JudgeReplyOf? && a.rid == rid && !c.call.replied && (c.call.error != "" || a.timedOut))
    ensures !run[n].callers[rid].stage.Returned? ==>
              (run[n + 1].callers[rid].stage.Returned? <==> actions[n] == Leave(rid))
    ensures run[n + 1].callers[rid].stage.AwaitReply? && run[n].callers[rid].stage.AwaitAck? ==> run[n].callers[rid].call.acked
    ensures run[n + 1].callers[rid].stage.Leaving? && run[n].callers[rid].stage.AwaitReply? ==> run[n].callers[rid].call.replied
  {
    assert Enabled(k, run[n], actions[n]) && run[n + 1] == Step(k, run[n], actions[n]);
    StageStep(k, run[n], actions[n], rid);
  }

  lemma StageStep(k: Config, s: System, a: Action, rid: string)
    requires Enabled(k, s, a) && rid in s.callers && !s.callers[rid].stage.Thrown?
    ensures rid in Step(k, s, a).callers
    ensures var c, c' := s.callers[rid], Step(k, s, a).callers[rid];
            && (c'.stage.Thrown?
                <==> a == CannotSend(rid)
                     || (a.JudgeAckOf? && a.rid == rid && !c.call.acked && (c.call.error != "" || a.timedOut))
                     || (a.JudgeReplyOf? && a.rid == rid && !c.call.replied && (c.call.error != "" || a.timedOut)))
            && (!c.stage.Returned? ==> (c'.stage.Returned? <==> a == Leave(rid)))
            && (c'.stage.AwaitReply? && c.stage.AwaitAck? ==> c.call.acked)
            && (c'.stage.Leaving? && c.stage.AwaitReply? ==> c.call.replied)
  {
  }

  /** A message is looked up only for a pending call of the requester it reached; a sweep empties that
      requester's table and no other, and what it takes out can be failed. */
  lemma OnlyPendingCallsAreReached(k: Config, run: seq<System>, actions: seq<Action>, n: nat, rid: string)
    requires IsRun(k, run, actions) && n < |actions| && rid in run[n].callers
    ensures actions[n].LookUp? && RidOf(k.transport, actions[n].message) == Some(rid) ==>
              rid in run[n].pending && run[n].callers[rid].address == actions[n].address
              && (actions[n].address, actions[n].message) in run[n].answers
              && (rid, actions[n].message) in run[n + 1].looked
    ensures actions[n].Sweep? ==>
              (rid in run[n + 1].pending <==> rid in run[n].pending && run[n].callers[rid].address != actions[n].address)
    ensures actions[n].FailOne? && actions[n].rid == rid ==>
              rid !in run[n].pending && run[n + 1].callers[rid].call
              == run[n].callers[rid].call.(error := if run[n].callers[rid].call.error == "" then actions[n].err
                                                    else run[n].callers[rid].call.error)
  {
    assert Enabled(k, run[n], actions[n]) && run[n + 1] == Step(k, run[n], actions[n]);
  }

  // ----- a call does return -----

  function Extend(k: Config, run: seq<System>, a: Action): seq<System>
    requires |run| > 0 && Enabled(k, run[|run| - 1], a)
  {
    run + [Step(k, run[|run| - 1], a)]
  }

  lemma ExtendRun(k: Config, run: seq<System>, actions: seq<Action>, a: Action)
    requires IsRun(k, run, actions) && Enabled(k, run[|actions|], a)
    ensures IsRun(k, Extend(k, run, a), actions + [a])
  {
  }

  /** The first half of a call: both answers are at the requester, nothing is processed yet. */
  lemma AnswersCanArrive(k: Config, address: string, service: string, rid: string, request: Value)
    returns (run: seq<System>, actions: seq<Action>)
    ensures IsRun(k, run, actions)
    ensures run[|actions|].pending == {rid}
    ensures run[|actions|].callers == map[rid := Caller(address, service, request, NEW_CALL, AwaitAck)]
    ensures (rid, AckMessage(k.transport, rid)) in run[|actions|].looked
    ensures (rid, ReplyMessage(k.transport, rid, k.handler(request))) in run[|actions|].looked
  {
    var question := RequestMessage(k.transport, address, service, rid, request);
    var ack, reply := AckMessage(k.transport, rid), ReplyMessage(k.transport, rid, k.handler(request));
    RequestRoundTrip(k.transport, address, service, rid, request);
    AnswersDoTheirPart(k.transport, k.name, NEW_CALL, rid, k.handler(request));
    run, actions := [EMPTY], [];
    var todo := [Begin(rid, address, service, request), Transmit(rid), Serve(address, question),
                 Respond(Job(address, rid, request)), LookUp(address, ack), LookUp(address, reply)];
    var caller := Caller(address, service, request, NEW_CALL, AwaitAck);
    var i := 0;
    while i < 6
      invariant 0 <= i <= 6 && actions == todo[..i] && IsRun(k, run, actions)
      invariant i > 0 ==> run[i].pending == {rid}
      invariant i > 0 ==> run[i].callers == map[rid := caller]
      invariant i > 1 ==> (address, question) in run[i].requests
      invariant i > 2 ==> Job(address, rid, request) in run[i].jobs && (address, ack) in run[i].answers
      invariant i > 3 ==> (address, reply) in run[i].answers
      invariant i > 4 ==> (rid, ack) in run[i].looked
      invariant i > 5 ==> (rid, reply) in run[i].looked
    {
      ExtendRun(k, run, actions, todo[i]);
      run := Extend(k, run, todo[i]);
      actions := actions + [todo[i]];
      i := i + 1;
    }
  }

  /** The promise is not empty: for every transport, handler and request there is a run in which
      the call returns, with the acknowledgement processed before the reply or after it. */
  lemma ACallCanReturn(k: Config, address: string, service: string, rid: string, request: Value, replyFirst: bool)
    returns (run: seq<System>, actions: seq<Action>)
    ensures IsRun(k, run, actions)
    ensures rid in run[|actions|].callers
    ensures var c := run[|actions|].callers[rid];
            c.request == request && c.stage == Returned(k.handler(request))
  {
    run, actions := AnswersCanArrive(k, address, service, rid, request);
    var ack, reply := AckMessage(k.transport, rid), ReplyMessage(k.transport, rid, k.handler(request));
    AnswersDoTheirPart(k.transport, k.name, NEW_CALL, rid, k.handler(request));
    AnswersDoTheirPart(k.transport, k.name, NEW_CALL.(acked := true), rid, k.handler(request));
    AnswersDoTheirPart(k.transport, k.name, NEW_CALL.(payload := k.handler(request), replied := true), rid, k.handler(request));
    var todo := [Apply(rid, if replyFirst then reply else ack), Apply(rid, if replyFirst then ack else reply),
                 JudgeAckOf(rid, false), JudgeReplyOf(rid, false), Leave(rid)];
    var start := |actions|;
    var i := 0;
    while i < 5
      invariant 0 <= i <= 5 && |actions| == start + i && IsRun(k, run, actions)
      invariant {(rid, ack), (rid, reply)} <= run[|actions|].looked
      invariant rid in run[|actions|].callers && run[|actions|].callers[rid].request == request
      invariant var c := run[|actions|].callers[rid];
                && (i == 0 ==> c.call == NEW_CALL)
                && (i == 1 ==> c.call == Process(k.transport, k.name, NEW_CALL, todo[0].message))
                && (i >= 2 ==> c.call == Call(true, true, k.handler(request), ""))
                && (i <= 2 ==> c.stage == AwaitAck) && (i == 3 ==> c.stage == AwaitReply)
                && (i == 4 ==> c.stage == Leaving) && (i == 5 ==> c.stage == Returned(k.handler(request)))
    {
      ExtendRun(k, run, actions, todo[i]);
      run := Extend(k, run, todo[i]);
      actions := actions + [todo[i]];
      i := i + 1;
    }
  }
}
