/** The requesting side as the object it is: the table of pending calls that callers fill, the
    I/O thread updates and the shutdown sweeps. */
module RpcRequester {
  import opened Values
  import opened RpcProtocol

  class PendingCall {
    var acked: bool
    var replied: bool
    var replyPayload: Value
    var errorMsg: string

    constructor ()
      ensures State() == NEW_CALL
    {
      acked, replied, replyPayload, errorMsg := false, false, Null, "";
    }

    ghost function State(): Call
      reads this
    {
      Call(acked, replied, replyPayload, errorMsg)
    }

    method Fail(err: string)
      modifies this`errorMsg
      ensures State() == Failed(old(State()), err)
    {
      if errorMsg == "" {
        errorMsg := err;
      }
    }
  }

  /** The state of a call after a run of messages, those about other calls having no effect. */
  function ProcessAll(t: Transport, name: string, rid: string, c: Call, messages: seq<Value>): Call {
    if messages == [] then c
    else
      var before := ProcessAll(t, name, rid, c, messages[..|messages| - 1]);
      var last := messages[|messages| - 1];
      if RidOf(t, last) == Some(rid) then Process(t, name, before, last) else before
  }

  /** Once acknowledged or replied, a call stays so, whatever follows. */
  lemma {:induction false} ProcessAllIsMonotone(t: Transport, name: string, rid: string, c: Call, messages: seq<Value>)
    ensures var c' := ProcessAll(t, name, rid, c, messages);
            (c.acked ==> c'.acked) && (c.replied ==> c'.replied) && (c.error != "" ==> c'.error != "")
  {
    if messages != [] {
      ProcessAllIsMonotone(t, name, rid, c, messages[..|messages| - 1]);
      if RidOf(t, messages[|messages| - 1]) == Some(rid) {
        ProcessIsMonotone(t, name, ProcessAll(t, name, rid, c, messages[..|messages| - 1]), messages[|messages| - 1]);
      }
    }
  }

  // ----- what happens to a call while its caller sleeps -----

  /** A message arrives, a sweep fails the pending calls, another caller registers or leaves. */
  datatype Event = Message(message: Value) | Sweep(err: string) | Registers(rid: string) | Leaves(rid: string)

  /** A call, and whether it is still in the table; messages reach it only there. */
  datatype Filed = Filed(call: Call, inTable: bool)

  function Happened(t: Transport, name: string, rid: string, f: Filed, e: Event): Filed {
    match e
    case Message(m) =>
      if f.inTable && RidOf(t, m) == Some(rid) then f.(call := Process(t, name, f.call, m)) else f
    case Sweep(err) => if f.inTable then Filed(Failed(f.call, err), false) else f
    case Registers(_) => f
    case Leaves(_) => f
  }

  function AfterEvents(t: Transport, name: string, rid: string, f: Filed, events: seq<Event>): Filed {
    if events == [] then f
    else Happened(t, name, rid, AfterEvents(t, name, rid, f, events[..|events| - 1]), events[|events| - 1])
  }

  /** The rids in the table besides the caller's own. */
  function OthersStep(others: set<string>, rid: string, e: Event): set<string> {
    match e
    case Message(_) => others
    case Sweep(_) => {}
    case Registers(r) => others + {r} - {rid}
    case Leaves(r) => others - {r}
  }

  function OthersAfter(others: set<string>, rid: string, events: seq<Event>): set<string> {
    if events == [] then others
    else OthersStep(OthersAfter(others, rid, events[..|events| - 1]), rid, events[|events| - 1])
  }

  /** Those that were in the table all along. */
  function StayingStep(staying: set<string>, e: Event): set<string> {
    if e.Sweep? then {} else if e.Leaves? then staying - {e.rid} else staying
  }

  function StayingAfter(others: set<string>, events: seq<Event>): set<string> {
    if events == [] then others
    else StayingStep(StayingAfter(others, events[..|events| - 1]), events[|events| - 1])
  }

  lemma {:induction false} EventsConcat(others: set<string>, rid: string, a: seq<Event>, b: seq<Event>)
    ensures OthersAfter(others, rid, a + b) == OthersAfter(OthersAfter(others, rid, a), rid, b)
    ensures StayingAfter(others, a + b) == StayingAfter(StayingAfter(others, a), b)
  {
    if b == [] {
      assert a + b == a;
    } else {
      assert (a + b)[..|a + b| - 1] == a + b[..|b| - 1];
      EventsConcat(others, rid, a, b[..|b| - 1]);
    }
  }

  lemma {:induction false} StayingGrows(small: set<string>, large: set<string>, events: seq<Event>)
    requires small <= large
    ensures StayingAfter(small, events) <= StayingAfter(large, events)
  {
    if events != [] {
      StayingGrows(small, large, events[..|events| - 1]);
    }
  }

  lemma {:induction false} StayingWereThere(others: set<string>, events: seq<Event>)
    ensures StayingAfter(others, events) <= others
  {
    if events != [] {
      StayingWereThere(others, events[..|events| - 1]);
    }
  }

  /** What a call goes through: nothing when it is refused or cannot be sent, its first wait, and its
      second when an acknowledgement ended the first. */
  function Lived(t: Transport, name: string, rid: string, refused: bool,
                 untilAck: seq<Event>, untilReply: seq<Event>): seq<Event> {
    if refused then []
    else if AfterEvents(t, name, rid, Filed(NEW_CALL, true), untilAck).call.acked then untilAck + untilReply
    else untilAck
  }

  /** The messages that come before the first sweep. */
  function MessagesOf(events: seq<Event>): seq<Value> {
    if events == [] then []
    else
      var init, last := events[..|events| - 1], events[|events| - 1];
      if last.Message? && Unswept(init) then MessagesOf(init) + [last.message] else MessagesOf(init)
  }

  predicate Unswept(events: seq<Event>) {
    forall e | e in events :: !e.Sweep?
  }

  function FirstSweep(events: seq<Event>): string
    requires !Unswept(events)
  {
    if Unswept(events[..|events| - 1]) then events[|events| - 1].err else FirstSweep(events[..|events| - 1])
  }

  lemma LastSweeps(events: seq<Event>)
    requires events != []
    ensures Unswept(events) <==> Unswept(events[..|events| - 1]) && !events[|events| - 1].Sweep?
  {
    var init, last := events[..|events| - 1], events[|events| - 1];
    assert events == init + [last];
  }

  /** Other callers make no difference, and after the first sweep nothing does: a call has seen the
      messages before it, and then its error if there was none. */
  lemma {:induction false} OnlyTheFirstSweepCounts(t: Transport, name: string, rid: string, c: Call, events: seq<Event>)
    ensures var seen := ProcessAll(t, name, rid, c, MessagesOf(events));
            AfterEvents(t, name, rid, Filed(c, true), events)
            == if Unswept(events) then Filed(seen, true) else Filed(Failed(seen, FirstSweep(events)), false)
  {
    if events != [] {
      var init, last := events[..|events| - 1], events[|events| - 1];
      OnlyTheFirstSweepCounts(t, name, rid, c, init);
      LastSweeps(events);
      if last.Message? && Unswept(init) {
        assert MessagesOf(events)[..|MessagesOf(events)| - 1] == MessagesOf(init);
      }
    }
  }

  ghost predicate SomeAcknowledges(t: Transport, rid: string, messages: seq<Value>) {
    exists m :: m in messages && RidOf(t, m) == Some(rid) && Acknowledges(t, m.fields)
  }

  ghost predicate SomeAnswers(t: Transport, rid: string, messages: seq<Value>) {
    exists m :: m in messages && RidOf(t, m) == Some(rid) && Answers(t, m.fields)
  }

  /** Whatever the messages are: a call is acknowledged or replied exactly if it was or one of those with
      its rid does it. */
  lemma {:induction false} ProcessedExactly(t: Transport, name: string, rid: string, c: Call, messages: seq<Value>)
    ensures ProcessAll(t, name, rid, c, messages).acked <==> c.acked || SomeAcknowledges(t, rid, messages)
    ensures ProcessAll(t, name, rid, c, messages).replied <==> c.replied || SomeAnswers(t, rid, messages)
  {
    if messages != [] {
      var init, last := messages[..|messages| - 1], messages[|messages| - 1];
      assert messages == init + [last];
      ProcessedExactly(t, name, rid, c, init);
      if RidOf(t, last) == Some(rid) {
        ProcessExactly(t, name, ProcessAll(t, name, rid, c, init), last);
      }
    }
  }

  /** A refused call sees nothing; another its first wait, and its second exactly when an acknowledgement
      came in the first before any sweep. */
  lemma LivedExactly(t: Transport, name: string, rid: string, untilAck: seq<Event>, untilReply: seq<Event>)
    ensures Lived(t, name, rid, true, untilAck, untilReply) == []
    ensures Lived(t, name, rid, false, untilAck, untilReply)
            == if SomeAcknowledges(t, rid, MessagesOf(untilAck)) then untilAck + untilReply else untilAck
  {
    OnlyTheFirstSweepCounts(t, name, rid, NEW_CALL, untilAck);
    ProcessedExactly(t, name, rid, NEW_CALL, MessagesOf(untilAck));
  }

  predicate IsAboutTable(e: Event, r: string) {
    e.Sweep? || e == Registers(r) || e == Leaves(r)
  }

  /** Another call is in the table exactly if the last event about it is its registration, or it was there
      and there is none: from the `i`-th event on none is about it. */
  lemma {:induction false} OthersExactly(others: set<string>, rid: string, events: seq<Event>, r: string, i: nat)
    requires r != rid && i <= |events| && forall j | i <= j < |events| :: !IsAboutTable(events[j], r)
    ensures i == 0 ==> (r in OthersAfter(others, rid, events) <==> r in others)
    ensures i > 0 && IsAboutTable(events[i - 1], r) ==> (r in OthersAfter(others, rid, events) <==> events[i - 1] == Registers(r))
  {
    if i < |events| {
      assert !IsAboutTable(events[|events| - 1], r);
      OthersExactly(others, rid, events[..|events| - 1], r, i);
    }
  }

  /** It was there all along exactly if it was there and was neither swept nor left. */
  lemma {:induction false} StayingExactly(others: set<string>, events: seq<Event>, r: string)
    ensures r in StayingAfter(others, events) <==> r in others && forall e | e in events :: !e.Sweep? && e != Leaves(r)
  {
    if events != [] {
      var init, last := events[..|events| - 1], events[|events| - 1];
      assert events == init + [last];
      StayingExactly(others, init, r);
    }
  }

  /** No call is filed under two rids. */
  ghost predicate OnePerRid(calls: map<string, PendingCall>) {
    forall r, r' :: r in calls && r' in calls && r != r' ==> calls[r] != calls[r']
  }

  method FailEach(calls: map<string, PendingCall>, err: string)
    requires OnePerRid(calls)
    modifies set r | r in calls :: calls[r]
    ensures forall r :: r in calls ==> calls[r].State() == Failed(old(calls[r].State()), err)
  {
    var todo := calls.Keys;
    while todo != {}
      invariant todo <= calls.Keys
      invariant forall r :: r in calls ==>
                  calls[r].State() == if r in todo then old(calls[r].State()) else Failed(old(calls[r].State()), err)
      decreases todo
    {
      var r :| r in todo;
      todo := todo - {r};
      calls[r].Fail(err);
    }
  }

  class Requester {
    const transport: Transport
    const name: string
    var closing: bool
    var pending: map<string, PendingCall>

    /** Over WebRTC the connection keeps a reply callback for each pending call. */
    var replyCallbacks: set<string>

    constructor (transport: Transport, name: string)
      ensures this.transport == transport && this.name == name
      ensures Valid() && pending == map[] && !closing
    {
      this.transport, this.name := transport, name;
      closing, pending, replyCallbacks := false, map[], {};
    }

    ghost function Calls(): set<PendingCall>
      reads this`pending
    {
      set r | r in pending :: pending[r]
    }

    /** The two tables are in step. */
    ghost predicate Valid()
      reads this
    {
      && OnePerRid(pending)
      && replyCallbacks == (if transport.WebRtc? then pending.Keys else {})
    }

    /** Files a new call before its request is sent. */
    method Register(rid: string) returns (call: PendingCall)
      requires Valid() && rid !in pending
      modifies this`pending, this`replyCallbacks
      ensures Valid() && fresh(call) && call.State() == NEW_CALL
      ensures pending == old(pending)[rid := call]
    {
      call := new PendingCall();
      pending := pending[rid := call];
      if transport.WebRtc? {
        replyCallbacks := replyCallbacks + {rid};
      }
    }

    method Forget(rid: string)
      requires Valid()
      modifies this`pending, this`replyCallbacks
      ensures Valid() && pending == Omit(old(pending), rid)
    {
      pending := Omit(pending, rid);
      if transport.WebRtc? {
        replyCallbacks := replyCallbacks - {rid};
      }
    }

    /** One incoming message: it changes the call it is about, if that is still pending, and
        nothing else. */
    method OnMessage(message: Value)
      requires Valid()
      modifies Calls()
      ensures forall r :: r in pending ==>
                pending[r].State() == if RidOf(transport, message) == Some(r)
                                      then Process(transport, name, old(pending[r].State()), message)
                                      else old(pending[r].State())
    {
      if RidOf(transport, message).None? || RidOf(transport, message).value !in pending {
        return;
      }
      var d := message.fields;
      var call := pending[RidOf(transport, message).value];
      if transport.WebRtc? {
        if d["type"].text == "rpc_ack" {
          call.acked := true;
        } else if d["type"].text == "rpc_rep" {
          if "payload" in d {
            call.replyPayload := d["payload"];
          } else {
            call.errorMsg := name + ": rpc_rep missing payload";
          }
          call.replied := true;
        }
      } else if "ack" in d {
        var ok := d["ack"].Bool? && d["ack"].flag;
        if !ok {
          call.errorMsg := name + ": invalid ack received";
        } else {
          call.acked := true;
        }
      } else if "payload" in d {
        call.replyPayload := d["payload"];
        call.replied := true;
      } else {
        call.errorMsg := name + ": invalid reply received";
      }
    }

    /** Takes every pending call out of the table and gives each that has no error this one. */
    method FailAllPending(err: string)
      requires Valid()
      modifies this`pending, this`replyCallbacks, Calls()
      ensures Valid() && pending == map[]
      ensures forall r :: r in old(pending) ==> old(pending)[r].State() == Failed(old(pending[r].State()), err)
    {
      var local := pending;
      pending := map[];
      if transport.WebRtc? {
        RemoveCallbacks(local.Keys);
      }
      FailEach(local, err);
    }

    method RemoveCallbacks(rids: set<string>)
      modifies this`replyCallbacks
      ensures replyCallbacks == old(replyCallbacks) - rids
    {
      var todo := rids;
      while todo != {}
        invariant todo <= rids && replyCallbacks == old(replyCallbacks) - (rids - todo)
        decreases todo
      {
        var r :| r in todo;
        replyCallbacks := replyCallbacks - {r};
        todo := todo - {r};
      }
    }

    method TransportClose()
      requires Valid()
      modifies this, Calls()
      ensures Valid() && closing && pending == map[]
      ensures forall r :: r in old(pending) ==>
                old(pending)[r].State() == Failed(old(pending[r].State()), name + ": transport closed")
    {
      closing := true;
      FailAllPending(name + ": transport closed");
    }

    ghost function StateOf(rid: string, call: PendingCall): Filed
      reads this`pending, call
    {
      Filed(call.State(), rid in pending)
    }

    /** The call is in the table under its own rid or not at all. */
    ghost predicate Follows(rid: string, call: PendingCall)
      reads this`pending
    {
      forall r | r in pending :: pending[r] == call <==> r == rid
    }

    /** One event while the caller of `rid` sleeps. */
    method Happen(rid: string, call: PendingCall, e: Event)
      requires Valid() && Follows(rid, call)
      modifies this`pending, this`replyCallbacks, Calls()
      ensures Valid() && Follows(rid, call)
      ensures StateOf(rid, call) == Happened(transport, name, rid, old(StateOf(rid, call)), e)
      ensures pending.Keys - {rid} == OthersStep(old(pending.Keys) - {rid}, rid, e)
      ensures forall r | r in pending :: fresh(pending[r]) || (r in old(pending) && pending[r] == old(pending)[r])
      ensures Stay(old(pending), pending, StayingStep(old(pending.Keys) - {rid}, e))
    {
      match e {
        case Message(m) => OnMessage(m);
        case Sweep(err) => FailAllPending(err);
        case Registers(r) =>
          if r != rid && r !in pending {
            var other := Register(r);
          }
        case Leaves(r) =>
          if r != rid {
            Forget(r);
          }
      }
    }

    /** What goes on while a caller sleeps. */
    method Sleep(rid: string, call: PendingCall, events: seq<Event>)
      requires Valid() && Follows(rid, call)
      modifies this`pending, this`replyCallbacks, Calls()
      ensures Valid() && Follows(rid, call)
      ensures StateOf(rid, call) == AfterEvents(transport, name, rid, old(StateOf(rid, call)), events)
      ensures pending.Keys - {rid} == OthersAfter(old(pending.Keys) - {rid}, rid, events)
      ensures forall r | r in pending :: fresh(pending[r]) || (r in old(pending) && pending[r] == old(pending)[r])
      ensures Stay(old(pending), pending, StayingAfter(old(pending.Keys) - {rid}, events))
    {
      var i := 0;
      while i < |events|
        invariant i <= |events| && Valid() && Follows(rid, call)
        invariant StateOf(rid, call) == AfterEvents(transport, name, rid, old(StateOf(rid, call)), events[..i])
        invariant pending.Keys - {rid} == OthersAfter(old(pending.Keys) - {rid}, rid, events[..i])
        invariant forall r | r in pending :: fresh(pending[r]) || (r in old(pending) && pending[r] == old(pending)[r])
        invariant Stay(old(pending), pending, StayingAfter(old(pending.Keys) - {rid}, events[..i]))
      {
        assert events[..i + 1][..i] == events[..i];
        Happen(rid, call, events[i]);
        i := i + 1;
      }
      assert events[..|events|] == events;
    }

    /** The two waits of a registered call. */
    method WaitTwice(rid: string, call: PendingCall, untilAck: seq<Event>, untilReply: seq<Event>)
      returns (outcome: Verdict, payload: Value)
      requires Valid() && Follows(rid, call) && StateOf(rid, call) == Filed(NEW_CALL, true)
      modifies this`pending, this`replyCallbacks, Calls()
      ensures Valid()
      ensures var f1 := AfterEvents(transport, name, rid, Filed(NEW_CALL, true), untilAck);
              var f2 := AfterEvents(transport, name, rid, f1, untilReply);
              if !JudgeAck(f1.call, true).Proceed? then outcome == JudgeAck(f1.call, true)
              else outcome == JudgeReply(f2.call, true) && (outcome.Proceed? ==> payload == f2.call.payload)
      ensures var others, lived := old(pending.Keys) - {rid}, Lived(transport, name, rid, false, untilAck, untilReply);
              && pending.Keys - {rid} == OthersAfter(others, rid, lived)
              && Stay(old(pending), pending, StayingAfter(others, lived))
    {
      payload := Null;
      Sleep(rid, call, untilAck);
      if !call.acked {
        outcome := if call.errorMsg != "" then Throw(call.errorMsg) else TimeOut;
        return;
      }
      ghost var first := pending;
      Sleep(rid, call, untilReply);
      StayedForBoth(old(pending), first, pending, rid, untilAck, untilReply);
      if !call.replied {
        outcome := if call.errorMsg != "" then Throw(call.errorMsg) else TimeOut;
        return;
      }
      outcome := Proceed;
      payload := call.replyPayload;
    }

    /** One call from registration to its end.  `sendFailure` is the error of a send that failed;
        `untilAck` and `untilReply` are what happens up to the look that ends each of its two waits,
        earlier looks having found nothing; a wait in which nothing decisive came ends by time-out.
        Whatever happens, the call is in the table no more, and the others are as those events left
        them. */
    method TransportCall(rid: string, sendFailure: Option<string>, untilAck: seq<Event>, untilReply: seq<Event>)
      returns (outcome: Verdict, payload: Value)
      requires Valid() && rid !in pending
      modifies this`pending, this`replyCallbacks, Calls()
      ensures Valid() && rid !in pending
      ensures var f1 := AfterEvents(transport, name, rid, Filed(NEW_CALL, true), untilAck);
              var f2 := AfterEvents(transport, name, rid, f1, untilReply);
              if closing then outcome == Throw(name + ": transport is closed")
              else if sendFailure.Some? then outcome == Throw(sendFailure.value)
              else if !JudgeAck(f1.call, true).Proceed? then outcome == JudgeAck(f1.call, true)
              else outcome == JudgeReply(f2.call, true) && (outcome.Proceed? ==> payload == f2.call.payload)
      ensures var lived := Lived(transport, name, rid, closing || sendFailure.Some?, untilAck, untilReply);
              && pending.Keys == OthersAfter(old(pending.Keys), rid, lived)
              && Stay(old(pending), pending, StayingAfter(old(pending.Keys), lived))
    {
      if closing {
        outcome, payload := Throw(name + ": transport is closed"), Null;
        return;
      }
      var call := Register(rid);
      assert pending.Keys - {rid} == old(pending.Keys);
      if sendFailure.Some? {
        Forget(rid);
        outcome, payload := Throw(sendFailure.value), Null;
        return;
      }
      outcome, payload := WaitTwice(rid, call, untilAck, untilReply);
      StayingWereThere(old(pending.Keys), Lived(transport, name, rid, closing, untilAck, untilReply));
      Forget(rid);
    }
  }

  lemma StayedForBoth(before: map<string, PendingCall>, first: map<string, PendingCall>, second: map<string, PendingCall>,
                      rid: string, a: seq<Event>, b: seq<Event>)
    requires Stay(before, first, StayingAfter(before.Keys - {rid}, a))
    requires Stay(first, second, StayingAfter(first.Keys - {rid}, b))
    ensures Stay(before, second, StayingAfter(before.Keys - {rid}, a + b))
    ensures forall others :: OthersAfter(others, rid, a + b) == OthersAfter(OthersAfter(others, rid, a), rid, b)
  {
    var others := before.Keys - {rid};
    var staying := StayingAfter(others, a);
    forall others ensures OthersAfter(others, rid, a + b) == OthersAfter(OthersAfter(others, rid, a), rid, b) {
      EventsConcat(others, rid, a, b);
    }
    EventsConcat(others, rid, a, b);
    StayingWereThere(others, a);
    StayingWereThere(staying, b);
    StayingGrows(staying, first.Keys - {rid}, b);
  }

  /** Calls named by these rids are the same objects in both tables. */
  ghost predicate Stay(before: map<string, PendingCall>, after: map<string, PendingCall>, rids: set<string>) {
    forall r | r in rids :: r in before && r in after && after[r] == before[r]
  }

  /** What a call that is not done ends with: the error of the first sweep, or its time-out. */
  function Undone(events: seq<Event>): Verdict {
    if Unswept(events) || FirstSweep(events) == "" then TimeOut else Throw(FirstSweep(events))
  }

  /** With a genuine responder a call returns the response exactly when an acknowledgement came
      during the first wait and a reply by the end of the second, each before any sweep; else it
      throws the sweep's error or times out.  Other calls, their messages, and repetitions make no
      difference. */
  lemma GenuineAnswersDecide(t: Transport, name: string, rid: string, response: Value, untilAck: seq<Event>, untilReply: seq<Event>)
    requires forall m | m in MessagesOf(untilAck) + MessagesOf(untilAck + untilReply) ::
               RidOf(t, m) == Some(rid) ==> m == AckMessage(t, rid) || m == ReplyMessage(t, rid, response)
    ensures var c1 := AfterEvents(t, name, rid, Filed(NEW_CALL, true), untilAck);
            var c2 := AfterEvents(t, name, rid, c1, untilReply).call;
            && JudgeAck(c1.call, true) == (if AckMessage(t, rid) in MessagesOf(untilAck) then Proceed else Undone(untilAck))
            && JudgeReply(c2, true) == (if ReplyMessage(t, rid, response) in MessagesOf(untilAck + untilReply) then Proceed
                                        else Undone(untilAck + untilReply))
            && (JudgeReply(c2, true).Proceed? ==> c2.payload == response)
  {
    AfterEventsConcat(t, name, rid, Filed(NEW_CALL, true), untilAck, untilReply);
    OnlyTheFirstSweepCounts(t, name, rid, NEW_CALL, untilAck);
    OnlyTheFirstSweepCounts(t, name, rid, NEW_CALL, untilAck + untilReply);
    GenuineState(t, name, rid, response, MessagesOf(untilAck));
    GenuineState(t, name, rid, response, MessagesOf(untilAck + untilReply));
  }

  lemma {:induction false} AfterEventsConcat(t: Transport, name: string, rid: string, f: Filed, a: seq<Event>, b: seq<Event>)
    ensures AfterEvents(t, name, rid, f, a + b) == AfterEvents(t, name, rid, AfterEvents(t, name, rid, f, a), b)
  {
    if b == [] {
      assert a + b == a;
    } else {
      assert (a + b)[..|a + b| - 1] == a + b[..|b| - 1];
      AfterEventsConcat(t, name, rid, f, a, b[..|b| - 1]);
    }
  }

  lemma {:induction false} GenuineState(t: Transport, name: string, rid: string, response: Value, messages: seq<Value>)
    requires forall m | m in messages ::
               RidOf(t, m) == Some(rid) ==> m == AckMessage(t, rid) || m == ReplyMessage(t, rid, response)
    ensures var replied := ReplyMessage(t, rid, response) in messages;
            ProcessAll(t, name, rid, NEW_CALL, messages)
            == Call(AckMessage(t, rid) in messages, replied, if replied then response else Null, "")
  {
    if messages != [] {
      var before, last := messages[..|messages| - 1], messages[|messages| - 1];
      assert messages == before + [last];
      GenuineState(t, name, rid, response, before);
      AnswersDoTheirPart(t, name, ProcessAll(t, name, rid, NEW_CALL, before), rid, response);
      AckIsNoReply(t, rid, response);
    }
  }

  lemma AckIsNoReply(t: Transport, rid: string, response: Value)
    ensures AckMessage(t, rid) != ReplyMessage(t, rid, response)
  {
    assert "payload" in ReplyMessage(t, rid, response).fields;
    assert "payload" !in AckMessage(t, rid).fields;
  }
}
