/** The responding side of the RPC protocol: requests queued by the transport's thread, and
    handleOnce, which receives one, acknowledges it, handles it and sends the reply. */
module RpcResponder {
  import opened Values
  import opened RpcProtocol

  /** A message as it comes in, with the identity or peer it came from. */
  datatype Incoming = Incoming(from: string, message: Value)

  /** A message as it goes out. */
  datatype Outgoing = Outgoing(to: string, message: Value)

  /** What handling a request comes to; only a schema answers with nothing. */
  datatype Outcome = Answer(response: Value) | Silent | Threw

  /** One request served: the message, and what the environment makes of each step. */
  datatype Serving = Serving(request: Incoming, ackSent: bool, outcome: Outcome, replySent: bool)

  /** What serving it puts on the wire. */
  function Wire(t: Transport, s: Serving): seq<Outgoing> {
    var job := Accept(t, s.request.from, s.request.message);
    if job.None? || !s.ackSent then []
    else
      var ack := Outgoing(job.value.address, AckMessage(t, job.value.rid));
      if s.outcome.Answer? && s.replySent
      then [ack, Outgoing(job.value.address, ReplyMessage(t, job.value.rid, s.outcome.response))]
      else [ack]
  }

  /** Whether handleOnce reports it as handled; otherwise it throws. */
  predicate IsHandled(t: Transport, s: Serving) {
    && Accept(t, s.request.from, s.request.message).Some? && s.ackSent
    && (s.outcome.Silent? || (s.outcome.Answer? && s.replySent))
  }

  datatype Result = Handled | TimedOut | Thrown

  class Responder {
    const transport: Transport
    const hasHandler: bool
    var closed: bool
    var requestsClosed: bool
    var queue: seq<Incoming>
    var sent: seq<Outgoing>

    constructor (t: Transport, handlerOrSchema: bool)
      ensures transport == t && hasHandler == handlerOrSchema
      ensures !closed && !requestsClosed && queue == [] && sent == []
    {
      transport, hasHandler := t, handlerOrSchema;
      closed, requestsClosed, queue, sent := false, false, [], [];
    }

    /** onRequestMessage: dropped once the transport is closed. */
    method OnRequestMessage(request: Incoming)
      modifies this`queue
      ensures queue == if requestsClosed then old(queue) else old(queue) + [request]
    {
      if requestsClosed { return; }
      queue := queue + [request];
    }

    /** transportRecv: the oldest request, acknowledged, or why there is none.  A request that is
        malformed or cannot be acknowledged is consumed all the same. */
    method TransportRecv(ackSent: bool) returns (r: Result, job: Option<Job>)
      modifies this`queue, this`sent
      ensures requestsClosed || old(queue) == [] ==> queue == old(queue) && sent == old(sent) && job == None
      ensures requestsClosed ==> r == Thrown
      ensures !requestsClosed && old(queue) == [] ==> r == TimedOut
      ensures !requestsClosed && old(queue) != [] ==>
                && queue == old(queue)[1..]
                && job == (if ackSent then Accept(transport, old(queue)[0].from, old(queue)[0].message) else None)
                && r == (if job.Some? then Handled else Thrown)
                && sent == (if job.Some?
                            then old(sent) + [Outgoing(job.value.address, AckMessage(transport, job.value.rid))]
                            else old(sent))
    {
      job := None;
      if requestsClosed { return Thrown, None; }
      if queue == [] { return TimedOut, None; }
      var item := queue[0];
      queue := queue[1..];
      var accepted := Accept(transport, item.from, item.message);
      if accepted.None? || !ackSent { return Thrown, None; }
      sent := sent + [Outgoing(accepted.value.address, AckMessage(transport, accepted.value.rid))];
      return Handled, accepted;
    }

    /** transportSend: the reply goes to the context its request came with. */
    method TransportSend(job: Job, response: Value, replySent: bool) returns (ok: bool)
      modifies this`sent
      ensures ok == replySent
      ensures sent == if ok then old(sent) + [Outgoing(job.address, ReplyMessage(transport, job.rid, response))]
                      else old(sent)
    {
      ok := replySent;
      if ok {
        sent := sent + [Outgoing(job.address, ReplyMessage(transport, job.rid, response))];
      }
    }

    /** handleOnce: receive, handle, send.  Without a request in time it reports false. */
    method HandleOnce(ackSent: bool, outcome: Outcome, replySent: bool) returns (r: Result)
      modifies this`queue, this`sent
      ensures closed || !hasHandler || requestsClosed ==> r == Thrown && queue == old(queue) && sent == old(sent)
      ensures !closed && hasHandler && !requestsClosed && old(queue) == [] ==>
                r == TimedOut && queue == [] && sent == old(sent)
      ensures !closed && hasHandler && !requestsClosed && old(queue) != [] ==>
                var s := Serving(old(queue)[0], ackSent, outcome, replySent);
                && queue == old(queue)[1..]
                && sent == old(sent) + Wire(transport, s)
                && r == (if IsHandled(transport, s) then Handled else Thrown)
    {
      if closed || !hasHandler { return Thrown; }
      var received, job := TransportRecv(ackSent);
      if job.None? { return received; }
      match outcome {
        case Threw => return Thrown;
        case Silent => return Handled;
        case Answer(response) =>
          var ok := TransportSend(job.value, response, replySent);
          return if ok then Handled else Thrown;
      }
    }

    /** close: only the first call reaches the transport. */
    method Close()
      modifies this`closed, this`requestsClosed
      ensures closed && requestsClosed == (old(requestsClosed) || !old(closed))
    {
      if closed { return; }
      closed := true;
      requestsClosed := true;
    }
  }

  /** What serving reports follows from what went out: a request counts as handled exactly if its reply
      followed its acknowledgement, or it was acknowledged and wanted none. */
  lemma ReportsExactly(t: Transport, s: Serving)
    ensures |Wire(t, s)| <= 2
    ensures IsHandled(t, s) <==> |Wire(t, s)| == 2 || (|Wire(t, s)| == 1 && s.outcome.Silent?)
    ensures Wire(t, s) == [] <==> !s.ackSent || Accept(t, s.request.from, s.request.message).None?
    ensures |Wire(t, s)| == 2 ==> s.outcome.Answer? && s.replySent
  {
  }

  // ----- what a responder has sent, over any number of requests -----

  function Log(t: Transport, servings: seq<Serving>): seq<Outgoing> {
    if servings == [] then [] else Log(t, servings[..|servings| - 1]) + Wire(t, servings[|servings| - 1])
  }

  predicate IsRequestFor(t: Transport, s: Serving, address: string, rid: string) {
    var job := Accept(t, s.request.from, s.request.message);
    job.Some? && job.value.address == address && job.value.rid == rid
  }

  predicate IsReplyTo(t: Transport, o: Outgoing, address: string, rid: string) {
    o.to == address && RidOf(t, o.message) == Some(rid) && "payload" in o.message.fields
  }

  predicate IsAckTo(t: Transport, o: Outgoing, address: string, rid: string) {
    o == Outgoing(address, AckMessage(t, rid))
  }

  function Replies(t: Transport, log: seq<Outgoing>, address: string, rid: string): nat {
    if log == [] then 0
    else Replies(t, log[..|log| - 1], address, rid) + One(IsReplyTo(t, log[|log| - 1], address, rid))
  }

  function Acks(t: Transport, log: seq<Outgoing>, address: string, rid: string): nat {
    if log == [] then 0
    else Acks(t, log[..|log| - 1], address, rid) + One(IsAckTo(t, log[|log| - 1], address, rid))
  }

  function Requests(t: Transport, servings: seq<Serving>, address: string, rid: string): nat {
    if servings == [] then 0
    else Requests(t, servings[..|servings| - 1], address, rid)
         + One(IsRequestFor(t, servings[|servings| - 1], address, rid))
  }

  lemma {:induction false} CountsAdd(t: Transport, a: seq<Outgoing>, b: seq<Outgoing>, address: string, rid: string)
    ensures Replies(t, a + b, address, rid) == Replies(t, a, address, rid) + Replies(t, b, address, rid)
    ensures Acks(t, a + b, address, rid) == Acks(t, a, address, rid) + Acks(t, b, address, rid)
  {
    if b == [] {
      assert a + b == a;
    } else {
      CountsAdd(t, a, b[..|b| - 1], address, rid);
      assert (a + b)[..|a + b| - 1] == a + b[..|b| - 1];
    }
  }

  /** Serving one request acknowledges it at most once, replies at most once and only after the
      acknowledgement, and says nothing to anybody else. */
  lemma WireCounts(t: Transport, s: Serving, address: string, rid: string)
    ensures Replies(t, Wire(t, s), address, rid) <= Acks(t, Wire(t, s), address, rid)
            <= One(IsRequestFor(t, s, address, rid))
  {
    var accepted := Accept(t, s.request.from, s.request.message);
    if accepted.Some? && s.ackSent {
      var job := accepted.value;
      var ack := Outgoing(job.address, AckMessage(t, job.rid));
      AckCounts(t, job, address, rid);
      if s.outcome.Answer? && s.replySent {
        var reply := Outgoing(job.address, ReplyMessage(t, job.rid, s.outcome.response));
        ReplyCounts(t, job, s.outcome.response, address, rid);
        CountsAdd(t, [ack], [reply], address, rid);
        assert Wire(t, s) == [ack] + [reply];
      } else {
        assert Wire(t, s) == [ack];
      }
    } else {
      assert Wire(t, s) == [];
    }
  }

  lemma AckCounts(t: Transport, job: Job, address: string, rid: string)
    ensures var log := [Outgoing(job.address, AckMessage(t, job.rid))];
            && Replies(t, log, address, rid) == 0
            && Acks(t, log, address, rid) == One(job.address == address && job.rid == rid)
  {
    OneMessage(t, Outgoing(job.address, AckMessage(t, job.rid)), address, rid);
    AckIsNoReply(t, job, address, rid);
  }

  lemma ReplyCounts(t: Transport, job: Job, response: Value, address: string, rid: string)
    ensures var log := [Outgoing(job.address, ReplyMessage(t, job.rid, response))];
            && Replies(t, log, address, rid) == One(job.address == address && job.rid == rid)
            && Acks(t, log, address, rid) == 0
  {
    OneMessage(t, Outgoing(job.address, ReplyMessage(t, job.rid, response)), address, rid);
    ReplyIsNoAck(t, job, response, address, rid);
  }

  lemma OneMessage(t: Transport, o: Outgoing, address: string, rid: string)
    ensures Replies(t, [o], address, rid) == One(IsReplyTo(t, o, address, rid))
    ensures Acks(t, [o], address, rid) == One(IsAckTo(t, o, address, rid))
  {
    assert [o][..0] == [];
  }

  lemma AckIsNoReply(t: Transport, job: Job, address: string, rid: string)
    ensures var ack := Outgoing(job.address, AckMessage(t, job.rid));
            !IsReplyTo(t, ack, address, rid) && (IsAckTo(t, ack, address, rid) <==> job.address == address && job.rid == rid)
  {
    assert "payload"[0] == 'p' && "rid"[0] == 'r' && "ack"[0] == 'a' && "type"[0] == 't';
    assert AckMessage(t, job.rid).fields["rid"] == Str(job.rid) && AckMessage(t, rid).fields["rid"] == Str(rid);
  }

  lemma ReplyIsNoAck(t: Transport, job: Job, response: Value, address: string, rid: string)
    ensures var reply := Outgoing(job.address, ReplyMessage(t, job.rid, response));
            !IsAckTo(t, reply, address, rid)
            && (IsReplyTo(t, reply, address, rid) <==> job.address == address && job.rid == rid)
  {
    assert "payload" in ReplyMessage(t, job.rid, response).fields;
    assert "payload"[0] == 'p' && "rid"[0] == 'r' && "ack"[0] == 'a' && "type"[0] == 't';
    assert "payload" !in AckMessage(t, rid).fields;
    AnswersDoTheirPart(t, "", NEW_CALL, job.rid, response);
  }

  /** Over any sequence of requests, with any failures: a caller gets no more replies for a rid than
      acknowledgements, and no more of these than the requests it sent with it. */
  lemma {:induction false} AnswersNeverExceedRequests(t: Transport, servings: seq<Serving>, address: string, rid: string)
    ensures Replies(t, Log(t, servings), address, rid) <= Acks(t, Log(t, servings), address, rid)
            <= Requests(t, servings, address, rid)
  {
    if servings != [] {
      var init, last := servings[..|servings| - 1], servings[|servings| - 1];
      AnswersNeverExceedRequests(t, init, address, rid);
      WireCounts(t, last, address, rid);
      CountsAdd(t, Log(t, init), Wire(t, last), address, rid);
    }
  }

  /** A request that was handled with an answer has its reply, carrying that answer, right behind
      its acknowledgement and to the same place. */
  lemma {:induction false} AnswerFollowsAck(t: Transport, servings: seq<Serving>, k: nat)
    requires k < |servings| && IsHandled(t, servings[k]) && servings[k].outcome.Answer?
    ensures var log := Log(t, servings);
            var job := Accept(t, servings[k].request.from, servings[k].request.message).value;
            exists i :: 0 <= i < |log| - 1
              && log[i] == Outgoing(job.address, AckMessage(t, job.rid))
              && log[i + 1] == Outgoing(job.address, ReplyMessage(t, job.rid, servings[k].outcome.response))
  {
    var init, last := servings[..|servings| - 1], servings[|servings| - 1];
    if k < |init| {
      AnswerFollowsAck(t, init, k);
      var job := Accept(t, servings[k].request.from, servings[k].request.message).value;
      var i :| 0 <= i < |Log(t, init)| - 1
        && Log(t, init)[i] == Outgoing(job.address, AckMessage(t, job.rid))
        && Log(t, init)[i + 1] == Outgoing(job.address, ReplyMessage(t, job.rid, servings[k].outcome.response));
      assert Log(t, servings)[i] == Log(t, init)[i] && Log(t, servings)[i + 1] == Log(t, init)[i + 1];
    } else {
      var i := |Log(t, init)|;
      assert Log(t, servings)[i] == Wire(t, last)[0] && Log(t, servings)[i + 1] == Wire(t, last)[1];
    }
  }
}
