/** The request, acknowledgement and reply messages of the three RPC transports, and what the
    requesting side makes of them. */
module RpcProtocol {
  import opened Values

  datatype Transport = Zmq | Mqtt | WebRtc

  // ----- messages -----

  /** What transportCall sends: MQTT names its reply topic, WebRTC the message type and service. */
  function RequestMessage(t: Transport, address: string, service: string, rid: string, request: Value): Value {
    match t
    case Zmq => Dict(map["rid" := Str(rid), "payload" := request])
    case Mqtt => Dict(map["rid" := Str(rid), "reply_to" := Str(address), "payload" := request])
    case WebRtc => Dict(map["type" := Str("rpc_req"), "service" := Str(service), "rid" := Str(rid), "payload" := request])
  }

  function AckMessage(t: Transport, rid: string): Value {
    if t.WebRtc? then Dict(map["type" := Str("rpc_ack"), "rid" := Str(rid)])
    else Dict(map["rid" := Str(rid), "ack" := Bool(true)])
  }

  function ReplyMessage(t: Transport, rid: string, response: Value): Value {
    if t.WebRtc? then Dict(map["type" := Str("rpc_rep"), "rid" := Str(rid), "payload" := response])
    else Dict(map["rid" := Str(rid), "payload" := response])
  }

  /** A request as the responder holds it: where the answers go, the rid and the payload. */
  datatype Job = Job(address: string, rid: string, payload: Value)

  /** transportRecv's validation.  ZMQ answers the identity frame the request came with, MQTT
      the reply topic inside it, WebRTC the peer it came from. */
  function Accept(t: Transport, from: string, message: Value): Option<Job> {
    if !message.Dict? then None
    else
      var d := message.fields;
      if StringField(d, "rid").None? || "payload" !in d then None
      else if t.Mqtt? then
        if StringField(d, "reply_to").None? then None
        else Some(Job(d["reply_to"].text, d["rid"].text, d["payload"]))
      else Some(Job(from, d["rid"].text, d["payload"]))
  }

  // ----- the pending call -----

  datatype Call = Call(acked: bool, replied: bool, payload: Value, error: string)

  const NEW_CALL := Call(false, false, Null, "")

  /** The rid a message to the requester is about, when it is one the requester looks at. */
  function RidOf(t: Transport, message: Value): Option<string> {
    if !message.Dict? then None
    else if t.WebRtc? && StringField(message.fields, "type").None? then None
    else StringField(message.fields, "rid")
  }

  /** What one message does to the call it is about; `name` starts the error texts. */
  function Process(t: Transport, name: string, c: Call, message: Value): Call
    requires RidOf(t, message).Some?
  {
    var d := message.fields;
    if t.WebRtc? then
      if d["type"].text == "rpc_ack" then c.(acked := true)
      else if d["type"].text == "rpc_rep" then
        if "payload" in d then c.(payload := d["payload"], replied := true)
        else c.(error := name + ": rpc_rep missing payload", replied := true)
      else c
    else if "ack" in d then
      if d["ack"] == Bool(true) then c.(acked := true)
      else c.(error := name + ": invalid ack received")
    else if "payload" in d then c.(payload := d["payload"], replied := true)
    else c.(error := name + ": invalid reply received")
  }

  /** What failAllPending does to a call. */
  function Failed(c: Call, err: string): Call {
    if c.error == "" then c.(error := err) else c
  }

  // ----- the caller -----

  datatype Verdict = Wait | Proceed | Throw(error: string) | TimeOut

  /** The caller's loop and checks around one wait: `done` is acked or replied.  A time-out
      counts only when nothing has happened. */
  function Judge(done: bool, error: string, timedOut: bool): Verdict {
    if done then Proceed
    else if error != "" then Throw(error)
    else if timedOut then TimeOut
    else Wait
  }

  function JudgeAck(c: Call, timedOut: bool): Verdict {
    Judge(c.acked, c.error, timedOut)
  }

  function JudgeReply(c: Call, timedOut: bool): Verdict {
    Judge(c.replied, c.error, timedOut)
  }

  // ----- properties of the messages -----

  /** The responder gets out of a request exactly what the caller put in. */
  lemma RequestRoundTrip(t: Transport, address: string, service: string, rid: string, request: Value)
    ensures Accept(t, address, RequestMessage(t, address, service, rid, request)) == Some(Job(address, rid, request))
  {
  }

  /** What a request is to a responder: a dictionary with a string as rid, a payload and, over MQTT, a
      string as reply topic.  Over the other transports the answers go back where it came from. */
  lemma AcceptsExactly(t: Transport, from: string, message: Value)
    ensures Accept(t, from, message).Some?
            <==> message.Dict? && "rid" in message.fields && message.fields["rid"].Str? && "payload" in message.fields
                 && (t.Mqtt? ==> "reply_to" in message.fields && message.fields["reply_to"].Str?)
    ensures Accept(t, from, message).Some? ==>
              var job := Accept(t, from, message).value;
              && Str(job.rid) == message.fields["rid"] && job.payload == message.fields["payload"]
              && Str(job.address) == if t.Mqtt? then message.fields["reply_to"] else Str(from)
  {
  }

  /** The requester looks at dictionaries with a string as rid and, over WebRTC, a string as type. */
  lemma LooksAtExactly(t: Transport, message: Value, rid: string)
    ensures RidOf(t, message) == Some(rid)
            <==> message.Dict? && "rid" in message.fields && message.fields["rid"] == Str(rid)
                 && (t.WebRtc? ==> "type" in message.fields && message.fields["type"].Str?)
  {
  }

  predicate Acknowledges(t: Transport, d: map<string, Value>) {
    if t.WebRtc? then "type" in d && d["type"] == Str("rpc_ack") else "ack" in d && d["ack"] == Bool(true)
  }

  predicate Answers(t: Transport, d: map<string, Value>) {
    if t.WebRtc? then "type" in d && d["type"] == Str("rpc_rep") else "ack" !in d && "payload" in d
  }

  /** What a message does to the call with its rid, whatever else it holds: over WebRTC its type decides,
      elsewhere an "ack" field makes it an acknowledgement, good only if true, and a payload a reply. */
  lemma ProcessExactly(t: Transport, name: string, c: Call, message: Value)
    requires RidOf(t, message).Some?
    ensures var c', d := Process(t, name, c, message), message.fields;
            && (c'.acked <==> c.acked || Acknowledges(t, d))
            && (c'.replied <==> c.replied || Answers(t, d))
            && c'.payload == (if Answers(t, d) && "payload" in d then d["payload"] else c.payload)
            && c'.error == if t.WebRtc? && Answers(t, d) && "payload" !in d then name + ": rpc_rep missing payload"
                           else if !t.WebRtc? && "ack" in d && d["ack"] != Bool(true) then name + ": invalid ack received"
                           else if !t.WebRtc? && "ack" !in d && "payload" !in d then name + ": invalid reply received"
                           else c.error
  {
    assert "rpc_ack"[4] != "rpc_rep"[4];
  }

  /** An acknowledgement sets only the acked flag, a reply only the payload and its flag, each
      of the call with their rid. */
  lemma AnswersDoTheirPart(t: Transport, name: string, c: Call, rid: string, response: Value)
    ensures RidOf(t, AckMessage(t, rid)) == Some(rid) && RidOf(t, ReplyMessage(t, rid, response)) == Some(rid)
    ensures Process(t, name, c, AckMessage(t, rid)) == c.(acked := true)
    ensures Process(t, name, c, ReplyMessage(t, rid, response)) == c.(payload := response, replied := true)
  {
    assert "rpc_ack"[4] != "rpc_rep"[4];
  }

  /** Whatever arrives, a message never takes back an acknowledgement or a reply, and an error,
      once there, stays. */
  lemma ProcessIsMonotone(t: Transport, name: string, c: Call, message: Value)
    requires RidOf(t, message).Some?
    ensures var c' := Process(t, name, c, message);
            && (c.acked ==> c'.acked) && (c.replied ==> c'.replied) && (c.error != "" ==> c'.error != "")
            && (c'.payload != c.payload ==> c'.replied)
  {
    assert (name + ": rpc_rep missing payload")[|name|] == ':';
    assert (name + ": invalid ack received")[|name|] == ':';
    assert (name + ": invalid reply received")[|name|] == ':';
  }

  /** Over WebRTC alone, a reply without payload does not fail the call: it sets the error but
      also the replied flag, so an acknowledged call returns the payload it has, Null. */
  lemma ReplyWithoutPayload(t: Transport, name: string, c: Call, message: Value, timedOut: bool)
    requires RidOf(t, message).Some? && "payload" !in message.fields && "ack" !in message.fields
    requires !c.replied
    ensures JudgeReply(Process(t, name, c, message), timedOut).Proceed?
            <==> t.WebRtc? && message.fields["type"].text == "rpc_rep"
    ensures Process(t, name, c, message).payload == c.payload
    ensures !t.WebRtc? && c.error == "" ==>
              JudgeReply(Process(t, name, c, message), timedOut) == Throw(name + ": invalid reply received")
  {
    assert (name + ": invalid reply received")[|name|] == ':';
  }
}
