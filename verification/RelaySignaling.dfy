/** Signalling through an HTTP relay: a sender that retries its oldest message until the relay takes
    it, and a poller that moves a cursor.

    The relay is outside: it stores a message unless it remembers its id, may lose requests,
    responses and its whole memory, may see a request long after the sender gave up on it, and
    answers 404 to participants it does not know. */
module RelaySignaling {
  import opened Values

  datatype Message = Message(body: seq<byte>, id: string)

  /** What a request comes to: a status, or an exception. */
  datatype Response = Status(code: int) | Failed

  // ----- sending -----

  /** `stored` is what the relay has stored since it last lost its memory, `ever` all it has ever
      stored; `answer` is the response on its way back, `loose` what the sender has given up on
      but may still reach the relay. */
  datatype State = State(
    started: bool,
    closed: bool,
    outgoing: seq<Message>,
    inFlight: Option<Message>,
    answer: Option<Response>,
    published: seq<Message>,
    acked: seq<Message>,
    stored: seq<Message>,
    ever: set<Message>,
    loose: set<Message>)

  const IDLE := State(false, false, [], None, None, [], [], [], {}, {})

  datatype Action =
    | Subscribe
    | Disconnect
    | Publish(message: Message)
    | Take
    | RelayStores
    | RelayRefuses(response: Response)
    | RelayForgets
    | LateArrival(message: Message)
    | AnswerArrives
    | AnswerIsLost

  predicate HasId(messages: seq<Message>, id: string) {
    exists i :: 0 <= i < |messages| && messages[i].id == id
  }

  /** Publishing needs a connection and draws an id that has not been used. */
  predicate Enabled(s: State, a: Action) {
    match a
    case Subscribe => !s.closed
    case Disconnect => true
    case Publish(m) => s.started && !s.closed && !HasId(s.published, m.id)
    case Take => s.started && s.inFlight.None? && s.outgoing != []
    case RelayStores => s.inFlight.Some? && s.answer.None?
    case RelayRefuses(r) => s.inFlight.Some? && s.answer.None? && r != Status(204)
    case RelayForgets => true
    case LateArrival(m) => m in s.loose
    case AnswerArrives => s.inFlight.Some? && s.answer.Some?
    case AnswerIsLost => s.inFlight.Some?
  }

  function Step(s: State, a: Action): State
    requires Enabled(s, a)
  {
    match a
    case Subscribe => s.(started := true)
    case Disconnect => s.(closed := true)
    case Publish(m) => s.(outgoing := s.outgoing + [m], published := s.published + [m])
    case Take => s.(inFlight := Some(s.outgoing[0]))
    case RelayStores => Stores(s, s.inFlight.value).(answer := Some(Status(204)))
    case RelayRefuses(r) => s.(answer := Some(r))
    case RelayForgets => s.(stored := [])
    case LateArrival(m) => Stores(s, m)
    case AnswerArrives => Answered(s)
    case AnswerIsLost => s.(inFlight := None, answer := None, loose := s.loose + {s.inFlight.value})
  }

  /** The relay drops a message whose id it remembers. */
  function Stores(s: State, m: Message): State {
    if HasId(s.stored, m.id) then s else s.(stored := s.stored + [m], ever := s.ever + {m})
  }

  /** The sender's side of a response: 204 removes the message it was for, anything else keeps it. */
  function Answered(s: State): State
    requires s.inFlight.Some? && s.answer.Some?
  {
    if s.answer == Some(Status(204)) && s.outgoing != []
    then s.(inFlight := None, answer := None, outgoing := s.outgoing[1..], acked := s.acked + [s.outgoing[0]])
    else s.(inFlight := None, answer := None)
  }

  ghost predicate IsRun(run: seq<State>, actions: seq<Action>) {
    && |run| == |actions| + 1 && run[0] == IDLE
    && forall n {:trigger actions[n]} | 0 <= n < |actions| ::
         Enabled(run[n], actions[n]) && run[n + 1] == Step(run[n], actions[n])
  }

  ghost predicate DistinctIds(messages: seq<Message>) {
    forall i, j | 0 <= i < j < |messages| :: messages[i].id != messages[j].id
  }

  /** Acknowledged messages are a prefix of what was published and the queue is the rest. */
  predicate Split(s: State) {
    s.published == s.acked + s.outgoing
  }

  predicate FlightIsFront(s: State) {
    && (s.inFlight.Some? ==> s.outgoing != [] && s.inFlight.value == s.outgoing[0])
    && (s.inFlight.None? ==> s.answer.None?)
  }

  ghost predicate AckedWereStored(s: State) {
    && (forall m | m in s.acked :: m in s.ever)
    && (forall m | m in s.stored :: m in s.ever)
    && (s.inFlight.Some? && s.answer == Some(Status(204)) ==> s.inFlight.value in s.ever)
  }

  ghost predicate IdsAreUnique(s: State) {
    && DistinctIds(s.published)
    && (forall m | m in s.stored :: m in s.published)
    && (forall m | m in s.ever :: m in s.published)
  }

  /** What was given up on has been acknowledged since, or is still in turn. */
  predicate LooseAreOld(s: State) {
    forall m | m in s.loose :: m in s.acked || (s.outgoing != [] && m == s.outgoing[0])
  }

  ghost predicate Inv(s: State) {
    Split(s) && FlightIsFront(s) && IdsAreUnique(s) && AckedWereStored(s) && LooseAreOld(s)
  }

  lemma SameIdSameMessage(messages: seq<Message>, m: Message, n: Message)
    requires DistinctIds(messages) && m in messages && n in messages && m.id == n.id
    ensures m == n
  {
    var i :| 0 <= i < |messages| && messages[i] == m;
    var j :| 0 <= j < |messages| && messages[j] == n;
  }

  lemma StoresKeepsInv(s: State, m: Message)
    requires Inv(s) && m in s.published
    ensures Inv(Stores(s, m)) && m in Stores(s, m).ever
  {
    if HasId(s.stored, m.id) {
      var i :| 0 <= i < |s.stored| && s.stored[i].id == m.id;
      assert s.stored[i] in s.stored;
      SameIdSameMessage(s.published, m, s.stored[i]);
    }
  }

  lemma FrontIsPublished(s: State)
    requires Split(s) && s.outgoing != []
    ensures s.outgoing[0] in s.published
  {
    assert s.published[|s.acked|] == s.outgoing[0];
  }

  lemma LooseArePublished(s: State, m: Message)
    requires Split(s) && LooseAreOld(s) && m in s.loose
    ensures m in s.published
  {
    if m !in s.acked {
      FrontIsPublished(s);
    }
  }

  lemma AnswerKeepsInv(s: State)
    requires Inv(s) && Enabled(s, AnswerArrives)
    ensures Inv(Step(s, AnswerArrives))
  {
    var s' := Step(s, AnswerArrives);
    if s.answer == Some(Status(204)) {
      assert s.acked + s.outgoing == s'.acked + s'.outgoing;
    }
  }

  lemma PublishKeepsInv(s: State, m: Message)
    requires Inv(s) && Enabled(s, Publish(m))
    ensures Inv(Step(s, Publish(m)))
  {
    var s' := Step(s, Publish(m));
    assert s.acked + (s.outgoing + [m]) == s.published + [m];
    forall i | 0 <= i < |s.published| ensures s'.published[i].id != m.id {
      assert !HasId(s.published, m.id);
    }
  }

  lemma StepKeepsInv(s: State, a: Action)
    requires Inv(s) && Enabled(s, a)
    ensures Inv(Step(s, a))
  {
    match a {
      case Publish(m) => PublishKeepsInv(s, m);
      case RelayStores =>
        FrontIsPublished(s);
        StoresKeepsInv(s, s.inFlight.value);
      case LateArrival(m) =>
        LooseArePublished(s, m);
        StoresKeepsInv(s, m);
      case AnswerArrives => AnswerKeepsInv(s);
      case _ =>
    }
  }

  lemma {:induction false} InvInEveryRun(run: seq<State>, actions: seq<Action>, n: nat)
    requires IsRun(run, actions) && n < |run|
    ensures Inv(run[n])
  {
    if n > 0 {
      InvInEveryRun(run, actions, n - 1);
      StepKeepsInv(run[n - 1], actions[n - 1]);
    }
  }

  /** Against any relay: the messages acknowledged with 204 are a prefix of the publish order, the
      queue is the remaining suffix, and every acknowledged message was stored by the relay. */
  lemma AcknowledgedInPublishOrder(run: seq<State>, actions: seq<Action>, n: nat)
    requires IsRun(run, actions) && n < |run|
    ensures run[n].published == run[n].acked + run[n].outgoing
    ensures forall m | m in run[n].acked :: m in run[n].ever
  {
    InvInEveryRun(run, actions, n);
  }

  /** A step publishes a message only as Publish, and acknowledges one only when the answer to it arrives
      and is 204: then it is the oldest unacknowledged, and leaves the queue. */
  lemma AcknowledgedExactly(run: seq<State>, actions: seq<Action>, n: nat)
    requires IsRun(run, actions) && n < |actions|
    ensures run[n + 1].published == run[n].published + (if actions[n].Publish? then [actions[n].message] else [])
    ensures if actions[n].AnswerArrives? && run[n].answer == Some(Status(204))
            then run[n].outgoing != [] && run[n].inFlight == Some(run[n].outgoing[0])
                 && run[n + 1].acked == run[n].acked + [run[n].outgoing[0]]
            else run[n + 1].acked == run[n].acked
  {
    InvInEveryRun(run, actions, n);
  }

  /** The answer on its way is what the relay did with the message in flight: nothing since the `i`-th
      step, which took the message or made the answer. */
  lemma {:induction false} AnswerExactly(run: seq<State>, actions: seq<Action>, i: nat, n: nat)
    requires IsRun(run, actions) && i < n < |run|
    requires actions[i].Take? || actions[i].RelayStores? || actions[i].RelayRefuses?
    requires forall j | i < j < n :: !actions[j].RelayStores? && !actions[j].RelayRefuses? && !actions[j].AnswerArrives?
                                     && !actions[j].AnswerIsLost?
    ensures actions[i].Take? ==> run[i].outgoing != [] && run[n].inFlight == Some(run[i].outgoing[0]) && run[n].answer == None
    ensures actions[i].RelayStores? ==> run[n].inFlight == run[i].inFlight && run[n].answer == Some(Status(204))
    ensures actions[i].RelayRefuses? ==> run[n].inFlight == run[i].inFlight && run[n].answer == Some(actions[i].response)
  {
    if i + 1 < n {
      AnswerExactly(run, actions, i, n - 1);
      assert Enabled(run[n - 1], actions[n - 1]) && run[n] == Step(run[n - 1], actions[n - 1]);
      assert run[n].inFlight == run[n - 1].inFlight && run[n].answer == run[n - 1].answer;
    } else {
      InvInEveryRun(run, actions, i);
      assert Enabled(run[i], actions[i]) && run[i + 1] == Step(run[i], actions[i]);
    }
  }

  lemma OneMoreAction(actions: seq<Action>, n: nat, a: Action)
    requires 0 < n <= |actions|
    ensures a in actions[..n] <==> a in actions[..n - 1] || actions[n - 1] == a
  {
    assert actions[..n] == actions[..n - 1] + [actions[n - 1]];
  }

  /** The signaler is started by its first subscribe and closed by its first disconnect, for good. */
  lemma {:induction false} FlagsExactly(run: seq<State>, actions: seq<Action>, n: nat)
    requires IsRun(run, actions) && n < |run|
    ensures run[n].started <==> Subscribe in actions[..n]
    ensures run[n].closed <==> Disconnect in actions[..n]
  {
    if n > 0 {
      FlagsExactly(run, actions, n - 1);
      OneMoreAction(actions, n, Subscribe);
      OneMoreAction(actions, n, Disconnect);
      assert run[n] == Step(run[n - 1], actions[n - 1]);
    }
  }

  /** Nothing is published before the first subscribe or after a disconnect, and nobody subscribes after
      one; the sender has one request under way at a time and each request has one outcome. */
  lemma OnlyWhenConnected(run: seq<State>, actions: seq<Action>, n: nat)
    requires IsRun(run, actions) && n < |actions|
    ensures actions[n].Publish? ==> Subscribe in actions[..n] && Disconnect !in actions[..n]
    ensures actions[n].Subscribe? ==> Disconnect !in actions[..n]
    ensures actions[n].Take? ==> Subscribe in actions[..n] && run[n].inFlight.None?
    ensures actions[n].RelayStores? || actions[n].RelayRefuses? ==> run[n].inFlight.Some? && run[n].answer.None?
    ensures actions[n].AnswerArrives? ==> run[n].inFlight.Some? && run[n].answer.Some?
    ensures actions[n].AnswerIsLost? ==> run[n].inFlight.Some?
  {
    FlagsExactly(run, actions, n);
    assert Enabled(run[n], actions[n]);
  }

  /** Whatever a request comes to, the sender is free to send again afterwards, and what it sends is the
      oldest message not yet acknowledged: the same one, unless the answer was 204. */
  lemma RetriesTheOldest(run: seq<State>, actions: seq<Action>, n: nat)
    requires IsRun(run, actions) && n < |actions| && (actions[n].AnswerArrives? || actions[n].AnswerIsLost?)
    ensures run[n].inFlight.Some? && run[n + 1].inFlight.None?
    ensures !(actions[n].AnswerArrives? && run[n].answer == Some(Status(204))) ==>
              Enabled(run[n + 1], Take) && Step(run[n + 1], Take).inFlight == run[n].inFlight
    ensures actions[n].AnswerArrives? && run[n].answer == Some(Status(204)) && |run[n].outgoing| > 1 ==>
              Enabled(run[n + 1], Take) && Step(run[n + 1], Take).inFlight == Some(run[n].outgoing[1])
  {
    InvInEveryRun(run, actions, n);
    FlagsExactly(run, actions, n);
    InFlightIsStarted(run, actions, n);
    assert run[n + 1] == Step(run[n], actions[n]);
  }

  lemma {:induction false} InFlightIsStarted(run: seq<State>, actions: seq<Action>, n: nat)
    requires IsRun(run, actions) && n < |run|
    ensures run[n].inFlight.Some? ==> run[n].started
  {
    if n > 0 {
      InFlightIsStarted(run, actions, n - 1);
      assert run[n] == Step(run[n - 1], actions[n - 1]) && Enabled(run[n - 1], actions[n - 1]);
    }
  }

  /** What the relay holds: a message that reaches it, in time or late, is added unless it remembers the
      id, and it may forget everything; what a sender gives up on may still come. */
  lemma RelayHoldsExactly(run: seq<State>, actions: seq<Action>, n: nat)
    requires IsRun(run, actions) && n < |actions|
    ensures var s, a := run[n], actions[n];
            var come := if a.RelayStores? then s.inFlight else if a.LateArrival? then Some(a.message) else None;
            && run[n + 1].stored == (if a.RelayForgets? then []
                                     else if come.Some? && forall i | 0 <= i < |s.stored| :: s.stored[i].id != come.value.id
                                     then s.stored + [come.value] else s.stored)
            && (a.LateArrival? ==> a.message in s.loose)
            && run[n + 1].loose == s.loose + if a.AnswerIsLost? && s.inFlight.Some? then {s.inFlight.value} else {}
  {
    assert run[n + 1] == Step(run[n], actions[n]) && Enabled(run[n], actions[n]);
  }

  /** A relay that keeps its memory stores the messages in publish order, each once, and at most
      one ahead of what has been acknowledged. */
  lemma RelayHoldsAPrefix(run: seq<State>, actions: seq<Action>, n: nat)
    requires IsRun(run, actions) && n < |run|
    requires forall i | 0 <= i < n :: !actions[i].RelayForgets?
    ensures run[n].stored <= run[n].published && |run[n].acked| <= |run[n].stored| <= |run[n].acked| + 1
  {
    StoredIsPrefix(run, actions, n);
  }

  /** The stored messages are the first ones published: all acknowledged, and perhaps the one in turn. */
  predicate HoldsPrefix(s: State) {
    && |s.acked| <= |s.stored| <= |s.acked| + 1 && s.stored <= s.published
    && (s.inFlight.Some? && s.answer == Some(Status(204)) ==> |s.stored| == |s.acked| + 1)
  }

  lemma {:induction false} StoredIsPrefix(run: seq<State>, actions: seq<Action>, n: nat)
    requires IsRun(run, actions) && n < |run|
    requires forall i | 0 <= i < n :: !actions[i].RelayForgets?
    ensures HoldsPrefix(run[n])
  {
    if n > 0 {
      StoredIsPrefix(run, actions, n - 1);
      InvInEveryRun(run, actions, n - 1);
      PrefixStep(run[n - 1], actions[n - 1]);
    }
  }

  /** What is acknowledged is remembered, and the message in turn is remembered if it is stored. */
  lemma Remembered(s: State, m: Message)
    requires Split(s) && DistinctIds(s.published) && HoldsPrefix(s)
    ensures m in s.acked ==> HasId(s.stored, m.id)
    ensures s.outgoing != [] && m == s.outgoing[0] ==> (HasId(s.stored, m.id) <==> |s.stored| == |s.acked| + 1)
  {
    if m in s.acked {
      var i :| 0 <= i < |s.acked| && s.acked[i] == m;
      assert s.stored[i] == s.published[i] == m;
    }
    if s.outgoing != [] && m == s.outgoing[0] {
      assert s.published[|s.acked|] == m;
      if |s.stored| == |s.acked| + 1 {
        assert s.stored[|s.acked|] == m;
      } else {
        assert forall i | 0 <= i < |s.stored| :: s.stored[i] == s.published[i];
      }
    }
  }

  lemma PrefixStep(s: State, a: Action)
    requires Inv(s) && Enabled(s, a) && !a.RelayForgets? && HoldsPrefix(s)
    ensures HoldsPrefix(Step(s, a))
  {
    if a.RelayStores? {
      Remembered(s, s.inFlight.value);
      assert s.published[|s.acked|] == s.inFlight.value;
    } else if a.LateArrival? {
      Remembered(s, a.message);
      if a.message !in s.acked {
        assert s.published[|s.acked|] == a.message;
      }
    }
  }

  // ----- polling -----

  /** The answer to one poll and what came of it: `sequence` is the parsed header of a 200, None if
      it is missing or not a number; `handled` says whether the callback returned. */
  datatype Poll =
    | Unreachable
    | Unknown(registered: bool)
    | Nothing
    | Delivery(sequence: Option<nat>, handled: bool)
    | OtherStatus

  /** Where the poller stands, and the deliveries whose handling completed since the last
      registration. */
  datatype Poller = Poller(cursor: nat, completed: seq<nat>)

  function AfterPoll(p: Poller, poll: Poll): Poller {
    match poll
    case Unknown(registered) => if registered then Poller(0, []) else p
    case Delivery(Some(n), handled) => if n > p.cursor && handled then Poller(n, p.completed + [n]) else p
    case _ => p
  }

  function AfterPolls(polls: seq<Poll>): Poller {
    if polls == [] then Poller(0, []) else AfterPoll(AfterPolls(polls[..|polls| - 1]), polls[|polls| - 1])
  }

  predicate Increasing(s: seq<nat>) {
    forall i, j | 0 <= i < j < |s| :: s[i] < s[j]
  }

  /** Whatever the relay answers: between registrations the sequence numbers of the deliveries
      whose handling completes increase strictly, and the cursor is the last of them. */
  lemma {:induction false} CompletedInOrder(polls: seq<Poll>)
    ensures var p := AfterPolls(polls);
            && Increasing(p.completed)
            && (forall i | 0 <= i < |p.completed| :: 0 < p.completed[i] <= p.cursor)
            && p.cursor == if p.completed == [] then 0 else p.completed[|p.completed| - 1]
  {
    if polls != [] {
      CompletedInOrder(polls[..|polls| - 1]);
    }
  }

  predicate Completes(poll: Poll, n: int) {
    poll.Delivery? && poll.sequence.Some? && poll.sequence.value == n && poll.handled
  }

  /** The `i`-th answer delivers `n`, its callback returns, and since the `r`-th answer no number as
      large was so delivered. */
  ghost predicate FirstAt(polls: seq<Poll>, r: nat, i: int, n: int) {
    && r <= i < |polls| && Completes(polls[i], n)
    && forall j, m | r <= j < i && Completes(polls[j], m) :: m < n
  }

  /** From the answers alone: the last registration, just before the `r`-th, puts the cursor back to 0,
      and from then on it is the largest number delivered with a callback that returned; completed are
      the positive numbers larger than all such before them. */
  lemma {:induction false} PolledExactly(polls: seq<Poll>, r: nat)
    requires r <= |polls| && (r == 0 || polls[r - 1] == Unknown(true))
    requires forall i | r <= i < |polls| :: polls[i] != Unknown(true)
    ensures forall i, n | r <= i < |polls| && Completes(polls[i], n) :: n <= AfterPolls(polls).cursor
    ensures AfterPolls(polls).cursor > 0 ==> exists i :: FirstAt(polls, r, i, AfterPolls(polls).cursor)
    ensures forall n :: n in AfterPolls(polls).completed <==> n > 0 && exists i :: FirstAt(polls, r, i, n)
  {
    if r == |polls| {
      assert AfterPolls(polls) == Poller(0, []);
    } else {
      var init := polls[..|polls| - 1];
      PolledExactly(init, r);
      forall i, n | i < |init| ensures FirstAt(init, r, i, n) <==> FirstAt(polls, r, i, n) {
        SameFirst(polls, r, i, n);
      }
      OneMorePoll(polls, r);
    }
  }

  lemma SameFirst(polls: seq<Poll>, r: nat, i: int, n: int)
    requires 0 < |polls| && i < |polls| - 1
    ensures FirstAt(polls[..|polls| - 1], r, i, n) <==> FirstAt(polls, r, i, n)
  {
    var init := polls[..|polls| - 1];
    assert forall j | 0 <= j <= i :: init[j] == polls[j];
  }

  /** What the last answer adds to those before it. */
  lemma OneMorePoll(polls: seq<Poll>, r: nat)
    requires r < |polls| && polls[|polls| - 1] != Unknown(true)
    requires var init := polls[..|polls| - 1]; var p := AfterPolls(init);
             && (forall i, n | r <= i < |init| && Completes(init[i], n) :: n <= p.cursor)
             && (p.cursor > 0 ==> exists i :: FirstAt(init, r, i, p.cursor))
             && (forall n :: n in p.completed <==> n > 0 && exists i :: FirstAt(init, r, i, n))
             && forall i, n | i < |init| :: FirstAt(init, r, i, n) <==> FirstAt(polls, r, i, n)
    ensures forall i, n | r <= i < |polls| && Completes(polls[i], n) :: n <= AfterPolls(polls).cursor
    ensures AfterPolls(polls).cursor > 0 ==> exists i :: FirstAt(polls, r, i, AfterPolls(polls).cursor)
    ensures forall n :: n in AfterPolls(polls).completed <==> n > 0 && exists i :: FirstAt(polls, r, i, n)
  {
    var init, last := polls[..|polls| - 1], |polls| - 1;
    var p := AfterPolls(init);
    assert forall i | 0 <= i < |init| :: init[i] == polls[i];
    if polls[last].Delivery? && polls[last].sequence.Some? && polls[last].handled && polls[last].sequence.value > p.cursor {
      assert FirstAt(polls, r, last, polls[last].sequence.value);
    } else {
      assert AfterPolls(polls) == p;
      if p.cursor > 0 {
        var i :| FirstAt(init, r, i, p.cursor);
        assert Completes(polls[i], p.cursor);
      }
      assert forall n | n > 0 :: !FirstAt(polls, r, last, n);
    }
  }

  /** Answers of a relay that keeps its memory: a delivery is the message after the cursor, which
      counts from 1 to the number stored. */
  ghost predicate FromRelay(polls: seq<Poll>, stored: nat) {
    forall i | 0 <= i < |polls| ::
      && !polls[i].Unknown?
      && (polls[i].Delivery? ==> polls[i].sequence == Some(AfterPolls(polls[..i]).cursor + 1)
                                 && AfterPolls(polls[..i]).cursor < stored)
  }

  /** With such a relay the deliveries completed are the first of those stored, each exactly once and
      in order, however often a callback throws or the relay is out of reach. */
  lemma {:induction false} EveryDeliveryOnce(polls: seq<Poll>, stored: nat)
    requires FromRelay(polls, stored)
    ensures var p := AfterPolls(polls);
            && p.cursor == |p.completed| <= stored
            && forall i | 0 <= i < |p.completed| :: p.completed[i] == i + 1
  {
    if polls != [] {
      var init := polls[..|polls| - 1];
      assert forall i | 0 <= i < |init| :: init[..i] == polls[..i] && init[i] == polls[i];
      EveryDeliveryOnce(init, stored);
      assert polls[..|polls| - 1] == init;
    }
  }

  // ----- the signaler's own operations -----

  class Signaler {
    var started: bool
    var closed: bool
    var hasCallback: bool
    var outgoing: seq<Message>
    ghost var published: seq<Message>
    ghost var acked: seq<Message>

    ghost predicate Valid()
      reads this
    {
      published == acked + outgoing
    }

    constructor ()
      ensures Valid() && !started && !closed && outgoing == [] && published == []
    {
      started, closed, hasCallback, outgoing, published, acked := false, false, false, [], [], [];
    }

    /** publish: refused unless connected. */
    method PublishMessage(m: Message) returns (ok: bool)
      requires Valid()
      modifies this
      ensures Valid() && ok == (old(started) && !old(closed))
      ensures published == if ok then old(published) + [m] else old(published)
      ensures acked == old(acked) && started == old(started) && closed == old(closed)
      ensures hasCallback == old(hasCallback)
    {
      ok := started && !closed;
      if !ok { return; }
      outgoing := outgoing + [m];
      published := published + [m];
    }

    /** subscribe: a closed signaler refuses; the first success starts the two loops. */
    method SubscribeTo(registers: bool) returns (ok: bool)
      requires Valid()
      modifies this`started, this`hasCallback
      ensures ok == (!closed && (old(started) || registers))
      ensures started == (old(started) || ok) && hasCallback == (old(hasCallback) || ok)
    {
      if closed { return false; }
      if !started && !registers { return false; }
      hasCallback := true;
      started := true;
      ok := true;
    }

    /** One turn of sendLoop, given the response to the oldest message. */
    method SendOldest(response: Response) returns (pending: Message)
      requires Valid() && outgoing != []
      modifies this`outgoing, this`acked
      ensures Valid() && pending == old(outgoing)[0]
      ensures acked == if response == Status(204) then old(acked) + [pending] else old(acked)
    {
      pending := outgoing[0];
      match response {
        case Status(code) =>
          if code == 204 {
            acked := acked + [pending];
            outgoing := outgoing[1..];
          }
        case Failed =>
      }
    }

    /** pollLoop over a sequence of answers. */
    method PollAll(polls: seq<Poll>) returns (p: Poller)
      ensures p == AfterPolls(polls)
    {
      var cursor: nat, completed: seq<nat> := 0, [];
      for i := 0 to |polls|
        invariant Poller(cursor, completed) == AfterPolls(polls[..i])
      {
        assert polls[..i + 1][..i] == polls[..i];
        match polls[i] {
          case Unreachable =>
          case Unknown(registered) =>
            if registered {
              cursor, completed := 0, [];
            }
          case Nothing =>
          case OtherStatus =>
          case Delivery(sequence, handled) =>
            if sequence.Some? && sequence.value > cursor && handled {
              cursor := sequence.value;
              completed := completed + [cursor];
            }
        }
      }
      assert polls[..|polls|] == polls;
      p := Poller(cursor, completed);
    }
  }
}
