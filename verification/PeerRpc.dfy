/** Requests answered over a peer group: the group notes which peer a request came from, the
    responders of the group queue it, acknowledge it and send the reply, and the group routes both
    answers: it chooses a link under its mutex and hands the answer to that link afterwards.
    Everything else the group does goes on in between. */
module PeerRpc {
  import opened Values
  import G = PeerGroup
  import P = RpcProtocol
  import R = RpcResponder

  /** An answer that was sent, and the links chosen for it: each peer with the id of its link. */
  datatype Sent = Sent(rid: string, message: Value, targets: map<string, nat>)

  /** `queue` and `jobs` are those of all responders of the group; `asked` says which peer sent the
      request with a rid; `open` are the links that are connected, those out of the group's table
      included; `handed` tells, for each place in `sent` that is through, which peers it went out to. */
  datatype State = State(
    group: G.Group,
    queue: seq<R.Incoming>,
    jobs: seq<P.Job>,
    asked: map<string, string>,
    sent: seq<Sent>,
    open: set<nat>,
    handed: map<nat, set<string>>)

  /** A request arrives over a link, and is queued unless its responder has closed; a queued one is
      received and acknowledged; a job ends; an answer is handed to the links chosen for it; a link
      that left the table opens or closes; or the group does anything but record or answer. */
  datatype Action =
    | Arrives(request: R.Incoming, queued: bool)
    | Receive(i: nat, ackSent: bool)
    | Finish(i: nat, outcome: R.Outcome, replySent: bool)
    | HandOver(place: nat)
    | Channel(link: nat, up: bool)
    | Other(op: G.Op)

  function RidIn(message: Value): Option<string> {
    if message.Dict? then StringField(message.fields, "rid") else None
  }

  /** The rids of requests are fresh. */
  predicate Enabled(s: State, a: Action) {
    match a
    case Arrives(request, _) => RidIn(request.message).Some? ==> RidIn(request.message).value !in s.asked
    case Receive(i, _) => i < |s.queue|
    case Finish(i, _, _) => i < |s.jobs|
    case HandOver(place) => place < |s.sent| && place !in s.handed
    case Channel(link, _) => link < s.group.created && forall r | r in s.group.peers :: s.group.peers[r].id != link
    case Other(op) => G.Enabled(s.group, op) && !op.Request? && !(op.SendData? && G.IsAnswer(op.message))
  }

  function Without<T>(s: seq<T>, i: nat): (r: seq<T>)
    requires i < |s|
    ensures |r| == |s| - 1 && forall k | 0 <= k < |r| :: r[k] == s[if k < i then k else k + 1]
  {
    s[..i] + s[i + 1..]
  }

  /** The answer a step sends, with its rid. */
  function AnswerOf(s: State, a: Action): Option<(string, Value)>
    requires Enabled(s, a)
  {
    match a
    case Arrives(_, _) => None
    case Receive(i, ackSent) =>
      var job := P.Accept(P.WebRtc, s.queue[i].from, s.queue[i].message);
      if job.Some? && ackSent then Some((job.value.rid, P.AckMessage(P.WebRtc, job.value.rid))) else None
    case Finish(i, outcome, replySent) =>
      if outcome.Answer? && replySent
      then Some((s.jobs[i].rid, P.ReplyMessage(P.WebRtc, s.jobs[i].rid, outcome.response))) else None
    case HandOver(_) => None
    case Channel(_, _) => None
    case Other(_) => None
  }

  /** What a step does to the group. */
  function OpOf(s: State, a: Action): (r: Option<G.Op>)
    requires Enabled(s, a)
    ensures r.Some? ==> G.Enabled(s.group, r.value)
  {
    if a.Other? then Some(a.op)
    else if a.Arrives? then
      var rid := RidIn(a.request.message);
      if rid.Some? then Some(G.Request(rid.value, a.request.from)) else None
    else if AnswerOf(s, a).Some? then Some(G.SendData(AnswerOf(s, a).value.1))
    else None
  }

  function GroupAfter(s: State, a: Action): G.Group
    requires Enabled(s, a)
  {
    if OpOf(s, a).None? then s.group else G.Step(s.group, OpOf(s, a).value)
  }

  /** The links chosen for an answer under the group's mutex. */
  function Choose(g: G.Group, rid: string, message: Value): Sent {
    Sent(rid, message, map r | r in G.Targets(g, message) :: g.peers[r].id)
  }

  function SentAfter(s: State, a: Action): seq<Sent>
    requires Enabled(s, a)
  {
    var answer := AnswerOf(s, a);
    if answer.None? then s.sent else s.sent + [Choose(s.group, answer.value.0, answer.value.1)]
  }

  function Toggle(open: set<nat>, link: nat, up: bool): set<nat> {
    if up then open + {link} else open - {link}
  }

  function OpenAfter(s: State, a: Action): set<nat>
    requires Enabled(s, a)
  {
    if a.Channel? then Toggle(s.open, a.link, a.up)
    else if a.Other? && a.op.Connectivity? then Toggle(s.open, s.group.peers[a.op.remote].id, a.op.up)
    else s.open
  }

  /** A chosen link that is not connected drops the answer. */
  function Reached(s: State, e: Sent): set<string> {
    set r | r in e.targets && e.targets[r] in s.open
  }

  function Step(s: State, a: Action): State
    requires Enabled(s, a)
  {
    var group, sent, open := GroupAfter(s, a), SentAfter(s, a), OpenAfter(s, a);
    match a
    case Arrives(request, queued) =>
      var rid := RidIn(request.message);
      State(group, if queued then s.queue + [request] else s.queue, s.jobs,
            if rid.Some? then s.asked[rid.value := request.from] else s.asked, sent, open, s.handed)
    case Receive(i, _) =>
      State(group, Without(s.queue, i),
            if AnswerOf(s, a).Some?
            then s.jobs + [P.Accept(P.WebRtc, s.queue[i].from, s.queue[i].message).value] else s.jobs,
            s.asked, sent, open, s.handed)
    case Finish(i, _, _) => State(group, s.queue, Without(s.jobs, i), s.asked, sent, open, s.handed)
    case HandOver(place) =>
      State(group, s.queue, s.jobs, s.asked, sent, open, s.handed[place := Reached(s, s.sent[place])])
    case Channel(_, _) => State(group, s.queue, s.jobs, s.asked, sent, open, s.handed)
    case Other(_) => State(group, s.queue, s.jobs, s.asked, sent, open, s.handed)
  }

  ghost predicate IsRun(run: seq<State>, actions: seq<Action>) {
    && |run| == |actions| + 1
    && run[0] == State(G.Initial(run[0].group.self, run[0].group.role), [], [], map[], [], {}, map[])
    && forall n {:trigger actions[n]} | 0 <= n < |actions| ::
         Enabled(run[n], actions[n]) && run[n + 1] == Step(run[n], actions[n])
  }

  // ----- what every step keeps -----

  /** Requests still queued, and jobs in hand, are those asked, each rid once. */
  ghost predicate Listed(queue: seq<R.Incoming>, jobs: seq<P.Job>, asked: map<string, string>) {
    && (forall i | 0 <= i < |queue| && RidIn(queue[i].message).Some? :: RidIn(queue[i].message).value in asked)
    && (forall i | 0 <= i < |jobs| :: jobs[i].rid in asked)
    && (forall i, j | 0 <= i < j < |queue| && RidIn(queue[i].message).Some? ::
          RidIn(queue[i].message) != RidIn(queue[j].message))
    && (forall i, j | 0 <= i < j < |jobs| :: jobs[i].rid != jobs[j].rid)
    && (forall i, j | 0 <= i < |queue| && 0 <= j < |jobs| :: RidIn(queue[i].message) != Some(jobs[j].rid))
  }

  ghost predicate OnceEach(s: State) {
    Listed(s.queue, s.jobs, s.asked)
  }

  predicate Answerable(s: State, rid: string) {
    || (exists i :: 0 <= i < |s.queue| && RidIn(s.queue[i].message) == Some(rid))
    || (exists i :: 0 <= i < |s.jobs| && s.jobs[i].rid == rid)
  }

  predicate IsReplyTo(e: Sent, rid: string) {
    e.rid == rid && G.KindOf(e.message) == "rpc_rep"
  }

  ghost predicate Replied(s: State, rid: string) {
    exists e :: e in s.sent && IsReplyTo(e, rid)
  }

  /** What was replied to is asked, and neither queued nor in hand any more. */
  ghost predicate RepliedIsDone(s: State) {
    forall e | e in s.sent && G.KindOf(e.message) == "rpc_rep" :: e.rid in s.asked && !Answerable(s, e.rid)
  }

  /** The group's table never names anybody but the peer that asked, and no answer went elsewhere. */
  ghost predicate OnlyRequesters(s: State) {
    && (forall rid | rid in s.group.origins :: rid in s.asked && s.group.origins[rid] == s.asked[rid])
    && (forall e | e in s.sent :: e.rid in s.asked && e.targets.Keys <= {s.asked[e.rid]})
  }

  lemma AnswersAreAnswers(s: State, a: Action)
    requires Enabled(s, a) && AnswerOf(s, a).Some?
    ensures var (rid, message) := AnswerOf(s, a).value;
            && G.RidOf(message) == rid && G.IsAnswer(message)
            && G.KindOf(message) == (if a.Receive? then "rpc_ack" else "rpc_rep")
    ensures a.Receive? ==> RidIn(s.queue[a.i].message) == Some(AnswerOf(s, a).value.0)
    ensures a.Finish? ==> s.jobs[a.i].rid == AnswerOf(s, a).value.0
  {
  }

  lemma UnqueuedStaysListed(queue: seq<R.Incoming>, jobs: seq<P.Job>, asked: map<string, string>, i: nat)
    requires Listed(queue, jobs, asked) && i < |queue|
    ensures Listed(Without(queue, i), jobs, asked)
    ensures RidIn(queue[i].message).Some? ==> forall k | 0 <= k < |queue| - 1 ::
              RidIn(Without(queue, i)[k].message) != RidIn(queue[i].message)
  {
  }

  lemma TakenUpStaysListed(queue: seq<R.Incoming>, jobs: seq<P.Job>, asked: map<string, string>, i: nat, job: P.Job)
    requires Listed(queue, jobs, asked) && i < |queue| && RidIn(queue[i].message) == Some(job.rid)
    ensures Listed(Without(queue, i), jobs + [job], asked)
  {
    UnqueuedStaysListed(queue, jobs, asked, i);
  }

  lemma FinishedStaysListed(queue: seq<R.Incoming>, jobs: seq<P.Job>, asked: map<string, string>, i: nat)
    requires Listed(queue, jobs, asked) && i < |jobs|
    ensures Listed(queue, Without(jobs, i), asked)
  {
  }

  lemma ArrivedStaysListed(queue: seq<R.Incoming>, jobs: seq<P.Job>, asked: map<string, string>, request: R.Incoming)
    requires Listed(queue, jobs, asked)
    requires RidIn(request.message).Some? ==> RidIn(request.message).value !in asked
    ensures var asked' := if RidIn(request.message).Some? then asked[RidIn(request.message).value := request.from] else asked;
            Listed(queue, jobs, asked') && Listed(queue + [request], jobs, asked')
  {
  }

  lemma StepKeepsOnce(s: State, a: Action)
    requires Enabled(s, a) && OnceEach(s)
    ensures OnceEach(Step(s, a))
  {
    match a
    case Arrives(request, _) => ArrivedStaysListed(s.queue, s.jobs, s.asked, request);
    case Receive(i, _) =>
      UnqueuedStaysListed(s.queue, s.jobs, s.asked, i);
      if AnswerOf(s, a).Some? {
        TakenUpStaysListed(s.queue, s.jobs, s.asked, i, P.Accept(P.WebRtc, s.queue[i].from, s.queue[i].message).value);
      }
    case Finish(i, _, _) => FinishedStaysListed(s.queue, s.jobs, s.asked, i);
    case HandOver(_) =>
    case Channel(_, _) =>
    case Other(_) =>
  }

  /** Nothing asked becomes answerable again. */
  lemma AnswerableWasSo(s: State, a: Action, rid: string)
    requires Enabled(s, a) && rid in s.asked && Answerable(Step(s, a), rid)
    ensures Answerable(s, rid)
  {
    var s' := Step(s, a);
    if i :| 0 <= i < |s'.queue| && RidIn(s'.queue[i].message) == Some(rid) {
      var k := if a.Receive? && i >= a.i then i + 1 else i;
      assert 0 <= k < |s.queue| && RidIn(s.queue[k].message) == Some(rid);
    } else {
      var i :| 0 <= i < |s'.jobs| && s'.jobs[i].rid == rid;
      if a.Receive? && i == |s.jobs| {
        assert RidIn(s.queue[a.i].message) == Some(rid);
      } else {
        var k := if a.Finish? && i >= a.i then i + 1 else i;
        assert 0 <= k < |s.jobs| && s.jobs[k].rid == rid;
      }
    }
  }

  lemma FinishedIsDone(s: State, a: Action)
    requires Enabled(s, a) && OnceEach(s) && a.Finish?
    ensures !Answerable(Step(s, a), s.jobs[a.i].rid)
  {
  }

  lemma StepKeepsDone(s: State, a: Action)
    requires Enabled(s, a) && OnceEach(s) && RepliedIsDone(s)
    ensures RepliedIsDone(Step(s, a))
  {
    var s' := Step(s, a);
    forall e | e in s'.sent && G.KindOf(e.message) == "rpc_rep" ensures e.rid in s'.asked && !Answerable(s', e.rid) {
      if e in s.sent {
        if Answerable(s', e.rid) {
          AnswerableWasSo(s, a, e.rid);
        }
      } else {
        AnswersAreAnswers(s, a);
        assert "rpc_ack"[4] != "rpc_rep"[4];
        FinishedIsDone(s, a);
      }
    }
  }

  lemma OriginsStayHonest(s: State, a: Action)
    requires Enabled(s, a) && OnlyRequesters(s)
    ensures var s' := Step(s, a);
            forall rid | rid in s'.group.origins :: rid in s'.asked && s'.group.origins[rid] == s'.asked[rid]
  {
    forall rid | rid in Step(s, a).group.origins
      ensures rid in Step(s, a).asked && Step(s, a).group.origins[rid] == Step(s, a).asked[rid]
    {
      if OpOf(s, a).Some? {
        G.StepOrigins(s.group, OpOf(s, a).value, rid);
      }
    }
  }

  lemma StepKeepsRequesters(s: State, a: Action)
    requires Enabled(s, a) && OnceEach(s) && OnlyRequesters(s)
    ensures OnlyRequesters(Step(s, a))
  {
    OriginsStayHonest(s, a);
    if AnswerOf(s, a).Some? {
      AnswersAreAnswers(s, a);
    }
  }

  ghost predicate Inv(s: State) {
    OnceEach(s) && RepliedIsDone(s) && OnlyRequesters(s)
  }

  lemma StepKeepsInv(s: State, a: Action)
    requires Enabled(s, a) && Inv(s)
    ensures Inv(Step(s, a))
  {
    StepKeepsOnce(s, a);
    StepKeepsDone(s, a);
    StepKeepsRequesters(s, a);
  }

  lemma {:induction false} InvInEveryRun(run: seq<State>, actions: seq<Action>, n: nat)
    requires IsRun(run, actions) && n < |run|
    ensures Inv(run[n])
  {
    if n > 0 {
      InvInEveryRun(run, actions, n - 1);
      StepKeepsInv(run[n - 1], actions[n - 1]);
    }
  }

  // ----- where answers go -----

  predicate IsRequest(a: Action, rid: string) {
    a.Arrives? && RidIn(a.request.message) == Some(rid)
  }

  lemma {:induction false} AskedSince(run: seq<State>, actions: seq<Action>, k: nat, n: nat, rid: string)
    requires IsRun(run, actions) && k < n < |run| && IsRequest(actions[k], rid)
    ensures rid in run[n].asked && run[n].asked[rid] == actions[k].request.from
  {
    assert run[n] == Step(run[n - 1], actions[n - 1]);
    if k < n - 1 {
      AskedSince(run, actions, k, n - 1, rid);
    }
  }

  /** In every run, with fresh rids: whatever answer to a request is sent, only the peer that sent the
      request is chosen for it, and only that peer can get it. */
  lemma OnlyTheRequesterHears(run: seq<State>, actions: seq<Action>, k: nat, n: nat, rid: string, place: nat)
    requires IsRun(run, actions) && k < n < |run| && IsRequest(actions[k], rid)
    requires place < |run[n].sent| && run[n].sent[place].rid == rid
    ensures run[n].sent[place].targets.Keys <= {actions[k].request.from}
    ensures place in run[n].handed ==> run[n].handed[place] <= {actions[k].request.from}
  {
    InvInEveryRun(run, actions, n);
    AskedSince(run, actions, k, n, rid);
    HandedInEveryRun(run, actions, n);
  }

  /** An answer went out to chosen peers only. */
  ghost predicate HandedToChosen(s: State) {
    forall place | place in s.handed :: place < |s.sent| && s.handed[place] <= s.sent[place].targets.Keys
  }

  lemma {:induction false} HandedInEveryRun(run: seq<State>, actions: seq<Action>, n: nat)
    requires IsRun(run, actions) && n < |run|
    ensures HandedToChosen(run[n])
  {
    if n > 0 {
      HandedInEveryRun(run, actions, n - 1);
      SentStays(run[n - 1], actions[n - 1]);
      assert run[n] == Step(run[n - 1], actions[n - 1]);
    }
  }

  lemma SentStays(s: State, a: Action)
    requires Enabled(s, a)
    ensures s.sent <= Step(s, a).sent
    ensures forall place | place in s.handed :: place in Step(s, a).handed && Step(s, a).handed[place] == s.handed[place]
    ensures forall place | place in Step(s, a).handed && place !in s.handed ::
              a == HandOver(place) && Step(s, a).handed[place] == Reached(s, s.sent[place])
  {
  }

  /** A step that makes the group forget what a peer asked. */
  predicate Forgets(s: State, a: Action, remote: string) {
    a.Other? && G.Forgets(s.group, a.op, remote)
  }

  /** Since a place in the run no hello has replaced the peer's link and the group was not cleared. */
  ghost predicate Remembered(run: seq<State>, actions: seq<Action>, k: nat, n: nat, remote: string)
    requires |run| == |actions| + 1 && n < |run|
  {
    forall j {:trigger actions[j]} | k < j < n :: !Forgets(run[j], actions[j], remote)
  }

  lemma OneStepKeepsOrigin(s: State, a: Action, rid: string, remote: string)
    requires Enabled(s, a) && rid in s.asked && !Replied(Step(s, a), rid)
    ensures !Replied(s, rid)
    ensures G.HasOrigin(Step(s, a).group, rid, remote)
            <==> G.HasOrigin(s.group, rid, remote) && !Forgets(s, a, remote)
  {
    forall e | e in s.sent ensures e in Step(s, a).sent {
    }
    if AnswerOf(s, a).Some? {
      AnswersAreAnswers(s, a);
      assert Choose(s.group, AnswerOf(s, a).value.0, AnswerOf(s, a).value.1) in Step(s, a).sent;
    }
    if OpOf(s, a).Some? {
      G.OriginKeptExactly(s.group, OpOf(s, a).value, rid, remote);
    }
  }

  lemma {:induction false} OriginSince(run: seq<State>, actions: seq<Action>, k: nat, n: nat, rid: string)
    requires IsRun(run, actions) && k < n < |run| && IsRequest(actions[k], rid) && !Replied(run[n], rid)
    ensures G.HasOrigin(run[n].group, rid, actions[k].request.from)
            <==> Remembered(run, actions, k, n, actions[k].request.from)
  {
    assert run[n] == Step(run[n - 1], actions[n - 1]);
    if k < n - 1 {
      AskedSince(run, actions, k, n - 1, rid);
      OneStepKeepsOrigin(run[n - 1], actions[n - 1], rid, actions[k].request.from);
      OriginSince(run, actions, k, n - 1, rid);
    }
  }

  /** In every run, with fresh rids: the link chosen for an acknowledgement or reply is that of the peer
      that asked when it has one and since it asked no hello has replaced its link and the group was
      not cleared; otherwise none is chosen. */
  lemma AnswersChooseTheRequesterExactly(run: seq<State>, actions: seq<Action>, k: nat, n: nat)
    requires IsRun(run, actions) && k < n < |actions| && AnswerOf(run[n], actions[n]).Some?
    requires IsRequest(actions[k], AnswerOf(run[n], actions[n]).value.0)
    ensures var (rid, message), from := AnswerOf(run[n], actions[n]).value, actions[k].request.from;
            run[n + 1].sent == run[n].sent + [ChosenFor(run[n].group, rid, message, from, Remembered(run, actions, k, n, from))]
  {
    var s, a := run[n], actions[n];
    var answer, from := AnswerOf(s, a).value, actions[k].request.from;
    var rid, message := answer.0, answer.1;
    InvInEveryRun(run, actions, n);
    AnswersAreAnswers(s, a);
    AskedSince(run, actions, k, n, rid);
    NotRepliedYet(s, a);
    OriginSince(run, actions, k, n, rid);
    ChoiceExactly(s, rid, message);
    assert run[n + 1] == Step(s, a);
  }

  /** The link of one peer, if it has one and is remembered, or none. */
  function ChosenFor(g: G.Group, rid: string, message: Value, from: string, remembered: bool): Sent {
    Sent(rid, message, if from in g.peers && remembered then map[from := g.peers[from].id] else map[])
  }

  lemma NotRepliedYet(s: State, a: Action)
    requires Enabled(s, a) && AnswerOf(s, a).Some? && RepliedIsDone(s)
    ensures !Replied(s, AnswerOf(s, a).value.0)
  {
    AnswersAreAnswers(s, a);
    assert Answerable(s, AnswerOf(s, a).value.0);
  }

  lemma ChoiceExactly(s: State, rid: string, message: Value)
    requires OnlyRequesters(s) && rid in s.asked && G.IsAnswer(message) && G.RidOf(message) == rid
    ensures Choose(s.group, rid, message)
            == ChosenFor(s.group, rid, message, s.asked[rid], G.HasOrigin(s.group, rid, s.asked[rid]))
  {
  }

  lemma {:induction false} SentIsFinal(run: seq<State>, actions: seq<Action>, n: nat, m: nat)
    requires IsRun(run, actions) && n <= m < |run|
    ensures run[n].sent <= run[m].sent
  {
    if n < m {
      SentIsFinal(run, actions, n, m - 1);
      SentStays(run[m - 1], actions[m - 1]);
    }
  }

  /** Whom an answer reaches, exactly, in every run with fresh rids: the peer that asked, when it has a
      link as the answer is sent, since it asked no hello has replaced its link and the group was not
      cleared, and that very link is connected when the answer is handed to it; otherwise nobody. */
  lemma AnswersReachTheRequesterExactly(run: seq<State>, actions: seq<Action>, k: nat, n: nat, m: nat)
    requires IsRun(run, actions) && k < n < m < |actions| && AnswerOf(run[n], actions[n]).Some?
    requires IsRequest(actions[k], AnswerOf(run[n], actions[n]).value.0)
    requires actions[m] == HandOver(|run[n].sent|)
    ensures var from, place := actions[k].request.from, |run[n].sent|;
            && place in run[m + 1].handed
            && run[m + 1].handed[place]
               == if from in run[n].group.peers && Remembered(run, actions, k, n, from)
                     && run[n].group.peers[from].id in run[m].open
                  then {from} else {}
  {
    var e := StaysChosen(run, actions, k, n, m);
    HandsOver(run[m], |run[n].sent|, e);
    assert run[m + 1] == Step(run[m], actions[m]);
  }

  lemma StaysChosen(run: seq<State>, actions: seq<Action>, k: nat, n: nat, m: nat) returns (e: Sent)
    requires IsRun(run, actions) && k < n < m < |actions| && AnswerOf(run[n], actions[n]).Some?
    requires IsRequest(actions[k], AnswerOf(run[n], actions[n]).value.0)
    ensures |run[n].sent| < |run[m].sent| && run[m].sent[|run[n].sent|] == e
    ensures var from := actions[k].request.from;
            e.targets == if from in run[n].group.peers && Remembered(run, actions, k, n, from)
                         then map[from := run[n].group.peers[from].id] else map[]
  {
    AnswersChooseTheRequesterExactly(run, actions, k, n);
    SentIsFinal(run, actions, n + 1, m);
    e := run[n + 1].sent[|run[n].sent|];
  }

  lemma HandsOver(s: State, place: nat, e: Sent)
    requires Enabled(s, HandOver(place)) && s.sent[place] == e
    ensures place in Step(s, HandOver(place)).handed && Step(s, HandOver(place)).handed[place] == Reached(s, e)
  {
  }

  /** Handed over at once it reaches the peer that asked when the link is connected as the answer is
      sent. */
  lemma AnswersReachAtOnceExactly(run: seq<State>, actions: seq<Action>, k: nat, n: nat, m: nat)
    requires IsRun(run, actions) && k < n < m < |actions| && m == n + 1 && AnswerOf(run[n], actions[n]).Some?
    requires IsRequest(actions[k], AnswerOf(run[n], actions[n]).value.0)
    requires actions[m] == HandOver(|run[n].sent|)
    ensures var from, place := actions[k].request.from, |run[n].sent|;
            && place in run[m + 1].handed
            && run[m + 1].handed[place]
               == if from in run[n].group.peers && Remembered(run, actions, k, n, from)
                     && run[n].group.peers[from].connected
                  then {from} else {}
  {
    AnswersReachTheRequesterExactly(run, actions, k, n, m);
    StillOpen(run, actions, n, actions[k].request.from);
  }

  lemma StillOpen(run: seq<State>, actions: seq<Action>, n: nat, remote: string)
    requires IsRun(run, actions) && n < |actions| && AnswerOf(run[n], actions[n]).Some?
    ensures remote in run[n].group.peers ==>
              (run[n].group.peers[remote].connected <==> run[n].group.peers[remote].id in run[n + 1].open)
  {
    OpenInEveryRun(run, actions, n);
    AnsweringOpensNothing(run[n], actions[n]);
    assert run[n + 1] == Step(run[n], actions[n]);
  }

  lemma AnsweringOpensNothing(s: State, a: Action)
    requires Enabled(s, a) && AnswerOf(s, a).Some?
    ensures Step(s, a).open == s.open
  {
  }

  // ----- which links are open -----

  /** The open links are links that were made, each in the table under one remote at most; those in the
      table are open when they say they are connected. */
  ghost predicate OpenMatches(g: G.Group, open: set<nat>) {
    && (forall id | id in open :: id < g.created)
    && (forall r | r in g.peers :: g.peers[r].id < g.created && (g.peers[r].connected <==> g.peers[r].id in open))
    && (forall r, q | r in g.peers && q in g.peers && g.peers[r].id == g.peers[q].id :: r == q)
  }

  lemma SignalKeepsOpen(g: G.Group, message: Value, open: set<nat>)
    requires OpenMatches(g, open)
    ensures OpenMatches(G.OnSignal(g, message), open)
  {
    var sender := G.SenderOf(g.self, g.role, message);
    if sender.Some? && !g.stopped {
      var g1 := G.NoteRestart(g, sender.value, message);
      NoteKeepsOpen(g, sender.value, message, open);
      DropKeepsOpen(g1, sender.value, open);
      AddKeepsOpen(g1, sender.value, open);
      AddKeepsOpen(G.DropPeer(g1, sender.value), sender.value, open);
    }
  }

  lemma NoteKeepsOpen(g: G.Group, remote: string, message: Value, open: set<nat>)
    requires OpenMatches(g, open)
    ensures OpenMatches(G.NoteRestart(g, remote, message), open)
  {
    assert G.NoteRestart(g, remote, message).peers == g.peers && G.NoteRestart(g, remote, message).created == g.created;
  }

  lemma DropKeepsOpen(g: G.Group, remote: string, open: set<nat>)
    requires OpenMatches(g, open)
    ensures OpenMatches(G.DropPeer(g, remote), open)
  {
  }

  lemma AddKeepsOpen(g: G.Group, remote: string, open: set<nat>)
    requires OpenMatches(g, open)
    ensures OpenMatches(G.AddPeer(g, remote), open)
  {
  }

  lemma OtherOpsLeaveLinks(g: G.Group, op: G.Op)
    requires G.Enabled(g, op) && !op.Signal? && !op.Connectivity?
    ensures var g' := G.Step(g, op);
            && g'.created == g.created
            && forall r | r in g'.peers ::
                 r in g.peers && g'.peers[r].id == g.peers[r].id && g'.peers[r].connected == g.peers[r].connected
  {
  }

  lemma OpKeepsOpen(g: G.Group, op: G.Op, open: set<nat>)
    requires G.Enabled(g, op) && OpenMatches(g, open)
    ensures OpenMatches(G.Step(g, op), if op.Connectivity? then Toggle(open, g.peers[op.remote].id, op.up) else open)
  {
    if op.Signal? {
      SignalKeepsOpen(g, op.message, open);
    } else if op.Connectivity? {
      ToggleKeepsOpen(g, op.remote, op.up, open);
    } else {
      OtherOpsLeaveLinks(g, op);
    }
  }

  lemma ToggleKeepsOpen(g: G.Group, remote: string, up: bool, open: set<nat>)
    requires OpenMatches(g, open) && remote in g.peers
    ensures OpenMatches(G.Step(g, G.Connectivity(remote, up)), Toggle(open, g.peers[remote].id, up))
  {
  }

  lemma {:induction false} OpenInEveryRun(run: seq<State>, actions: seq<Action>, n: nat)
    requires IsRun(run, actions) && n < |run|
    ensures OpenMatches(run[n].group, run[n].open)
  {
    if n > 0 {
      OpenInEveryRun(run, actions, n - 1);
      var s, a := run[n - 1], actions[n - 1];
      if OpOf(s, a).Some? {
        OpKeepsOpen(s.group, OpOf(s, a).value, s.open);
      }
    }
  }

  // ----- what each step sends -----

  /** What a responder takes up and what it sends: a request that is well-formed and acknowledged becomes a
      job with its peer, rid and payload, a job that ends with an answer sends that, and nothing else sends. */
  lemma WhatIsSentExactly(run: seq<State>, actions: seq<Action>, n: nat)
    requires IsRun(run, actions) && n < |actions|
    ensures actions[n].Arrives? ==>
              run[n + 1].queue == run[n].queue + (if actions[n].queued then [actions[n].request] else [])
              && run[n + 1].jobs == run[n].jobs && run[n + 1].sent == run[n].sent
    ensures actions[n].Receive? ==> TakesUp(run[n], run[n + 1], actions[n].i, actions[n].ackSent)
    ensures actions[n].Finish? ==> Ends(run[n], run[n + 1], actions[n].i, actions[n].outcome, actions[n].replySent)
    ensures actions[n].HandOver? || actions[n].Channel? || actions[n].Other? ==>
              run[n + 1].queue == run[n].queue && run[n + 1].jobs == run[n].jobs && run[n + 1].sent == run[n].sent
    ensures actions[n].Channel? ==>
              run[n + 1].open == run[n].open - {actions[n].link} + (if actions[n].up then {actions[n].link} else {})
  {
    assert Enabled(run[n], actions[n]) && run[n + 1] == Step(run[n], actions[n]);
  }

  predicate IsSending(s: State, s': State, rid: string, message: Value) {
    |s'.sent| == |s.sent| + 1 && s'.sent[..|s.sent|] == s.sent
    && s'.sent[|s.sent|].rid == rid && s'.sent[|s.sent|].message == message
  }

  predicate TakesUp(s: State, s': State, i: nat, ackSent: bool) {
    && i < |s.queue| && s'.queue == s.queue[..i] + s.queue[i + 1..]
    && var (from, message) := (s.queue[i].from, s.queue[i].message);
       if ackSent && message.Dict? && "rid" in message.fields && message.fields["rid"].Str? && "payload" in message.fields then
         && s'.jobs == s.jobs + [P.Job(from, message.fields["rid"].text, message.fields["payload"])]
         && IsSending(s, s', message.fields["rid"].text, P.AckMessage(P.WebRtc, message.fields["rid"].text))
       else s'.jobs == s.jobs && s'.sent == s.sent
  }

  predicate Ends(s: State, s': State, i: nat, outcome: R.Outcome, replySent: bool) {
    && i < |s.jobs| && s'.jobs == s.jobs[..i] + s.jobs[i + 1..] && s'.queue == s.queue
    && if outcome.Answer? && replySent then
         IsSending(s, s', s.jobs[i].rid, P.ReplyMessage(P.WebRtc, s.jobs[i].rid, outcome.response))
       else s'.sent == s.sent
  }

  /** Nothing the group does besides recording requests and sending answers waits for a responder. */
  lemma TheGroupIsFree(s: State, op: G.Op)
    requires G.Enabled(s.group, op) && !op.Request?
    ensures (op.SendData? ==> G.KindOf(op.message) != "rpc_ack" && G.KindOf(op.message) != "rpc_rep") ==> Enabled(s, Other(op))
  {
  }

  // ----- a request can be answered -----

  lemma Extend(run: seq<State>, actions: seq<Action>, a: Action) returns (run': seq<State>, actions': seq<Action>)
    requires IsRun(run, actions) && Enabled(run[|actions|], a)
    ensures IsRun(run', actions') && run'[|actions'|] == Step(run[|actions|], a)
  {
    run', actions' := run + [Step(run[|actions|], a)], actions + [a];
  }

  /** A group with one connected peer, whose link is the first. */
  function WithPeer(self: string, role: string, remote: string, origins: map<string, string>): G.Group {
    G.Initial(self, role).(peers := map[remote := G.Peer(0, map[], true)], restartIds := map[remote := "1"], created := 1,
                           log := [G.Restarted(remote), G.Created(remote)], origins := origins)
  }

  lemma APeerConnects(self: string, role: string, remote: string) returns (run: seq<State>, actions: seq<Action>)
    requires remote != "" && remote != self
    ensures IsRun(run, actions)
    ensures run[|actions|] == State(WithPeer(self, role, remote, map[]), [], [], map[], [], {0}, map[])
  {
    var h := G.HelloOf(remote, "1");
    G.HelloIsHeard(self, role, remote, "1");
    var g := G.OnSignal(G.Initial(self, role), h);
    assert g == WithPeer(self, role, remote, map[]).(peers := map[remote := G.Peer(0, map[], false)]);
    run, actions := [State(G.Initial(self, role), [], [], map[], [], {}, map[])], [];
    run, actions := Extend(run, actions, Other(G.Signal(h)));
    assert run[|actions|] == State(g, [], [], map[], [], {}, map[]);
    run, actions := Extend(run, actions, Other(G.Connectivity(remote, true)));
    assert {} + {0 as nat} == {0};
    assert g.peers[remote := G.Peer(0, map[], true)] == map[remote := G.Peer(0, map[], true)];
  }

  /** What has been sent to the one peer, over its one link. */
  function ToPeer(rid: string, message: Value, remote: string): Sent {
    Sent(rid, message, map[remote := 0])
  }

  lemma OneIsChosen(self: string, role: string, remote: string, rid: string, message: Value)
    requires G.IsAnswer(message) && G.RidOf(message) == rid
    ensures Choose(WithPeer(self, role, remote, map[rid := remote]), rid, message) == ToPeer(rid, message, remote)
  {
    assert G.Targets(WithPeer(self, role, remote, map[rid := remote]), message) == {remote};
  }

  lemma AnswerKinds(rid: string, response: Value)
    ensures G.IsAnswer(P.AckMessage(P.WebRtc, rid)) && G.RidOf(P.AckMessage(P.WebRtc, rid)) == rid
    ensures G.KindOf(P.AckMessage(P.WebRtc, rid)) == "rpc_ack" != "rpc_rep"
    ensures G.RidOf(P.ReplyMessage(P.WebRtc, rid, response)) == rid && G.KindOf(P.ReplyMessage(P.WebRtc, rid, response)) == "rpc_rep"
  {
    assert "rpc_ack"[4] != "rpc_rep"[4];
    assert "type"[0] == 't' && "rid"[0] == 'r' && "payload"[0] == 'p';
  }

  lemma ItIsAcknowledged(self: string, role: string, remote: string, service: string, rid: string, payload: Value)
    returns (run: seq<State>, actions: seq<Action>)
    requires remote != "" && remote != self
    ensures IsRun(run, actions)
    ensures run[|actions|] == State(WithPeer(self, role, remote, map[rid := remote]), [], [P.Job(remote, rid, payload)],
                                    map[rid := remote], [ToPeer(rid, P.AckMessage(P.WebRtc, rid), remote)], {0}, map[])
  {
    var request := R.Incoming(remote, P.RequestMessage(P.WebRtc, remote, service, rid, payload));
    P.RequestRoundTrip(P.WebRtc, remote, service, rid, payload);
    AnswerKinds(rid, Null);
    OneIsChosen(self, role, remote, rid, P.AckMessage(P.WebRtc, rid));
    assert RidIn(request.message) == Some(rid);
    run, actions := APeerConnects(self, role, remote);
    run, actions := Extend(run, actions, Arrives(request, true));
    assert run[|actions|] == State(WithPeer(self, role, remote, map[rid := remote]), [request], [], map[rid := remote], [], {0}, map[]);
    run, actions := Extend(run, actions, Receive(0, true));
  }

  lemma HandedOverNow(run: seq<State>, actions: seq<Action>, place: nat, rid: string, message: Value, remote: string)
    returns (run': seq<State>, actions': seq<Action>)
    requires IsRun(run, actions) && place < |run[|actions|].sent| && place !in run[|actions|].handed
    requires run[|actions|].sent[place] == ToPeer(rid, message, remote) && run[|actions|].open == {0}
    ensures IsRun(run', actions')
    ensures run'[|actions'|] == run[|actions|].(handed := run[|actions|].handed[place := {remote}])
  {
    assert Reached(run[|actions|], ToPeer(rid, message, remote)) == {remote};
    run', actions' := Extend(run, actions, HandOver(place));
  }

  /** The promise is not empty: any request of any peer has a run in which that peer gets the
      acknowledgement and the reply. */
  lemma ARequestIsAnsweredExample(self: string, role: string, remote: string, service: string, rid: string,
                                  payload: Value, response: Value)
    returns (run: seq<State>, actions: seq<Action>)
    requires remote != "" && remote != self
    ensures IsRun(run, actions)
    ensures var s := run[|actions|];
            && s.asked == map[rid := remote] && s.queue == [] && s.jobs == [] && |s.sent| == 2
            && s.sent[0].message == P.AckMessage(P.WebRtc, rid) && s.sent[1].message == P.ReplyMessage(P.WebRtc, rid, response)
            && s.handed == map[0 := {remote}, 1 := {remote}]
  {
    var ack, reply := P.AckMessage(P.WebRtc, rid), P.ReplyMessage(P.WebRtc, rid, response);
    AnswerKinds(rid, response);
    OneIsChosen(self, role, remote, rid, reply);
    run, actions := ItIsAcknowledged(self, role, remote, service, rid, payload);
    run, actions := HandedOverNow(run, actions, 0, rid, ack, remote);
    run, actions := Extend(run, actions, Finish(0, R.Answer(response), true));
    assert run[|actions|].sent[1] == ToPeer(rid, reply, remote);
    run, actions := HandedOverNow(run, actions, 1, rid, reply, remote);
  }
}
