/** The server node: one I/O thread that receives requests and sends replies, and a pool of workers
    that handle them, sharing a job queue and a reply queue. */
module ServerPool {
  import opened Values

  datatype Request = Request(body: Value, ctx: Value)

  /** What handling one request comes to; a schema answers a notification with nothing. */
  datatype Outcome = Answer(response: Value) | Silent | Threw

  /** The outcome of the k-th request dispatched, whatever the handler does. */
  type Handler = (nat, Value) -> Outcome

  datatype Job = Job(id: nat, request: Request)
  datatype Reply = Reply(id: nat, response: Value, ctx: Value)
  datatype Reason = HandlerThrew | NoReplyWanted | SendFailed
  datatype Drop = Drop(id: nat, reason: Reason)

  /** A worker asleep on the condition, about to evaluate it, or past it. */
  datatype Worker = Asleep | Checking | Handling(job: Job) | Queuing(reply: Reply) | Exited

  /** Where the I/O thread is: between two calls of process, inside one, or in cleanup. */
  datatype Io =
    | Between
    | Draining
    | Sending(reply: Reply)
    | Receiving
    | Notifying
    | Stopping
    | Waking
    | Joining
    | Done

  /** `wakeUps` counts notify_all calls still to come from interrupt; `stopMark` is how many
      requests had been dispatched when the pool was first told to stop. */
  datatype State = State(
    dispatched: seq<Request>,
    jobs: seq<Job>,
    workers: seq<Worker>,
    replies: seq<Reply>,
    io: Io,
    sent: seq<Reply>,
    dropped: seq<Drop>,
    stopping: bool,
    stopMark: nat,
    wakeUps: nat)

  function Start(pool: nat): State {
    State([], [], seq(pool, i => Checking), [], Between, [], [], false, 0, 0)
  }

  datatype Action =
    | BeginProcess
    | PopReply
    | SendDone(ok: bool)
    | Drained
    | NothingReceived
    | Dispatch(request: Request)
    | NotifyOne(sleeper: Option<nat>)
    | LeaveLoop
    | StopInCleanup
    | NotifyInCleanup
    | Joined
    | StopInInterrupt
    | NotifyInInterrupt
    | Wake(worker: nat)
    | Check(worker: nat)
    | Handled(worker: nat)
    | Queue(worker: nat)

  predicate IsIn(s: State, i: nat, w: Worker) {
    i < |s.workers| && s.workers[i] == w
  }

  predicate Enabled(s: State, a: Action) {
    match a
    case BeginProcess => s.io.Between?
    case PopReply => s.io.Draining? && s.replies != []
    case SendDone(_) => s.io.Sending?
    case Drained => s.io.Draining? && s.replies == []
    case NothingReceived => s.io.Receiving?
    case Dispatch(_) => s.io.Receiving?
    case NotifyOne(None) => s.io.Notifying? && forall i | 0 <= i < |s.workers| :: !s.workers[i].Asleep?
    case NotifyOne(Some(i)) => s.io.Notifying? && IsIn(s, i, Asleep)
    case LeaveLoop => s.io.Between?
    case StopInCleanup => s.io.Stopping?
    case NotifyInCleanup => s.io.Waking?
    case Joined => s.io.Joining? && forall i | 0 <= i < |s.workers| :: s.workers[i].Exited?
    case StopInInterrupt => true
    case NotifyInInterrupt => s.wakeUps > 0
    case Wake(i) => IsIn(s, i, Asleep)
    case Check(i) => IsIn(s, i, Checking)
    case Handled(i) => i < |s.workers| && s.workers[i].Handling?
    case Queue(i) => i < |s.workers| && s.workers[i].Queuing?
  }

  function AllAwake(workers: seq<Worker>): (r: seq<Worker>)
    ensures |r| == |workers|
  {
    seq(|workers|, i requires 0 <= i < |workers| => if workers[i].Asleep? then Checking else workers[i])
  }

  function Stopped(s: State): State {
    if s.stopping then s else s.(stopping := true, stopMark := |s.dispatched|)
  }

  /** The wait of a worker, once it holds the job mutex: leave, sleep, or take the oldest job. */
  datatype Decision = Leave | Sleep | Take(job: Job)

  function Decide(jobs: seq<Job>, stopping: bool): Decision {
    if jobs != [] then Take(jobs[0]) else if stopping then Leave else Sleep
  }

  function Checked(s: State, i: nat): State
    requires i < |s.workers|
  {
    match Decide(s.jobs, s.stopping)
    case Leave => s.(workers := s.workers[i := Exited])
    case Sleep => s.(workers := s.workers[i := Asleep])
    case Take(job) => s.(jobs := s.jobs[1..], workers := s.workers[i := Handling(job)])
  }

  function AfterHandling(h: Handler, s: State, i: nat): State
    requires i < |s.workers| && s.workers[i].Handling?
  {
    var job := s.workers[i].job;
    match h(job.id, job.request.body)
    case Answer(response) => s.(workers := s.workers[i := Queuing(Reply(job.id, response, job.request.ctx))])
    case Silent => s.(workers := s.workers[i := Checking], dropped := s.dropped + [Drop(job.id, NoReplyWanted)])
    case Threw => s.(workers := s.workers[i := Checking], dropped := s.dropped + [Drop(job.id, HandlerThrew)])
  }

  function Step(h: Handler, s: State, a: Action): State
    requires Enabled(s, a)
  {
    match a
    case BeginProcess => s.(io := Draining)
    case PopReply => s.(io := Sending(s.replies[0]), replies := s.replies[1..])
    case SendDone(ok) =>
      if ok then s.(io := Draining, sent := s.sent + [s.io.reply])
      else s.(io := Draining, dropped := s.dropped + [Drop(s.io.reply.id, SendFailed)])
    case Drained => s.(io := Receiving)
    case NothingReceived => s.(io := Between)
    case Dispatch(request) =>
      s.(io := Notifying, dispatched := s.dispatched + [request],
         jobs := s.jobs + [Job(|s.dispatched|, request)])
    case NotifyOne(None) => s.(io := Between)
    case NotifyOne(Some(i)) => s.(io := Between, workers := s.workers[i := Checking])
    case LeaveLoop => s.(io := Stopping)
    case StopInCleanup => Stopped(s).(io := Waking)
    case NotifyInCleanup => s.(io := Joining, workers := AllAwake(s.workers))
    case Joined => s.(io := Done)
    case StopInInterrupt => Stopped(s).(wakeUps := s.wakeUps + 1)
    case NotifyInInterrupt => s.(wakeUps := s.wakeUps - 1, workers := AllAwake(s.workers))
    case Wake(i) => s.(workers := s.workers[i := Checking])
    case Check(i) => Checked(s, i)
    case Handled(i) => AfterHandling(h, s, i)
    case Queue(i) => s.(workers := s.workers[i := Checking], replies := s.replies + [s.workers[i].reply])
  }

  ghost predicate IsRun(h: Handler, pool: nat, run: seq<State>, actions: seq<Action>) {
    && |run| == |actions| + 1 && run[0] == Start(pool)
    && forall n {:trigger actions[n]} | 0 <= n < |actions| ::
         Enabled(run[n], actions[n]) && run[n + 1] == Step(h, run[n], actions[n])
  }

  // ----- conservation -----

  function JobIds(jobs: seq<Job>): (r: seq<nat>)
    ensures |r| == |jobs|
  {
    seq(|jobs|, i requires 0 <= i < |jobs| => jobs[i].id)
  }

  function ReplyIds(replies: seq<Reply>): (r: seq<nat>)
    ensures |r| == |replies|
  {
    seq(|replies|, i requires 0 <= i < |replies| => replies[i].id)
  }

  function DropIds(drops: seq<Drop>): (r: seq<nat>)
    ensures |r| == |drops|
  {
    seq(|drops|, i requires 0 <= i < |drops| => drops[i].id)
  }

  function Occurs(ids: seq<nat>, id: nat): nat {
    multiset(ids)[id]
  }

  function Holds(w: Worker, id: nat): nat {
    match w
    case Handling(job) => One(job.id == id)
    case Queuing(reply) => One(reply.id == id)
    case _ => 0
  }

  function InHands(workers: seq<Worker>, id: nat): nat {
    if workers == [] then 0 else Holds(workers[0], id) + InHands(workers[1..], id)
  }

  function InSending(io: Io, id: nat): nat {
    One(io.Sending? && io.reply.id == id)
  }

  /** In how many places a request is. */
  function Places(s: State, id: nat): nat {
    Occurs(JobIds(s.jobs), id) + InHands(s.workers, id) + Occurs(ReplyIds(s.replies), id) + InSending(s.io, id)
    + Occurs(ReplyIds(s.sent), id) + Occurs(DropIds(s.dropped), id)
  }

  lemma Pushed(ids: seq<nat>, x: nat, id: nat)
    ensures Occurs(ids + [x], id) == Occurs(ids, id) + One(x == id)
  {
  }

  lemma Popped(ids: seq<nat>, id: nat)
    requires ids != []
    ensures Occurs(ids, id) == One(ids[0] == id) + Occurs(ids[1..], id)
  {
    assert ids == [ids[0]] + ids[1..];
  }

  lemma {:induction false} HandsAfterChange(workers: seq<Worker>, i: nat, w: Worker, id: nat)
    requires i < |workers|
    ensures InHands(workers[i := w], id) + Holds(workers[i], id) == InHands(workers, id) + Holds(w, id)
  {
    if i == 0 {
      assert workers[0 := w][1..] == workers[1..];
    } else {
      HandsAfterChange(workers[1..], i - 1, w, id);
      assert workers[i := w][1..] == workers[1..][i - 1 := w];
    }
  }

  lemma {:induction false} HandsAwake(workers: seq<Worker>, id: nat)
    ensures InHands(AllAwake(workers), id) == InHands(workers, id)
  {
    if workers != [] {
      HandsAwake(workers[1..], id);
      assert AllAwake(workers)[1..] == AllAwake(workers[1..]);
    }
  }

  lemma {:induction false} NothingInNewHands(n: nat, id: nat)
    ensures InHands(seq(n, i => Checking), id) == 0
  {
    if n > 0 {
      NothingInNewHands(n - 1, id);
      assert seq(n, i => Checking)[1..] == seq(n - 1, i => Checking);
    }
  }

  lemma PoppedReplyMoves(h: Handler, s: State, a: Action, id: nat)
    requires Enabled(s, a) && a.PopReply?
    ensures Places(Step(h, s, a), id) == Places(s, id)
  {
    assert ReplyIds(s.replies)[1..] == ReplyIds(s.replies[1..]);
    Popped(ReplyIds(s.replies), id);
  }

  lemma SentReplyMoves(h: Handler, s: State, a: Action, id: nat)
    requires Enabled(s, a) && a.SendDone?
    ensures Places(Step(h, s, a), id) == Places(s, id)
  {
    var reply := s.io.reply;
    if a.ok {
      assert ReplyIds(s.sent + [reply]) == ReplyIds(s.sent) + [reply.id];
      Pushed(ReplyIds(s.sent), reply.id, id);
    } else {
      assert DropIds(s.dropped + [Drop(reply.id, SendFailed)]) == DropIds(s.dropped) + [reply.id];
      Pushed(DropIds(s.dropped), reply.id, id);
    }
  }

  lemma DispatchedJobAppears(h: Handler, s: State, a: Action, id: nat)
    requires Enabled(s, a) && a.Dispatch?
    ensures Places(Step(h, s, a), id) == Places(s, id) + One(id == |s.dispatched|)
  {
    assert JobIds(Step(h, s, a).jobs) == JobIds(s.jobs) + [|s.dispatched|];
    Pushed(JobIds(s.jobs), |s.dispatched|, id);
  }

  lemma TakenJobMoves(h: Handler, s: State, a: Action, id: nat)
    requires Enabled(s, a) && a.Check?
    ensures Places(Step(h, s, a), id) == Places(s, id)
  {
    var s' := Step(h, s, a);
    HandsAfterChange(s.workers, a.worker, s'.workers[a.worker], id);
    if s.jobs != [] {
      assert JobIds(s.jobs)[1..] == JobIds(s'.jobs);
      Popped(JobIds(s.jobs), id);
    }
  }

  lemma HandledMoves(h: Handler, s: State, a: Action, id: nat)
    requires Enabled(s, a) && a.Handled?
    ensures Places(Step(h, s, a), id) == Places(s, id)
  {
    var s' := Step(h, s, a);
    var job := s.workers[a.worker].job;
    HandsAfterChange(s.workers, a.worker, s'.workers[a.worker], id);
    if !h(job.id, job.request.body).Answer? {
      assert DropIds(s'.dropped) == DropIds(s.dropped) + [job.id];
      Pushed(DropIds(s.dropped), job.id, id);
    }
  }

  lemma QueuedMoves(h: Handler, s: State, a: Action, id: nat)
    requires Enabled(s, a) && a.Queue?
    ensures Places(Step(h, s, a), id) == Places(s, id)
  {
    var reply := s.workers[a.worker].reply;
    HandsAfterChange(s.workers, a.worker, Checking, id);
    assert ReplyIds(s.replies + [reply]) == ReplyIds(s.replies) + [reply.id];
    Pushed(ReplyIds(s.replies), reply.id, id);
  }

  lemma NotifyingMovesNothing(h: Handler, s: State, a: Action, id: nat)
    requires Enabled(s, a) && (a.NotifyOne? || a.NotifyInCleanup? || a.NotifyInInterrupt? || a.Wake?)
    ensures Places(Step(h, s, a), id) == Places(s, id)
  {
    if a.NotifyOne? {
      if a.sleeper.Some? {
        HandsAfterChange(s.workers, a.sleeper.value, Checking, id);
      }
    } else if a.Wake? {
      HandsAfterChange(s.workers, a.worker, Checking, id);
    } else {
      HandsAwake(s.workers, id);
    }
  }

  /** A step moves requests about; only a dispatch brings a new one. */
  lemma StepCounts(h: Handler, s: State, a: Action, id: nat)
    requires Enabled(s, a)
    ensures Places(Step(h, s, a), id) == Places(s, id) + One(a.Dispatch? && id == |s.dispatched|)
  {
    if a.PopReply? {
      PoppedReplyMoves(h, s, a, id);
    } else if a.SendDone? {
      SentReplyMoves(h, s, a, id);
    } else if a.Dispatch? {
      DispatchedJobAppears(h, s, a, id);
    } else if a.Check? {
      TakenJobMoves(h, s, a, id);
    } else if a.Handled? {
      HandledMoves(h, s, a, id);
    } else if a.Queue? {
      QueuedMoves(h, s, a, id);
    } else if a.NotifyOne? || a.NotifyInCleanup? || a.NotifyInInterrupt? || a.Wake? {
      NotifyingMovesNothing(h, s, a, id);
    }
  }

  /** Conservation: in every state of every run each dispatched request is in exactly one place --
      queued, in a worker's hands, waiting to be sent, being sent, sent, or dropped. */
  lemma {:induction false} EachRequestIsInOnePlace(h: Handler, pool: nat, run: seq<State>, actions: seq<Action>,
                                                   n: nat, id: nat)
    requires IsRun(h, pool, run, actions) && n < |run|
    ensures Places(run[n], id) == One(id < |run[n].dispatched|)
  {
    if n == 0 {
      NothingInNewHands(pool, id);
      assert JobIds([]) == [] && ReplyIds([]) == [] && DropIds([]) == [];
    } else {
      EachRequestIsInOnePlace(h, pool, run, actions, n - 1, id);
      StepCounts(h, run[n - 1], actions[n - 1], id);
    }
  }

  // ----- each reply belongs to its request -----

  ghost predicate JobIsOwn(s: State, job: Job) {
    job.id < |s.dispatched| && job.request == s.dispatched[job.id]
  }

  ghost predicate ReplyIsOwn(h: Handler, s: State, r: Reply) {
    && r.id < |s.dispatched| && r.ctx == s.dispatched[r.id].ctx
    && h(r.id, s.dispatched[r.id].body) == Answer(r.response)
  }

  ghost predicate DropIsJust(h: Handler, s: State, d: Drop) {
    && d.id < |s.dispatched|
    && match d.reason
       case HandlerThrew => h(d.id, s.dispatched[d.id].body).Threw?
       case NoReplyWanted => h(d.id, s.dispatched[d.id].body).Silent?
       case SendFailed => h(d.id, s.dispatched[d.id].body).Answer?
  }

  ghost predicate WorkerIsOwn(h: Handler, s: State, w: Worker) {
    (w.Handling? ==> JobIsOwn(s, w.job)) && (w.Queuing? ==> ReplyIsOwn(h, s, w.reply))
  }

  ghost predicate OwnEverywhere(h: Handler, s: State) {
    && (forall j | j in s.jobs :: JobIsOwn(s, j))
    && (forall w | w in s.workers :: WorkerIsOwn(h, s, w))
    && (forall r | r in s.replies :: ReplyIsOwn(h, s, r))
    && (s.io.Sending? ==> ReplyIsOwn(h, s, s.io.reply))
    && (forall r | r in s.sent :: ReplyIsOwn(h, s, r))
    && (forall d | d in s.dropped :: DropIsJust(h, s, d))
  }

  /** More requests leave what was right right. */
  lemma OwnStaysOwn(h: Handler, s: State, s': State)
    requires s.dispatched <= s'.dispatched
    ensures forall j :: JobIsOwn(s, j) ==> JobIsOwn(s', j)
    ensures forall r :: ReplyIsOwn(h, s, r) ==> ReplyIsOwn(h, s', r)
    ensures forall d :: DropIsJust(h, s, d) ==> DropIsJust(h, s', d)
    ensures forall w :: WorkerIsOwn(h, s, w) ==> WorkerIsOwn(h, s', w)
  {
  }

  lemma WorkersStayOwn(h: Handler, s: State, s': State, i: nat)
    requires |s'.workers| == |s.workers| && i < |s.workers| && s.dispatched == s'.dispatched
    requires forall w | w in s.workers :: WorkerIsOwn(h, s, w)
    requires WorkerIsOwn(h, s', s'.workers[i])
    requires forall k | 0 <= k < |s.workers| && k != i :: s'.workers[k] == s.workers[k]
    ensures forall w | w in s'.workers :: WorkerIsOwn(h, s', w)
  {
    OwnStaysOwn(h, s, s');
    forall k | 0 <= k < |s.workers| ensures WorkerIsOwn(h, s', s'.workers[k]) {
      assert s.workers[k] in s.workers;
    }
  }

  lemma IoKeepsOwn(h: Handler, s: State, a: Action)
    requires Enabled(s, a) && OwnEverywhere(h, s)
    requires a.PopReply? || a.SendDone? || a.Dispatch?
    ensures OwnEverywhere(h, Step(h, s, a))
  {
    var s' := Step(h, s, a);
    OwnStaysOwn(h, s, s');
    if a.PopReply? {
      assert s.replies[0] in s.replies;
      assert forall r | r in s'.replies :: r in s.replies;
    } else if a.Dispatch? {
      assert forall j | j in s'.jobs :: j in s.jobs || j == Job(|s.dispatched|, a.request);
    }
  }

  lemma WorkerKeepsOwn(h: Handler, s: State, a: Action)
    requires Enabled(s, a) && OwnEverywhere(h, s)
    requires a.Check? || a.Handled? || a.Queue? || a.Wake?
    ensures OwnEverywhere(h, Step(h, s, a))
  {
    var s' := Step(h, s, a);
    OwnStaysOwn(h, s, s');
    assert s.workers[a.worker] in s.workers;
    if a.Check? && s.jobs != [] {
      assert s.jobs[0] in s.jobs;
      assert forall j | j in s'.jobs :: j in s.jobs;
    }
    WorkersStayOwn(h, s, s', a.worker);
  }

  lemma StepKeepsOwn(h: Handler, s: State, a: Action)
    requires Enabled(s, a) && OwnEverywhere(h, s)
    ensures OwnEverywhere(h, Step(h, s, a))
  {
    if a.PopReply? || a.SendDone? || a.Dispatch? {
      IoKeepsOwn(h, s, a);
    } else if a.Check? || a.Handled? || a.Queue? || a.Wake? {
      WorkerKeepsOwn(h, s, a);
    } else {
      var s' := Step(h, s, a);
      OwnStaysOwn(h, s, s');
      if a.NotifyOne? && a.sleeper.Some? {
        WorkersStayOwn(h, s, s', a.sleeper.value);
      } else {
        forall k | 0 <= k < |s'.workers| ensures WorkerIsOwn(h, s', s'.workers[k]) {
          assert s.workers[k] in s.workers;
        }
      }
    }
  }

  // ----- wake-ups and leaving -----

  function CountChecking(workers: seq<Worker>): nat {
    if workers == [] then 0 else (if workers[0].Checking? then 1 else 0) + CountChecking(workers[1..])
  }

  ghost predicate SomeAsleep(s: State) {
    exists i :: IsIn(s, i, Asleep)
  }

  /** While a worker sleeps there are no more jobs than workers on their way to the queue, counting
      the one about to be notified; and a stop is never slept through. */
  ghost predicate NoJobSleeps(s: State) {
    && (SomeAsleep(s) ==> |s.jobs| <= CountChecking(s.workers) + (if s.io.Notifying? then 1 else 0))
    && (SomeAsleep(s) && s.stopping ==> s.wakeUps > 0 || s.io.Waking?)
    && (s.io.Waking? || s.io.Joining? || s.io.Done? ==> s.stopping)
    && (s.io.Joining? || s.io.Done? ==> !SomeAsleep(s))
  }

  lemma {:induction false} CountAfterChange(workers: seq<Worker>, i: nat, w: Worker)
    requires i < |workers|
    ensures CountChecking(workers[i := w]) + (if workers[i].Checking? then 1 else 0)
            == CountChecking(workers) + (if w.Checking? then 1 else 0)
  {
    if i == 0 {
      assert workers[0 := w][1..] == workers[1..];
    } else {
      CountAfterChange(workers[1..], i - 1, w);
      assert workers[i := w][1..] == workers[1..][i - 1 := w];
    }
  }

  lemma WorkerKeepsAwake(h: Handler, s: State, a: Action)
    requires Enabled(s, a) && NoJobSleeps(s)
    requires a.Check? || a.Handled? || a.Queue? || a.Wake?
    ensures NoJobSleeps(Step(h, s, a))
  {
    var s' := Step(h, s, a);
    CountAfterChange(s.workers, a.worker, s'.workers[a.worker]);
    if !s'.workers[a.worker].Asleep? {
      SleepersWereAsleep(s, s');
    }
  }

  lemma StepKeepsAwake(h: Handler, s: State, a: Action)
    requires Enabled(s, a) && NoJobSleeps(s)
    ensures NoJobSleeps(Step(h, s, a))
  {
    var s' := Step(h, s, a);
    if a.Check? || a.Handled? || a.Queue? || a.Wake? {
      WorkerKeepsAwake(h, s, a);
    } else if a.NotifyInCleanup? || a.NotifyInInterrupt? {
      assert !SomeAsleep(s');
    } else {
      if a.NotifyOne? && a.sleeper.Some? {
        CountAfterChange(s.workers, a.sleeper.value, Checking);
      }
      SleepersWereAsleep(s, s');
    }
  }

  lemma SleepersWereAsleep(s: State, s': State)
    requires |s.workers| == |s'.workers|
    requires forall i | 0 <= i < |s.workers| :: s'.workers[i].Asleep? ==> s.workers[i].Asleep?
    ensures SomeAsleep(s') ==> SomeAsleep(s)
  {
    if SomeAsleep(s') {
      var i :| IsIn(s', i, Asleep);
      assert IsIn(s, i, Asleep);
    }
  }

  /** Workers leave an empty queue behind: what is queued after one has left was dispatched after
      the stop. */
  ghost predicate OnlyLateJobsRemain(s: State) {
    && (forall i | 0 <= i < |s.jobs| :: s.jobs[i].id < |s.dispatched|)
    && (s.stopping ==> s.stopMark <= |s.dispatched|)
    && ((exists i :: IsIn(s, i, Exited)) ==> s.stopping && forall i | 0 <= i < |s.jobs| :: s.jobs[i].id >= s.stopMark)
  }

  lemma StepKeepsOnlyLate(h: Handler, s: State, a: Action)
    requires Enabled(s, a) && OnlyLateJobsRemain(s)
    ensures OnlyLateJobsRemain(Step(h, s, a))
  {
    var s' := Step(h, s, a);
    forall i: nat | IsIn(s', i, Exited) ensures IsIn(s, i, Exited) || (s.stopping && s.jobs == []) {
      if s'.workers[i] != s.workers[i] {
        assert a == Check(i);
      }
    }
  }

  ghost predicate Inv(h: Handler, s: State) {
    OwnEverywhere(h, s) && NoJobSleeps(s) && OnlyLateJobsRemain(s)
  }

  lemma {:induction false} InvInEveryRun(h: Handler, pool: nat, run: seq<State>, actions: seq<Action>, n: nat)
    requires IsRun(h, pool, run, actions) && n < |run|
    ensures Inv(h, run[n])
  {
    if n > 0 {
      InvInEveryRun(h, pool, run, actions, n - 1);
      var s, a := run[n - 1], actions[n - 1];
      StepKeepsOwn(h, s, a);
      StepKeepsAwake(h, s, a);
      StepKeepsOnlyLate(h, s, a);
    }
  }

  // ----- what that means -----

  lemma {:induction false} OnceMeansOneIndex(ids: seq<nat>, i: nat, j: nat)
    requires i < j < |ids| && ids[i] == ids[j]
    ensures Occurs(ids, ids[i]) >= 2
  {
    Popped(ids, ids[i]);
    if i > 0 {
      OnceMeansOneIndex(ids[1..], i - 1, j - 1);
    } else {
      OccursOnce(ids[1..], j - 1);
    }
  }

  lemma OccursOnce(ids: seq<nat>, j: nat)
    requires j < |ids|
    ensures Occurs(ids, ids[j]) >= 1
  {
    assert ids[j] in multiset(ids);
  }

  /** Each reply that was sent carries the client context of its own request and what the handler
      returned for it. */
  lemma RepliesAreOwn(h: Handler, pool: nat, run: seq<State>, actions: seq<Action>, n: nat, i: nat)
    requires IsRun(h, pool, run, actions) && n < |run| && i < |run[n].sent|
    ensures ReplyIsOwn(h, run[n], run[n].sent[i])
  {
    InvInEveryRun(h, pool, run, actions, n);
  }

  /** No request is answered twice. */
  lemma RepliesAreSentOnce(h: Handler, pool: nat, run: seq<State>, actions: seq<Action>, n: nat, i: nat, j: nat)
    requires IsRun(h, pool, run, actions) && n < |run| && i < j < |run[n].sent|
    ensures run[n].sent[i].id != run[n].sent[j].id
  {
    var ids := ReplyIds(run[n].sent);
    EachRequestIsInOnePlace(h, pool, run, actions, n, ids[i]);
    if ids[i] == ids[j] {
      OnceMeansOneIndex(ids, i, j);
    }
  }

  /** A worker exits only when stopping with an empty queue. */
  lemma WorkersLeaveAnEmptyQueue(h: Handler, s: State, a: Action, i: nat)
    requires Enabled(s, a) && i < |s.workers|
    ensures !s.workers[i].Exited? && Step(h, s, a).workers[i].Exited? ==> s.stopping && s.jobs == [] && a == Check(i)
  {
  }

  /** When the pool has been joined, every request dispatched before the stop has been handled: it
      is waiting to be sent, sent, or dropped for the reason its outcome gives. */
  lemma NothingDispatchedInTimeIsLeft(h: Handler, pool: nat, run: seq<State>, actions: seq<Action>, n: nat, id: nat)
    requires IsRun(h, pool, run, actions) && n < |run| && pool > 0
    requires run[n].io.Done? && id < run[n].stopMark
    ensures Occurs(ReplyIds(run[n].replies), id) + Occurs(ReplyIds(run[n].sent), id)
            + Occurs(DropIds(run[n].dropped), id) == 1
  {
    InvInEveryRun(h, pool, run, actions, n);
    EachRequestIsInOnePlace(h, pool, run, actions, n, id);
    DoneMeansAllExited(h, pool, run, actions, n);
    var s := run[n];
    EmptyHands(s.workers, id);
    assert IsIn(s, 0, Exited);
    assert id !in JobIds(s.jobs);
  }

  lemma {:induction false} EmptyHands(workers: seq<Worker>, id: nat)
    requires forall i | 0 <= i < |workers| :: workers[i].Exited?
    ensures InHands(workers, id) == 0
  {
    if workers != [] {
      EmptyHands(workers[1..], id);
    }
  }

  lemma {:induction false} DoneMeansAllExited(h: Handler, pool: nat, run: seq<State>, actions: seq<Action>, n: nat)
    requires IsRun(h, pool, run, actions) && n < |run|
    ensures |run[n].workers| == pool
    ensures run[n].io.Done? ==> forall i | 0 <= i < pool :: run[n].workers[i].Exited?
  {
    if n > 0 {
      DoneMeansAllExited(h, pool, run, actions, n - 1);
      ExitedStayExited(h, run[n - 1], actions[n - 1]);
    }
  }

  lemma ExitedStayExited(h: Handler, s: State, a: Action)
    requires Enabled(s, a)
    ensures |Step(h, s, a).workers| == |s.workers|
    ensures forall i | 0 <= i < |s.workers| :: s.workers[i].Exited? ==> Step(h, s, a).workers[i].Exited?
  {
  }

  predicate LoopIsOver(io: Io) {
    io.Stopping? || io.Waking? || io.Joining? || io.Done?
  }

  /** Sending happens on the I/O thread only: what has not been sent when its loop ends never is. */
  lemma {:induction false} NothingIsSentAfterTheLoop(h: Handler, pool: nat, run: seq<State>, actions: seq<Action>,
                                                     n: nat, m: nat)
    requires IsRun(h, pool, run, actions) && n <= m < |run| && LoopIsOver(run[n].io)
    ensures LoopIsOver(run[m].io) && run[m].sent == run[n].sent
  {
    if n < m {
      NothingIsSentAfterTheLoop(h, pool, run, actions, n, m - 1);
      assert run[m] == Step(h, run[m - 1], actions[m - 1]);
    }
  }

  /** A worker queues the reply with this id somewhere between two states. */
  ghost predicate QueuedBetween(run: seq<State>, actions: seq<Action>, n: nat, m: nat, id: nat)
    requires |run| == |actions| + 1 && n <= m < |run|
  {
    exists k {:trigger actions[k]} :: n <= k < m && IsQueuing(run[k], actions[k], id)
  }

  predicate IsQueuing(s: State, a: Action, id: nat) {
    a.Queue? && a.worker < |s.workers| && s.workers[a.worker].Queuing? && s.workers[a.worker].reply.id == id
  }

  lemma OneStepAfterTheLoop(h: Handler, s: State, a: Action, id: nat)
    requires Enabled(s, a) && LoopIsOver(s.io)
    ensures id in ReplyIds(Step(h, s, a).replies) <==> id in ReplyIds(s.replies) || IsQueuing(s, a, id)
    ensures forall d | d in Step(h, s, a).dropped :: d in s.dropped || !d.reason.SendFailed?
    ensures s.dropped <= Step(h, s, a).dropped
  {
    if a.Queue? {
      var reply := s.workers[a.worker].reply;
      assert ReplyIds(s.replies + [reply]) == ReplyIds(s.replies) + [reply.id];
    }
  }

  /** Which replies are left: those waiting when the loop ended and those queued after that. */
  lemma {:induction false} LeftUnsentExactly(h: Handler, pool: nat, run: seq<State>, actions: seq<Action>,
                                             n: nat, m: nat, id: nat)
    requires IsRun(h, pool, run, actions) && n <= m < |run| && LoopIsOver(run[n].io)
    ensures id in ReplyIds(run[m].replies)
            <==> id in ReplyIds(run[n].replies) || QueuedBetween(run, actions, n, m, id)
  {
    if n < m {
      LeftUnsentExactly(h, pool, run, actions, n, m - 1, id);
      NothingIsSentAfterTheLoop(h, pool, run, actions, n, m - 1);
      OneStepAfterTheLoop(h, run[m - 1], actions[m - 1], id);
    }
  }

  lemma {:induction false} NoSendFailsAfterTheLoop(h: Handler, pool: nat, run: seq<State>, actions: seq<Action>,
                                                   n: nat, m: nat)
    requires IsRun(h, pool, run, actions) && n <= m < |run| && LoopIsOver(run[n].io)
    ensures forall d | d in run[m].dropped :: d in run[n].dropped || !d.reason.SendFailed?
    ensures run[n].dropped <= run[m].dropped
  {
    if n < m {
      NoSendFailsAfterTheLoop(h, pool, run, actions, n, m - 1);
      NothingIsSentAfterTheLoop(h, pool, run, actions, n, m - 1);
      OneStepAfterTheLoop(h, run[m - 1], actions[m - 1], 0);
    }
  }

  /** Once the pool is joined no request is in anybody's hands. */
  lemma PlacesWhenJoined(h: Handler, pool: nat, run: seq<State>, actions: seq<Action>, n: nat, id: nat)
    requires IsRun(h, pool, run, actions) && n < |run| && run[n].io.Done?
    ensures Occurs(JobIds(run[n].jobs), id) + Occurs(ReplyIds(run[n].replies), id) + Occurs(ReplyIds(run[n].sent), id)
            + Occurs(DropIds(run[n].dropped), id) == One(id < |run[n].dispatched|)
  {
    EachRequestIsInOnePlace(h, pool, run, actions, n, id);
    DoneMeansAllExited(h, pool, run, actions, n);
    EmptyHands(run[n].workers, id);
  }

  /** Of every request that was dispatched: cleanup loses its answer exactly when it was handled, the
      handler answers it, and its reply had neither been sent nor failed when the loop ended. */
  lemma AnswersLostExactly(h: Handler, pool: nat, run: seq<State>, actions: seq<Action>, n: nat, m: nat, id: nat)
    requires IsRun(h, pool, run, actions) && n <= m < |run|
    requires LoopIsOver(run[n].io) && run[m].io.Done? && id < |run[m].dispatched|
    ensures id in ReplyIds(run[m].replies)
            <==> id !in JobIds(run[m].jobs) && h(id, run[m].dispatched[id].body).Answer?
                 && id !in ReplyIds(run[n].sent) && id !in DropIds(run[n].dropped)
  {
    var s := run[m];
    InvInEveryRun(h, pool, run, actions, m);
    PlacesWhenJoined(h, pool, run, actions, m, id);
    NothingIsSentAfterTheLoop(h, pool, run, actions, n, m);
    NoSendFailsAfterTheLoop(h, pool, run, actions, n, m);
    OnlyOnePlace(JobIds(s.jobs), ReplyIds(s.replies), ReplyIds(s.sent), DropIds(s.dropped), id);
    DropsOfAnswers(h, s, run[n].dropped, id);
    if id in ReplyIds(s.replies) {
      var i :| 0 <= i < |s.replies| && ReplyIds(s.replies)[i] == id;
      assert ReplyIsOwn(h, s, s.replies[i]);
    }
  }

  ghost predicate AllExited(s: State) {
    forall i | 0 <= i < |s.workers| :: s.workers[i].Exited?
  }

  lemma {:induction false} NobodyTakesJobs(h: Handler, pool: nat, run: seq<State>, actions: seq<Action>, n: nat, m: nat)
    requires IsRun(h, pool, run, actions) && n <= m < |run| && AllExited(run[n])
    ensures AllExited(run[m]) && run[n].jobs <= run[m].jobs
  {
    if n < m {
      NobodyTakesJobs(h, pool, run, actions, n, m - 1);
      ExitedTakeNothing(h, run[m - 1], actions[m - 1]);
    }
  }

  lemma ExitedTakeNothing(h: Handler, s: State, a: Action)
    requires Enabled(s, a) && AllExited(s)
    ensures AllExited(Step(h, s, a)) && s.jobs <= Step(h, s, a).jobs
  {
  }

  lemma {:induction false} SomebodyStays(h: Handler, pool: nat, run: seq<State>, actions: seq<Action>, n: nat, m: nat, id: nat)
    requires IsRun(h, pool, run, actions) && n <= m < |run| && !AllExited(run[n]) && id < |run[n].dispatched|
    ensures id < |run[m].dispatched| && (id in JobIds(run[m].jobs) ==> !AllExited(run[m]))
  {
    if n < m {
      SomebodyStays(h, pool, run, actions, n, m - 1, id);
      NobodyLeavesAJob(h, run[m - 1], actions[m - 1], id);
    }
  }

  lemma NobodyLeavesAJob(h: Handler, s: State, a: Action, id: nat)
    requires Enabled(s, a) && id < |s.dispatched| && (id in JobIds(s.jobs) ==> !AllExited(s))
    ensures id < |Step(h, s, a).dispatched|
    ensures id in JobIds(Step(h, s, a).jobs) ==> !AllExited(Step(h, s, a))
  {
    var s' := Step(h, s, a);
    if id in JobIds(s'.jobs) {
      JobsComeByDispatch(h, s, a, id);
      var i :| 0 <= i < |s.workers| && !s.workers[i].Exited?;
      assert !s'.workers[i].Exited?;
    }
  }

  lemma JobsComeByDispatch(h: Handler, s: State, a: Action, id: nat)
    requires Enabled(s, a) && id < |s.dispatched| && id in JobIds(Step(h, s, a).jobs)
    ensures id in JobIds(s.jobs) && (a.Check? ==> s.jobs != [])
  {
    var s' := Step(h, s, a);
    var j :| 0 <= j < |s'.jobs| && s'.jobs[j].id == id;
    assert s'.jobs[j] in s.jobs;
    var k :| 0 <= k < |s.jobs| && s.jobs[k] == s'.jobs[j];
    assert JobIds(s.jobs)[k] == id;
  }

  /** Which requests are never handled: those dispatched when every worker had already left.  All of
      them were acknowledged when they were received. */
  lemma NeverHandledExactly(h: Handler, pool: nat, run: seq<State>, actions: seq<Action>, k: nat, m: nat)
    requires IsRun(h, pool, run, actions) && k < m < |run| && actions[k].Dispatch? && run[m].io.Done?
    ensures |run[k].dispatched| in JobIds(run[m].jobs) <==> AllExited(run[k])
  {
    var id := |run[k].dispatched|;
    assert run[k + 1] == Step(h, run[k], actions[k]);
    DoneMeansAllExited(h, pool, run, actions, m);
    if AllExited(run[k]) {
      NobodyTakesJobs(h, pool, run, actions, k + 1, m);
      assert JobIds(run[m].jobs)[|run[k].jobs|] == id;
    } else {
      SomebodyStays(h, pool, run, actions, k + 1, m, id);
    }
  }

  lemma OnlyOnePlace(a: seq<nat>, b: seq<nat>, c: seq<nat>, d: seq<nat>, id: nat)
    requires Occurs(a, id) + Occurs(b, id) + Occurs(c, id) + Occurs(d, id) == 1
    ensures id in b <==> id !in a && id !in c && id !in d
  {
    assert id in a <==> id in multiset(a);
    assert id in b <==> id in multiset(b);
    assert id in c <==> id in multiset(c);
    assert id in d <==> id in multiset(d);
  }

  /** An answered request is dropped only by a failed send, and none fails after the loop. */
  lemma DropsOfAnswers(h: Handler, s: State, before: seq<Drop>, id: nat)
    requires OwnEverywhere(h, s) && id < |s.dispatched| && before <= s.dropped
    requires forall d | d in s.dropped :: d in before || !d.reason.SendFailed?
    ensures id in DropIds(before) ==> id in DropIds(s.dropped)
    ensures h(id, s.dispatched[id].body).Answer? && id in DropIds(s.dropped) ==> id in DropIds(before)
  {
    if id in DropIds(before) {
      var i :| 0 <= i < |before| && DropIds(before)[i] == id;
      assert DropIds(s.dropped)[i] == id;
    }
    if h(id, s.dispatched[id].body).Answer? && id in DropIds(s.dropped) {
      var i :| 0 <= i < |s.dropped| && DropIds(s.dropped)[i] == id;
      assert DropIsJust(h, s, s.dropped[i]);
      var j :| 0 <= j < |before| && before[j] == s.dropped[i];
      assert DropIds(before)[j] == id;
    }
  }

  lemma Extend(h: Handler, pool: nat, run: seq<State>, actions: seq<Action>, a: Action)
    returns (run': seq<State>, actions': seq<Action>)
    requires IsRun(h, pool, run, actions) && Enabled(run[|actions|], a)
    ensures IsRun(h, pool, run', actions') && |actions'| == |actions| + 1
    ensures run'[|actions'|] == Step(h, run[|actions|], a)
  {
    run', actions' := run + [Step(h, run[|actions|], a)], actions + [a];
  }

  lemma ARequestIsDispatched(h: Handler, request: Request) returns (run: seq<State>, actions: seq<Action>)
    ensures IsRun(h, 1, run, actions)
    ensures run[|actions|] == State([request], [Job(0, request)], [Checking], [], Between, [], [], false, 0, 0)
  {
    run, actions := [Start(1)], [];
    assert seq(1, i => Checking) == [Checking];
    run, actions := Extend(h, 1, run, actions, BeginProcess);
    run, actions := Extend(h, 1, run, actions, Drained);
    run, actions := Extend(h, 1, run, actions, Dispatch(request));
    run, actions := Extend(h, 1, run, actions, NotifyOne(None));
  }

  /** The worker handles the request while the loop is being left. */
  lemma AReplyIsQueuedLate(h: Handler, request: Request, response: Value) returns (run: seq<State>, actions: seq<Action>)
    requires h(0, request.body) == Answer(response)
    ensures IsRun(h, 1, run, actions)
    ensures run[|actions|] == State([request], [], [Checking], [Reply(0, response, request.ctx)], Stopping, [], [], false, 0, 0)
  {
    run, actions := ARequestIsDispatched(h, request);
    run, actions := Extend(h, 1, run, actions, Check(0));
    assert run[|actions|] == State([request], [], [Handling(Job(0, request))], [], Between, [], [], false, 0, 0);
    run, actions := Extend(h, 1, run, actions, Handled(0));
    run, actions := Extend(h, 1, run, actions, LeaveLoop);
    run, actions := Extend(h, 1, run, actions, Queue(0));
  }

  /** Whatever request the handler answers, a run of one worker loses that answer. */
  lemma ALostAnswerExample(h: Handler, request: Request, response: Value) returns (run: seq<State>, actions: seq<Action>)
    requires h(0, request.body) == Answer(response)
    ensures IsRun(h, 1, run, actions) && run[|actions|].io.Done?
    ensures run[|actions|].replies == [Reply(0, response, request.ctx)] && run[|actions|].sent == []
  {
    run, actions := AReplyIsQueuedLate(h, request, response);
    run, actions := Extend(h, 1, run, actions, StopInCleanup);
    run, actions := Extend(h, 1, run, actions, NotifyInCleanup);
    assert AllAwake([Checking]) == [Checking];
    run, actions := Extend(h, 1, run, actions, Check(0));
    run, actions := Extend(h, 1, run, actions, Joined);
  }

  lemma TheWorkerLeavesEarly(h: Handler) returns (run: seq<State>, actions: seq<Action>)
    ensures IsRun(h, 1, run, actions)
    ensures run[|actions|] == State([], [], [Exited], [], Receiving, [], [], true, 0, 1)
  {
    run, actions := [Start(1)], [];
    assert seq(1, i => Checking) == [Checking];
    run, actions := Extend(h, 1, run, actions, BeginProcess);
    run, actions := Extend(h, 1, run, actions, Drained);
    run, actions := Extend(h, 1, run, actions, StopInInterrupt);
    run, actions := Extend(h, 1, run, actions, Check(0));
  }

  /** A run that never handles a request: the worker leaves while process is receiving it. */
  lemma ANeverHandledExample(h: Handler, request: Request) returns (run: seq<State>, actions: seq<Action>)
    ensures IsRun(h, 1, run, actions) && run[|actions|].io.Done?
    ensures run[|actions|].dispatched == [request] && run[|actions|].jobs == [Job(0, request)]
  {
    run, actions := TheWorkerLeavesEarly(h);
    run, actions := Extend(h, 1, run, actions, Dispatch(request));
    run, actions := Extend(h, 1, run, actions, NotifyOne(None));
    assert run[|actions|] == State([request], [Job(0, request)], [Exited], [], Between, [], [], true, 0, 1);
    run, actions := Extend(h, 1, run, actions, LeaveLoop);
    run, actions := Extend(h, 1, run, actions, StopInCleanup);
    run, actions := Extend(h, 1, run, actions, NotifyInCleanup);
    assert AllAwake([Exited]) == [Exited];
    run, actions := Extend(h, 1, run, actions, Joined);
  }

  /** Cleanup never waits for a sleeping worker: once it joins, every worker is on its way out. */
  lemma JoinWaitsForNoSleeper(h: Handler, pool: nat, run: seq<State>, actions: seq<Action>, n: nat, i: nat)
    requires IsRun(h, pool, run, actions) && n < |run| && i < |run[n].workers|
    requires run[n].io.Joining? && !run[n].workers[i].Exited?
    ensures exists a :: (a == Check(i) || a == Handled(i) || a == Queue(i)) && Enabled(run[n], a)
  {
    InvInEveryRun(h, pool, run, actions, n);
    var s := run[n];
    assert !IsIn(s, i, Asleep);
    if s.workers[i].Checking? {
      assert Enabled(s, Check(i));
    } else if s.workers[i].Handling? {
      assert Enabled(s, Handled(i));
    } else {
      assert Enabled(s, Queue(i));
    }
  }

  /** A queued job is never slept on: a worker can take it, a notification is on its way, or every
      worker is busy with another one. */
  lemma QueuedJobsAreAttended(h: Handler, pool: nat, run: seq<State>, actions: seq<Action>, n: nat)
    requires IsRun(h, pool, run, actions) && n < |run| && run[n].jobs != []
    ensures run[n].io.Notifying? || (exists i :: IsIn(run[n], i, Checking)) || !SomeAsleep(run[n])
  {
    InvInEveryRun(h, pool, run, actions, n);
    if CountChecking(run[n].workers) > 0 {
      SomeoneChecks(run[n].workers);
      var i :| 0 <= i < |run[n].workers| && run[n].workers[i].Checking?;
      assert IsIn(run[n], i, Checking);
    }
  }

  lemma {:induction false} SomeoneChecks(workers: seq<Worker>)
    requires CountChecking(workers) > 0
    ensures exists i :: 0 <= i < |workers| && workers[i].Checking?
  {
    if workers[0].Checking? {
      assert workers[0].Checking?;
    } else {
      SomeoneChecks(workers[1..]);
      var i :| 0 <= i < |workers[1..]| && workers[1..][i].Checking?;
      assert workers[i + 1].Checking?;
    }
  }

  // ----- order -----

  /** The queue holds the youngest of the requests dispatched, oldest first. */
  ghost predicate HoldsTheYoungest(s: State) {
    && |s.jobs| <= |s.dispatched|
    && forall i | 0 <= i < |s.jobs| ::
         s.jobs[i] == Job(|s.dispatched| - |s.jobs| + i, s.dispatched[|s.dispatched| - |s.jobs| + i])
  }

  lemma StepKeepsOrder(h: Handler, s: State, a: Action)
    requires Enabled(s, a) && HoldsTheYoungest(s)
    ensures HoldsTheYoungest(Step(h, s, a))
    ensures |s.dispatched| - |s.jobs| <= |Step(h, s, a).dispatched| - |Step(h, s, a).jobs|
  {
    if !a.Dispatch? && !a.Check? {
      JobsStay(h, s, a);
    }
  }

  lemma JobsStay(h: Handler, s: State, a: Action)
    requires Enabled(s, a) && !a.Dispatch? && !a.Check?
    ensures Step(h, s, a).jobs == s.jobs && Step(h, s, a).dispatched == s.dispatched
  {
  }

  lemma {:induction false} YoungestInEveryRun(h: Handler, pool: nat, run: seq<State>, actions: seq<Action>, n: nat, m: nat)
    requires IsRun(h, pool, run, actions) && n <= m < |run|
    ensures HoldsTheYoungest(run[m])
    ensures |run[n].dispatched| - |run[n].jobs| <= |run[m].dispatched| - |run[m].jobs|
    decreases m
  {
    if n < m {
      YoungestInEveryRun(h, pool, run, actions, n, m - 1);
      StepKeepsOrder(h, run[m - 1], actions[m - 1]);
    } else if m > 0 {
      YoungestInEveryRun(h, pool, run, actions, m - 1, m - 1);
      StepKeepsOrder(h, run[m - 1], actions[m - 1]);
    }
  }

  /** A worker that looks at a queue with jobs takes one, and jobs are taken in the order of their
      dispatch. */
  lemma JobsAreTakenInOrder(h: Handler, pool: nat, run: seq<State>, actions: seq<Action>, n: nat, m: nat)
    requires IsRun(h, pool, run, actions) && n < m < |actions| && actions[n].Check? && actions[m].Check?
    requires run[n].jobs != [] && run[m].jobs != []
    ensures actions[n].worker < |run[n + 1].workers| && actions[m].worker < |run[m + 1].workers|
    ensures var one, other := run[n + 1].workers[actions[n].worker], run[m + 1].workers[actions[m].worker];
            && one.Handling? && other.Handling? && one.job.id < other.job.id
            && one.job.id < |run[n].dispatched| && other.job.id < |run[m].dispatched|
            && one.job.request == run[n].dispatched[one.job.id] && other.job.request == run[m].dispatched[other.job.id]
  {
    YoungestInEveryRun(h, pool, run, actions, n, n);
    YoungestInEveryRun(h, pool, run, actions, n + 1, m);
    TakesTheOldest(h, run[n], actions[n]);
    TakesTheOldest(h, run[m], actions[m]);
  }

  lemma TakesTheOldest(h: Handler, s: State, a: Action)
    requires Enabled(s, a) && a.Check? && s.jobs != [] && HoldsTheYoungest(s)
    ensures a.worker < |Step(h, s, a).workers| && Step(h, s, a).workers[a.worker].Handling?
    ensures var job := Step(h, s, a).workers[a.worker].job;
            job.id == |s.dispatched| - |s.jobs| && job.id < |s.dispatched| && job.request == s.dispatched[job.id]
    ensures |Step(h, s, a).dispatched| - |Step(h, s, a).jobs| == |s.dispatched| - |s.jobs| + 1
  {
  }

  /** The reply that a step queues. */
  function QueuedBy(s: State, a: Action): seq<Reply> {
    if a.Queue? && a.worker < |s.workers| && s.workers[a.worker].Queuing? then [s.workers[a.worker].reply] else []
  }

  /** The replies workers have queued so far, in that order, and how many the I/O thread has taken. */
  function QueuedSoFar(run: seq<State>, actions: seq<Action>, n: nat): seq<Reply>
    requires |run| == |actions| + 1 && n < |run|
  {
    if n == 0 then [] else QueuedSoFar(run, actions, n - 1) + QueuedBy(run[n - 1], actions[n - 1])
  }

  function TakenSoFar(actions: seq<Action>, n: nat): nat
    requires n <= |actions|
  {
    if n == 0 then 0 else TakenSoFar(actions, n - 1) + One(actions[n - 1].PopReply?)
  }

  ghost predicate LeavesInOrder(s: State, queued: seq<Reply>, taken: nat) {
    && taken <= |queued| && s.replies == queued[taken..]
    && (s.io.Sending? ==> taken > 0 && s.io.reply == queued[taken - 1])
  }

  /** The I/O thread takes the replies in the order in which they were queued: waiting are the queued
      ones it has not taken, and the one being sent is the last it took. */
  lemma {:induction false} RepliesLeaveInOrder(h: Handler, pool: nat, run: seq<State>, actions: seq<Action>, n: nat)
    requires IsRun(h, pool, run, actions) && n < |run|
    ensures LeavesInOrder(run[n], QueuedSoFar(run, actions, n), TakenSoFar(actions, n))
  {
    if n > 0 {
      RepliesLeaveInOrder(h, pool, run, actions, n - 1);
      StepLeavesInOrder(h, run[n - 1], actions[n - 1], QueuedSoFar(run, actions, n - 1), TakenSoFar(actions, n - 1));
    }
  }

  lemma StepLeavesInOrder(h: Handler, s: State, a: Action, queued: seq<Reply>, taken: nat)
    requires Enabled(s, a) && LeavesInOrder(s, queued, taken)
    ensures LeavesInOrder(Step(h, s, a), queued + QueuedBy(s, a), taken + One(a.PopReply?))
  {
    if !a.Queue? && !a.PopReply? {
      RepliesStay(h, s, a);
    }
  }

  lemma RepliesStay(h: Handler, s: State, a: Action)
    requires Enabled(s, a) && !a.Queue? && !a.PopReply?
    ensures Step(h, s, a).replies == s.replies
    ensures Step(h, s, a).io.Sending? ==> s.io == Step(h, s, a).io
  {
  }

  /** A reply taken is sent if the send succeeds and dropped, alone, if it does not; nothing else sends. */
  lemma SentExactly(h: Handler, pool: nat, run: seq<State>, actions: seq<Action>, n: nat)
    requires IsRun(h, pool, run, actions) && n < |actions|
    ensures actions[n].SendDone? && actions[n].ok ==>
              run[n].io.Sending? && run[n + 1].sent == run[n].sent + [run[n].io.reply] && run[n + 1].dropped == run[n].dropped
    ensures actions[n].SendDone? && !actions[n].ok ==>
              run[n].io.Sending? && run[n + 1].sent == run[n].sent
              && run[n + 1].dropped == run[n].dropped + [Drop(run[n].io.reply.id, SendFailed)]
    ensures !actions[n].SendDone? ==> run[n + 1].sent == run[n].sent
  {
    assert Enabled(run[n], actions[n]) && run[n + 1] == Step(h, run[n], actions[n]);
  }

  // ----- when workers sleep and wake, and where the I/O thread is -----

  /** A worker goes to sleep exactly when it looks at an empty queue of a pool that is not stopping, and
      leaves exactly when it looks at an empty queue of one that is. */
  lemma SleepsExactly(h: Handler, pool: nat, run: seq<State>, actions: seq<Action>, n: nat, i: nat)
    requires IsRun(h, pool, run, actions) && n < |actions| && i < |run[n].workers|
    ensures |run[n + 1].workers| == |run[n].workers|
    ensures !run[n].workers[i].Asleep? ==>
              (run[n + 1].workers[i].Asleep? <==> actions[n] == Check(i) && run[n].jobs == [] && !run[n].stopping)
    ensures !run[n].workers[i].Exited? ==>
              (run[n + 1].workers[i].Exited? <==> actions[n] == Check(i) && run[n].jobs == [] && run[n].stopping)
  {
    assert run[n + 1] == Step(h, run[n], actions[n]) && Enabled(run[n], actions[n]);
    SleepsStep(h, run[n], actions[n], i);
  }

  lemma SleepsStep(h: Handler, s: State, a: Action, i: nat)
    requires Enabled(s, a) && i < |s.workers|
    ensures |Step(h, s, a).workers| == |s.workers|
    ensures var w, w' := s.workers[i], Step(h, s, a).workers[i];
            && (!w.Asleep? ==> (w'.Asleep? <==> a == Check(i) && s.jobs == [] && !s.stopping))
            && (!w.Exited? ==> (w'.Exited? <==> a == Check(i) && s.jobs == [] && s.stopping))
            && (w.Asleep? ==> (!w'.Asleep? <==> IsWokenBy(a, i)) && (w'.Asleep? || w'.Checking?))
  {
  }

  predicate IsWokenBy(a: Action, i: nat) {
    a == NotifyOne(Some(i)) || a == Wake(i) || a == NotifyInCleanup || a == NotifyInInterrupt
  }

  /** A sleeping worker wakes, to look at the queue, exactly when it is the one notified of a job, when
      all are notified of a stop, or for nothing. */
  lemma WakesExactly(h: Handler, pool: nat, run: seq<State>, actions: seq<Action>, n: nat, i: nat)
    requires IsRun(h, pool, run, actions) && n < |actions| && i < |run[n].workers| && run[n].workers[i].Asleep?
    ensures |run[n + 1].workers| == |run[n].workers|
    ensures !run[n + 1].workers[i].Asleep?
            <==> actions[n] == NotifyOne(Some(i)) || actions[n] == Wake(i) || actions[n].NotifyInCleanup?
                 || actions[n].NotifyInInterrupt?
    ensures run[n + 1].workers[i].Asleep? || run[n + 1].workers[i].Checking?
  {
    assert run[n + 1] == Step(h, run[n], actions[n]) && Enabled(run[n], actions[n]);
    SleepsStep(h, run[n], actions[n], i);
  }

  /** A call of process drains the reply queue until it is empty, receives, and ends when nothing came or
      the request it dispatched has been notified. */
  lemma ProcessInOrder(h: Handler, pool: nat, run: seq<State>, actions: seq<Action>, n: nat)
    requires IsRun(h, pool, run, actions) && n < |actions|
    ensures run[n + 1].io.Receiving? && !run[n].io.Receiving? ==> run[n].io.Draining? && run[n].replies == []
    ensures run[n].io.Receiving? && !run[n + 1].io.Receiving? ==>
              if |run[n + 1].dispatched| > |run[n].dispatched| then run[n + 1].io.Notifying? else run[n + 1].io.Between?
    ensures run[n].io.Notifying? && actions[n].NotifyOne? ==> run[n + 1].io.Between?
    ensures actions[n].NothingReceived? ==> run[n].io.Receiving? && run[n + 1].io.Between?
  {
    assert run[n + 1] == Step(h, run[n], actions[n]) && Enabled(run[n], actions[n]);
  }

  /** The notifications of interrupt still to come are those of the calls that have set the flag and not
      yet notified. */
  lemma {:induction false} InterruptsNotifyExactly(h: Handler, pool: nat, run: seq<State>, actions: seq<Action>, n: nat)
    requires IsRun(h, pool, run, actions) && n < |run|
    ensures multiset(actions[..n])[StopInInterrupt] == multiset(actions[..n])[NotifyInInterrupt] + run[n].wakeUps
  {
    if n > 0 {
      InterruptsNotifyExactly(h, pool, run, actions, n - 1);
      assert actions[..n] == actions[..n - 1] + [actions[n - 1]];
      InterruptStep(h, run[n - 1], actions[n - 1]);
    }
  }

  lemma InterruptStep(h: Handler, s: State, a: Action)
    requires Enabled(s, a)
    ensures a == StopInInterrupt ==> Step(h, s, a).wakeUps == s.wakeUps + 1
    ensures a == NotifyInInterrupt ==> s.wakeUps == Step(h, s, a).wakeUps + 1
    ensures a != StopInInterrupt && a != NotifyInInterrupt ==> Step(h, s, a).wakeUps == s.wakeUps
  {
  }
}
