/** The server node's own operations on its queues, as they run under the job and reply mutexes. */
module ServerNode {
  import opened ServerPool

  /** Replies sent, and those lost to a send error, when `ok` says which sends succeed. */
  function Delivered(replies: seq<Reply>, ok: nat -> bool): seq<Reply> {
    if replies == [] then []
    else (if ok(replies[0].id) then [replies[0]] else []) + Delivered(replies[1..], ok)
  }

  function Undelivered(replies: seq<Reply>, ok: nat -> bool): seq<Drop> {
    if replies == [] then []
    else (if ok(replies[0].id) then [] else [Drop(replies[0].id, SendFailed)]) + Undelivered(replies[1..], ok)
  }

  /** The workers named queue their replies, those that have one. */
  function QueueAll(h: Handler, s: State, workers: seq<nat>): (r: State)
    ensures r.io == s.io && r.sent == s.sent && r.dropped == s.dropped && s.replies <= r.replies
    decreases |workers|
  {
    if workers == [] then s
    else QueueAll(h, if Enabled(s, Queue(workers[0])) then Step(h, s, Queue(workers[0])) else s, workers[1..])
  }

  /** The oldest reply is taken and sent, or lost. */
  function AfterSend(h: Handler, s: State, ok: nat -> bool): State
    requires s.io.Draining? && s.replies != []
  {
    Step(h, Step(h, s, PopReply), SendDone(ok(s.replies[0].id)))
  }

  /** Sending, oldest first, until a turn finds the queue empty; `late` says which workers queue a
      reply before each turn. */
  function Drain(h: Handler, s: State, ok: nat -> bool, late: seq<seq<nat>>): (r: State)
    requires s.io.Draining?
    ensures r.io.Draining? && r.replies == []
    decreases |late|, |s.replies|
  {
    var p := if late == [] then s else QueueAll(h, s, late[0]);
    if p.replies == [] then p
    else Drain(h, AfterSend(h, p, ok), ok, if late == [] then [] else late[1..])
  }

  class Server {
    const handler: Handler
    var jobs: seq<Job>
    var replies: seq<Reply>
    var workers: seq<Worker>
    var stopping: bool
    ghost var dispatched: seq<Request>
    ghost var io: Io
    ghost var sent: seq<Reply>
    ghost var dropped: seq<Drop>
    ghost var stopMark: nat
    ghost var wakeUps: nat

    ghost function Model(): State
      reads this
    {
      State(dispatched, jobs, workers, replies, io, sent, dropped, stopping, stopMark, wakeUps)
    }

    /** setup: the pool starts out about to look at the queue. */
    constructor (h: Handler, maxWorkers: nat)
      requires maxWorkers > 0
      ensures handler == h && Model() == Start(maxWorkers)
    {
      handler := h;
      jobs, replies, stopping := [], [], false;
      workers := seq(maxWorkers, i => Checking);
      dispatched, io, sent, dropped, stopMark, wakeUps := [], Between, [], [], 0, 0;
    }

    /** dispatchRequest_, up to its notify_one. */
    method DispatchRequest(request: Request, id: nat)
      requires Enabled(Model(), Dispatch(request)) && id == |dispatched|
      modifies this
      ensures Model() == Step(handler, old(Model()), Dispatch(request))
    {
      jobs := jobs + [Job(id, request)];
      dispatched := dispatched + [request];
      io := Notifying;
    }

    /** One look of a worker at the queue, under the job mutex. */
    method LookForJob(i: nat) returns (d: Decision)
      requires Enabled(Model(), Check(i))
      modifies this
      ensures d == Decide(old(jobs), stopping)
      ensures Model() == Step(handler, old(Model()), Check(i))
    {
      if !stopping && jobs == [] {
        d := Sleep;
        workers := workers[i := Asleep];
      } else if stopping && jobs == [] {
        d := Leave;
        workers := workers[i := Exited];
      } else {
        var job := jobs[0];
        jobs := jobs[1..];
        d := Take(job);
        workers := workers[i := Handling(job)];
      }
    }

    /** The handler's outcome, outside any lock: an answer is kept for the reply queue. */
    method HandleJob(i: nat)
      requires Enabled(Model(), Handled(i))
      modifies this
      ensures Model() == Step(handler, old(Model()), Handled(i))
    {
      var job := workers[i].job;
      match handler(job.id, job.request.body) {
        case Answer(response) =>
          workers := workers[i := Queuing(Reply(job.id, response, job.request.ctx))];
        case Silent =>
          workers := workers[i := Checking];
          dropped := dropped + [Drop(job.id, NoReplyWanted)];
        case Threw =>
          workers := workers[i := Checking];
          dropped := dropped + [Drop(job.id, HandlerThrew)];
      }
    }

    /** The reply enters the queue, under the reply mutex. */
    method EnqueueReply(i: nat)
      requires Enabled(Model(), Queue(i))
      modifies this
      ensures Model() == Step(handler, old(Model()), Queue(i))
    {
      replies := replies + [workers[i].reply];
      workers := workers[i := Checking];
    }

    /** interrupt and cleanup set the flag; only the first time counts. */
    method StopWorkers()
      modifies this
      ensures Model() == Stopped(old(Model())).(wakeUps := old(wakeUps) + 1)
    {
      if !stopping {
        stopMark := |dispatched|;
      }
      stopping := true;
      wakeUps := wakeUps + 1;
    }

    method QueueReplies(ready: seq<nat>)
      modifies this
      ensures Model() == QueueAll(handler, old(Model()), ready)
    {
      var k := 0;
      while k < |ready|
        invariant k <= |ready|
        invariant QueueAll(handler, Model(), ready[k..]) == QueueAll(handler, old(Model()), ready)
      {
        assert ready[k..][1..] == ready[k + 1..];
        if ready[k] < |workers| && workers[ready[k]].Queuing? {
          EnqueueReply(ready[k]);
        }
        k := k + 1;
      }
    }

    /** One turn of drainReplies_, after workers have queued their replies: the oldest is taken under
        the mutex and sent outside it; an error loses only that reply. */
    method SendOldest(ok: nat -> bool) returns (done: bool)
      requires io.Draining?
      modifies this
      ensures done == (old(replies) == [])
      ensures done ==> Model() == old(Model())
      ensures !done ==> Model() == AfterSend(handler, old(Model()), ok)
    {
      if replies == [] { return true; }
      var reply := replies[0];
      replies := replies[1..];
      if ok(reply.id) {
        sent := sent + [reply];
      } else {
        dropped := dropped + [Drop(reply.id, SendFailed)];
      }
      return false;
    }

    /** drainReplies_: oldest first until a turn finds the queue empty. */
    method DrainReplies(ok: nat -> bool, late: seq<seq<nat>>)
      requires io.Draining?
      modifies this
      ensures Model() == Drain(handler, old(Model()), ok, late)
    {
      ghost var start := Model();
      var coming, done := late, false;
      while !done
        invariant io.Draining?
        invariant if done then Model() == Drain(handler, start, ok, late)
                  else Drain(handler, Model(), ok, coming) == Drain(handler, start, ok, late)
        decreases !done, |coming|, |replies|
      {
        if coming != [] {
          QueueReplies(coming[0]);
        }
        done := SendOldest(ok);
        coming := if coming == [] then [] else coming[1..];
      }
    }
  }

  lemma {:induction false} QueueAllConserves(h: Handler, s: State, workers: seq<nat>, id: nat)
    ensures Places(QueueAll(h, s, workers), id) == Places(s, id)
    decreases |workers|
  {
    if workers != [] {
      var s' := if Enabled(s, Queue(workers[0])) then Step(h, s, Queue(workers[0])) else s;
      if Enabled(s, Queue(workers[0])) {
        StepCounts(h, s, Queue(workers[0]), id);
      }
      QueueAllConserves(h, s', workers[1..], id);
    }
  }

  /** Draining loses nothing: whatever workers queue meanwhile, each request stays in one place. */
  lemma {:induction false} DrainingLosesNothing(h: Handler, s: State, ok: nat -> bool, late: seq<seq<nat>>, id: nat)
    requires s.io.Draining?
    ensures Places(Drain(h, s, ok, late), id) == Places(s, id)
    decreases |late|, |s.replies|
  {
    if late != [] {
      QueueAllConserves(h, s, late[0], id);
    }
    var p := if late == [] then s else QueueAll(h, s, late[0]);
    if p.replies != [] {
      StepCounts(h, p, PopReply, id);
      StepCounts(h, Step(h, p, PopReply), SendDone(ok(p.replies[0].id)), id);
      DrainingLosesNothing(h, AfterSend(h, p, ok), ok, if late == [] then [] else late[1..], id);
    }
  }

  /** What is sent and what is lost, in order: the replies that were queued, then those `added`
      meanwhile, each by the outcome of its own send. */
  lemma {:induction false} DrainsInOrder(h: Handler, s: State, ok: nat -> bool, late: seq<seq<nat>>)
    returns (added: seq<Reply>)
    requires s.io.Draining?
    ensures Drain(h, s, ok, late).sent == s.sent + Delivered(s.replies + added, ok)
    ensures Drain(h, s, ok, late).dropped == s.dropped + Undelivered(s.replies + added, ok)
    ensures late == [] ==> added == []
    decreases |late|, |s.replies|
  {
    var p := if late == [] then s else QueueAll(h, s, late[0]);
    added := p.replies[|s.replies|..];
    assert s.replies + added == p.replies;
    if p.replies != [] {
      var s' := AfterSend(h, p, ok);
      var more := DrainsInOrder(h, s', ok, if late == [] then [] else late[1..]);
      SentFirst(h, p, ok, more);
      Regroup(s.replies, added, more);
      added := added + more;
    }
  }

  lemma SentFirst(h: Handler, p: State, ok: nat -> bool, more: seq<Reply>)
    requires p.io.Draining? && p.replies != []
    ensures var s' := AfterSend(h, p, ok);
            && s'.sent + Delivered(s'.replies + more, ok) == p.sent + Delivered(p.replies + more, ok)
            && s'.dropped + Undelivered(s'.replies + more, ok) == p.dropped + Undelivered(p.replies + more, ok)
  {
    var all, r := p.replies + more, p.replies[0];
    assert all[1..] == p.replies[1..] + more;
    Regroup(p.sent, if ok(r.id) then [r] else [], Delivered(all[1..], ok));
    Regroup(p.dropped, if ok(r.id) then [] else [Drop(r.id, SendFailed)], Undelivered(all[1..], ok));
  }

  /** Which are sent: those whose send succeeds, in their order; the others are lost for that reason. */
  lemma {:induction false} DeliveredExactly(replies: seq<Reply>, more: seq<Reply>, ok: nat -> bool)
    ensures Delivered(replies + more, ok) == Delivered(replies, ok) + Delivered(more, ok)
    ensures Undelivered(replies + more, ok) == Undelivered(replies, ok) + Undelivered(more, ok)
    ensures |Delivered(replies, ok)| + |Undelivered(replies, ok)| == |replies|
    ensures forall r :: r in Delivered(replies, ok) <==> r in replies && ok(r.id)
    ensures forall d :: d in Undelivered(replies, ok) <==> d.reason.SendFailed? && exists r :: r in replies && r.id == d.id && !ok(r.id)
  {
    if replies == [] {
      assert replies + more == more;
    } else {
      var all := replies + more;
      assert all[1..] == replies[1..] + more;
      DeliveredExactly(replies[1..], more, ok);
      Regroup(if ok(replies[0].id) then [replies[0]] else [], Delivered(replies[1..], ok), Delivered(more, ok));
      Regroup(if ok(replies[0].id) then [] else [Drop(replies[0].id, SendFailed)], Undelivered(replies[1..], ok), Undelivered(more, ok));
      OneIsDelivered(replies, ok);
    }
  }

  lemma OneIsDelivered(replies: seq<Reply>, ok: nat -> bool)
    requires replies != []
    ensures forall r :: r in Delivered(replies, ok) <==> r in Delivered(replies[1..], ok) || (r == replies[0] && ok(r.id))
    ensures forall d :: d in Undelivered(replies, ok)
                        <==> d in Undelivered(replies[1..], ok) || (d == Drop(replies[0].id, SendFailed) && !ok(d.id))
  {
  }

  lemma Regroup<T>(a: seq<T>, b: seq<T>, c: seq<T>)
    ensures a + (b + c) == (a + b) + c
  {
  }
}
