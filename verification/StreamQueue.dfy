/** The bounded queues of streams: when full, the oldest frame makes room for the newest.  Frames are
    followed by their place in the order in which they were accepted. */
module StreamQueue {

  /** `queue` and `taken` hold places in `accepted`; taking hands a frame to the transport or to a
      reader. */
  datatype Queue<T> = Queue(accepted: seq<T>, queue: seq<nat>, taken: seq<nat>)

  function Pushed<T>(q: Queue<T>, limit: nat, frame: T): Queue<T> {
    var room := if |q.queue| >= limit && q.queue != [] then q.queue[1..] else q.queue;
    Queue(q.accepted + [frame], room + [|q.accepted|], q.taken)
  }

  function Taken<T>(q: Queue<T>): Queue<T>
    requires q.queue != []
  {
    Queue(q.accepted, q.queue[1..], q.taken + [q.queue[0]])
  }

  function PushedAll<T>(q: Queue<T>, limit: nat, frames: seq<T>): (r: Queue<T>)
    ensures q.accepted <= r.accepted && r.taken == q.taken
    decreases |frames|
  {
    if frames == [] then q else PushedAll(Pushed(q, limit, frames[0]), limit, frames[1..])
  }

  /** Taking until a turn finds the queue empty, when `late` is pushed before each turn. */
  function Drained<T>(q: Queue<T>, limit: nat, late: seq<seq<T>>): (r: Queue<T>)
    ensures r.queue == [] && q.accepted <= r.accepted && q.taken <= r.taken
    decreases |late|, |q.queue|
  {
    var p := if late == [] then q else PushedAll(q, limit, late[0]);
    if p.queue == [] then p else Drained(Taken(p), limit, if late == [] then [] else late[1..])
  }

  /** What happens before a look at the queue: frames arrive, and the flags of close are set by then or not. */
  datatype Turn<T> = Turn(arrived: seq<T>, closed: bool)

  datatype Look = Took | Over | NothingYet

  /** Looking until a frame is there to take or the flags of close are set, as long as there are turns. */
  function Looked<T>(q: Queue<T>, limit: nat, turns: seq<Turn<T>>): (Queue<T>, Look)
    decreases |turns|
  {
    if turns == [] then (q, NothingYet)
    else
      var p := PushedAll(q, limit, turns[0].arrived);
      if p.queue != [] then (Taken(p), Took)
      else if turns[0].closed then (p, Over)
      else Looked(p, limit, turns[1..])
  }

  /** What every sequence of pushes and takes keeps, for a queue of `limit` frames. */
  ghost predicate Orderly<T>(q: Queue<T>, limit: nat) {
    && |q.queue| <= limit && |q.queue| <= |q.accepted|
    && (forall i | 0 <= i < |q.queue| :: q.queue[i] == |q.accepted| - |q.queue| + i)
    && (forall i, j | 0 <= i < j < |q.taken| :: q.taken[i] < q.taken[j])
    && (forall i | 0 <= i < |q.taken| :: q.taken[i] < |q.accepted| - |q.queue|)
    && (forall k | 0 <= k < |q.accepted| - |q.queue| :: k in q.taken || k + limit < |q.accepted|)
  }

  lemma PushIsOrderly<T>(q: Queue<T>, limit: nat, frame: T)
    requires limit > 0 && Orderly(q, limit)
    ensures Orderly(Pushed(q, limit, frame), limit)
    ensures Pushed(q, limit, frame).accepted == q.accepted + [frame] && Pushed(q, limit, frame).taken == q.taken
    ensures |Pushed(q, limit, frame).queue| == if |q.queue| < limit then |q.queue| + 1 else limit
  {
  }

  lemma TakeIsOrderly<T>(q: Queue<T>, limit: nat)
    requires Orderly(q, limit) && q.queue != []
    ensures Orderly(Taken(q), limit)
    ensures Taken(q).accepted == q.accepted && |Taken(q).queue| == |q.queue| - 1
    ensures |Taken(q).taken| == |q.taken| + 1 && Taken(q).taken[|q.taken|] == |q.accepted| - |q.queue|
  {
    var q' := Taken(q);
    var first := q.queue[0];
    assert q'.taken[|q.taken|] == first;
    forall k | 0 <= k < |q'.accepted| - |q'.queue| ensures k in q'.taken || k + limit < |q'.accepted| {
      if k != first && k in q.taken {
        assert k in q'.taken;
      }
    }
  }

  lemma {:induction false} PushedAllIsOrderly<T>(q: Queue<T>, limit: nat, frames: seq<T>)
    requires limit > 0 && Orderly(q, limit)
    ensures Orderly(PushedAll(q, limit, frames), limit)
    ensures PushedAll(q, limit, frames).accepted == q.accepted + frames
    decreases |frames|
  {
    if frames != [] {
      PushIsOrderly(q, limit, frames[0]);
      PushedAllIsOrderly(Pushed(q, limit, frames[0]), limit, frames[1..]);
      assert q.accepted + frames == (q.accepted + [frames[0]]) + frames[1..];
    }
  }

  /** A read takes one frame, in order, exactly when one is waiting or arrives before close is seen; an
      ended or fruitless one leaves the queue empty and has missed none. */
  lemma {:induction false} LookingTakesInOrder<T>(q: Queue<T>, limit: nat, turns: seq<Turn<T>>)
    requires limit > 0 && Orderly(q, limit) && turns != []
    ensures var (r, look) := Looked(q, limit, turns);
            && Orderly(r, limit)
            && (look == Took <==> q.queue != [] || FrameBeforeClose(turns))
            && (look == Took ==> |r.taken| == |q.taken| + 1 && q.taken <= r.taken)
            && (look != Took ==> r == q && q.queue == [])
            && (look == Over ==> exists t | t in turns :: t.closed)
    decreases |turns|
  {
    var p := PushedAll(q, limit, turns[0].arrived);
    PushedAllIsOrderly(q, limit, turns[0].arrived);
    PushedAllIsEmpty(q, limit, turns[0].arrived);
    if p.queue != [] {
      TakeIsOrderly(p, limit);
    } else if !turns[0].closed && turns[1..] != [] {
      LookingTakesInOrder(p, limit, turns[1..]);
      assert forall t | t in turns[1..] :: t in turns;
    }
  }

  predicate FrameBeforeClose<T>(turns: seq<Turn<T>>) {
    turns != [] && (turns[0].arrived != [] || (!turns[0].closed && FrameBeforeClose(turns[1..])))
  }

  lemma {:induction false} PushedAllIsEmpty<T>(q: Queue<T>, limit: nat, frames: seq<T>)
    ensures PushedAll(q, limit, frames).queue == [] <==> q.queue == [] && frames == []
    ensures frames == [] ==> PushedAll(q, limit, frames) == q
    decreases |frames|
  {
    if frames != [] {
      PushedAllIsEmpty(Pushed(q, limit, frames[0]), limit, frames[1..]);
    }
  }

  /** Draining hands over every frame accepted by its end, late ones included, or drops it for a full
      queue of newer ones. */
  lemma {:induction false} DrainingHandsOver<T>(q: Queue<T>, limit: nat, late: seq<seq<T>>, k: nat)
    requires limit > 0 && Orderly(q, limit) && k < |Drained(q, limit, late).accepted|
    ensures Orderly(Drained(q, limit, late), limit)
    ensures k in Drained(q, limit, late).taken || k + limit < |Drained(q, limit, late).accepted|
    decreases |late|, |q.queue|
  {
    if late != [] {
      PushedAllIsOrderly(q, limit, late[0]);
    }
    var p := if late == [] then q else PushedAll(q, limit, late[0]);
    if p.queue != [] {
      TakeIsOrderly(p, limit);
      DrainingHandsOver(Taken(p), limit, if late == [] then [] else late[1..], k);
    }
  }

  /** A frame accepted and neither taken nor queued any more: it was dropped. */
  ghost predicate Dropped<T>(q: Queue<T>, k: nat) {
    k < |q.accepted| && k !in q.taken && k !in q.queue
  }

  /** What order and bound mean for each frame: the queue holds the newest frames, taken frames were
      taken in order, and one was dropped only when a full queue of newer ones came after it. */
  lemma WhereFramesAre<T>(q: Queue<T>, limit: nat, k: nat)
    requires Orderly(q, limit) && k < |q.accepted|
    ensures |q.queue| <= limit
    ensures (k in q.queue <==> k >= |q.accepted| - |q.queue|) && !(k in q.queue && k in q.taken)
    ensures Dropped(q, k) ==> k + limit < |q.accepted|
  {
    if k >= |q.accepted| - |q.queue| {
      assert q.queue[k - (|q.accepted| - |q.queue|)] == k;
    }
  }

  // ----- the writer -----

  /** The thread is looking at the queue, writing a frame, or gone. */
  datatype Thread = Looking | Writing | Exited

  /** `writers` are calls of write that have passed the closed check and not yet queued their frame;
      `atExit` is how many frames had been accepted when the thread left. */
  datatype Writer<T> = Writer(
    q: Queue<T>,
    closed: bool,
    closeRequested: bool,
    thread: Thread,
    writers: nat,
    atExit: nat)

  datatype Action<T> =
    | BeginWrite
    | CloneFails
    | Enqueue(frame: T)
    | SetClosed
    | RequestClose
    | TakeFrame
    | FrameWritten
    | LeaveThread

  function Fresh<T>(): Writer<T> {
    Writer(Queue([], [], []), false, false, Looking, 0, 0)
  }

  predicate Enabled<T>(w: Writer<T>, a: Action<T>) {
    match a
    case BeginWrite => !w.closed
    case CloneFails => w.writers > 0
    case Enqueue(_) => w.writers > 0
    case SetClosed => true
    case RequestClose => w.closed
    case TakeFrame => w.thread.Looking? && w.q.queue != []
    case FrameWritten => w.thread.Writing?
    case LeaveThread => w.thread.Looking? && w.q.queue == [] && w.closeRequested
  }

  function Step<T>(w: Writer<T>, limit: nat, a: Action<T>): Writer<T>
    requires Enabled(w, a)
  {
    match a
    case BeginWrite => w.(writers := w.writers + 1)
    case CloneFails => w.(writers := w.writers - 1)
    case Enqueue(frame) => w.(writers := w.writers - 1, q := Pushed(w.q, limit, frame))
    case SetClosed => w.(closed := true)
    case RequestClose => w.(closeRequested := true)
    case TakeFrame => w.(thread := Writing, q := Taken(w.q))
    case FrameWritten => w.(thread := Looking)
    case LeaveThread => w.(thread := Exited, atExit := |w.q.accepted|)
  }

  ghost predicate IsRun<T(!new)>(limit: nat, run: seq<Writer<T>>, actions: seq<Action<T>>) {
    && |run| == |actions| + 1 && run[0] == Fresh()
    && forall n {:trigger actions[n]} | 0 <= n < |actions| ::
         Enabled(run[n], actions[n]) && run[n + 1] == Step(run[n], limit, actions[n])
  }

  /** Once the thread is gone only frames of late writers are queued. */
  ghost predicate ExitIsClean<T>(w: Writer<T>) {
    && (w.closeRequested ==> w.closed)
    && (w.thread.Exited? ==>
          && w.closeRequested && w.atExit <= |w.q.accepted|
          && forall k | k in w.q.queue :: k >= w.atExit)
  }

  lemma StepKeepsExitClean<T>(w: Writer<T>, limit: nat, a: Action<T>)
    requires Enabled(w, a) && ExitIsClean(w)
    ensures ExitIsClean(Step(w, limit, a))
  {
    if a.Enqueue? {
      var w' := Step(w, limit, a);
      assert forall k | k in w'.q.queue :: k in w.q.queue || k == |w.q.accepted|;
    }
  }

  lemma {:induction false} OrderlyInEveryRun<T(!new)>(limit: nat, run: seq<Writer<T>>, actions: seq<Action<T>>, n: nat)
    requires limit > 0 && IsRun(limit, run, actions) && n < |run|
    ensures Orderly(run[n].q, limit) && ExitIsClean(run[n])
  {
    if n > 0 {
      OrderlyInEveryRun(limit, run, actions, n - 1);
      var w, a := run[n - 1], actions[n - 1];
      StepKeepsExitClean(w, limit, a);
      if a.Enqueue? {
        PushIsOrderly(w.q, limit, a.frame);
      } else if a.TakeFrame? {
        TakeIsOrderly(w.q, limit);
      }
    }
  }

  // ----- what the calls so far amount to -----

  function QueuedIn<T>(actions: seq<Action<T>>): seq<T> {
    if actions == [] then []
    else
      var last := actions[|actions| - 1];
      QueuedIn(actions[..|actions| - 1]) + (if last.Enqueue? then [last.frame] else [])
  }

  ghost function Times<T>(actions: seq<Action<T>>, a: Action<T>): nat {
    multiset(actions)[a]
  }

  lemma OneMoreTime<T>(actions: seq<Action<T>>, n: nat, a: Action<T>)
    requires 0 < n <= |actions|
    ensures Times(actions[..n], a) == Times(actions[..n - 1], a) + (if actions[n - 1] == a then 1 else 0)
    ensures a in actions[..n] <==> a in actions[..n - 1] || actions[n - 1] == a
  {
    assert actions[..n] == actions[..n - 1] + [actions[n - 1]];
  }

  /** In every run: the flags say which parts of a close have been done, and the frames accepted are those
      queued by writes, in that order. */
  lemma {:induction false} AcceptedExactly<T(!new)>(limit: nat, run: seq<Writer<T>>, actions: seq<Action<T>>, n: nat)
    requires IsRun(limit, run, actions) && n < |run|
    ensures run[n].closed <==> SetClosed in actions[..n]
    ensures run[n].closeRequested <==> RequestClose in actions[..n]
    ensures run[n].q.accepted == QueuedIn(actions[..n])
  {
    if n > 0 {
      AcceptedExactly(limit, run, actions, n - 1);
      OneMoreTime(actions, n, SetClosed);
      OneMoreTime(actions, n, RequestClose);
      assert actions[..n][..n - 1] == actions[..n - 1];
      assert run[n] == Step(run[n - 1], limit, actions[n - 1]);
    }
  }

  /** Every write that began before close is under way, or has queued its frame, or failed to clone it;
      and the thread writes the frames it takes one at a time. */
  lemma {:induction false} EachWriteIsSomewhere<T(!new)>(limit: nat, run: seq<Writer<T>>, actions: seq<Action<T>>, n: nat)
    requires IsRun(limit, run, actions) && n < |run|
    ensures Times(actions[..n], BeginWrite) == run[n].writers + Times(actions[..n], CloneFails) + |run[n].q.accepted|
    ensures |run[n].q.taken| == Times(actions[..n], TakeFrame)
            == Times(actions[..n], FrameWritten) + (if run[n].thread.Writing? then 1 else 0)
  {
    if n > 0 {
      EachWriteIsSomewhere(limit, run, actions, n - 1);
      OneMoreTime(actions, n, BeginWrite);
      OneMoreTime(actions, n, CloneFails);
      OneMoreTime(actions, n, TakeFrame);
      OneMoreTime(actions, n, FrameWritten);
      CallsStep(run[n - 1], limit, actions[n - 1]);
    }
  }

  lemma CallsStep<T>(w: Writer<T>, limit: nat, a: Action<T>)
    requires Enabled(w, a)
    ensures var w' := Step(w, limit, a);
            && w'.writers + |w'.q.accepted| + (if a == CloneFails then 1 else 0)
               == w.writers + |w.q.accepted| + (if a == BeginWrite then 1 else 0)
            && |w'.q.taken| == |w.q.taken| + (if a == TakeFrame then 1 else 0)
            && (a == TakeFrame ==> !w.thread.Writing? && w'.thread.Writing?)
            && (a == FrameWritten ==> w.thread.Writing? && !w'.thread.Writing?)
            && (a != TakeFrame && a != FrameWritten ==> (w'.thread.Writing? <==> w.thread.Writing?))
  {
  }

  /** No write begins once closed is set, a stop is requested only then, and the thread leaves exactly when
      it looks at an empty queue and the stop has been requested. */
  lemma CloseStopsWrites<T(!new)>(limit: nat, run: seq<Writer<T>>, actions: seq<Action<T>>, n: nat)
    requires IsRun(limit, run, actions) && n < |actions|
    ensures actions[n].BeginWrite? ==> SetClosed !in actions[..n]
    ensures actions[n].RequestClose? ==> SetClosed in actions[..n]
    ensures run[n].thread.Looking? && run[n].q.queue == [] && RequestClose in actions[..n] ==> Enabled(run[n], LeaveThread)
    ensures !run[n].thread.Exited? && run[n + 1].thread.Exited? ==>
              run[n].thread.Looking? && run[n].q.queue == [] && RequestClose in actions[..n]
    ensures run[n].thread.Writing? && actions[n].FrameWritten? ==> run[n + 1].thread.Looking?
    ensures run[n].thread.Looking? && run[n].q.queue != [] ==> Enabled(run[n], TakeFrame)
    ensures run[n].thread.Writing? ==> Enabled(run[n], FrameWritten)
    ensures SetClosed !in actions[..n] ==> Enabled(run[n], BeginWrite)
  {
    AcceptedExactly(limit, run, actions, n);
    assert Enabled(run[n], actions[n]) && run[n + 1] == Step(run[n], limit, actions[n]);
  }

  /** Closing flushes: when the writer thread is gone, every frame accepted before it left was handed
      to the transport, in order, or dropped for a full queue of newer frames. */
  lemma CloseFlushes<T(!new)>(limit: nat, run: seq<Writer<T>>, actions: seq<Action<T>>, n: nat, k: nat)
    requires limit > 0 && IsRun(limit, run, actions) && n < |run|
    requires run[n].thread.Exited? && k < run[n].atExit
    ensures k in run[n].q.taken || (Dropped(run[n].q, k) && k + limit < |run[n].q.accepted|)
  {
    OrderlyInEveryRun(limit, run, actions, n);
    WhereFramesAre(run[n].q, limit, k);
  }

  lemma {:induction false} NothingIsAcceptedAfter<T(!new)>(limit: nat, run: seq<Writer<T>>, actions: seq<Action<T>>,
                                                           n: nat, m: nat)
    requires limit > 0 && IsRun(limit, run, actions) && n <= m < |run|
    requires run[n].closed && run[n].writers == 0 && !run[n].thread.Exited?
    ensures run[m].closed && run[m].writers == 0 && run[m].q.accepted == run[n].q.accepted
    ensures run[m].thread.Exited? ==> run[m].atExit == |run[m].q.accepted|
  {
    if n < m {
      NothingIsAcceptedAfter(limit, run, actions, n, m - 1);
      assert run[m] == Step(run[m - 1], limit, actions[m - 1]);
    }
  }

  /** What a caller of close can rely on: when no write is between its closed check and its queueing
      once closed is set, every frame ever accepted is handed to the transport before the thread has
      left, or was dropped for a full queue of newer ones. */
  lemma CloseFlushesEverything<T(!new)>(limit: nat, run: seq<Writer<T>>, actions: seq<Action<T>>, n: nat, m: nat, k: nat)
    requires limit > 0 && IsRun(limit, run, actions) && n <= m < |run|
    requires run[n].closed && run[n].writers == 0 && !run[n].thread.Exited?
    requires run[m].thread.Exited? && k < |run[m].q.accepted|
    ensures k in run[m].q.taken || (Dropped(run[m].q, k) && k + limit < |run[m].q.accepted|)
  {
    NothingIsAcceptedAfter(limit, run, actions, n, m);
    CloseFlushes(limit, run, actions, m, k);
  }

  /** The thread leaves only with an empty queue and after close was requested. */
  lemma LeavesEmpty<T>(w: Writer<T>, limit: nat, a: Action<T>)
    requires Enabled(w, a) && !w.thread.Exited? && Step(w, limit, a).thread.Exited?
    ensures w.q.queue == [] && w.closeRequested && Step(w, limit, a).atExit == |w.q.accepted|
  {
  }

  /** A write that had passed the closed check before close can still queue its frame after the
      thread has left; no later step sends it. */
  lemma {:induction false} LateFrameIsNeverSent<T(!new)>(limit: nat, run: seq<Writer<T>>, actions: seq<Action<T>>,
                                                         n: nat, m: nat)
    requires limit > 0 && IsRun(limit, run, actions) && n <= m < |run| && run[n].thread.Exited?
    ensures run[m].thread.Exited? && run[m].q.taken == run[n].q.taken && run[m].atExit == run[n].atExit
  {
    if n < m {
      LateFrameIsNeverSent(limit, run, actions, n, m - 1);
      assert run[m] == Step(run[m - 1], limit, actions[m - 1]);
    }
  }

  // ----- what close may leave behind -----

  predicate Possible<T>(w: Writer<T>, limit: nat, actions: seq<Action<T>>)
    decreases |actions|
  {
    actions == [] || (Enabled(w, actions[0]) && Possible(Step(w, limit, actions[0]), limit, actions[1..]))
  }

  function After<T>(w: Writer<T>, limit: nat, actions: seq<Action<T>>): Writer<T>
    requires Possible(w, limit, actions)
    decreases |actions|
  {
    if actions == [] then w else After(Step(w, limit, actions[0]), limit, actions[1..])
  }

  /** However it goes on, a thread that has left leaves no frame behind. */
  ghost predicate LeavesNothing<T(!new)>(w: Writer<T>, limit: nat) {
    forall actions | Possible(w, limit, actions) ::
      After(w, limit, actions).thread.Exited? ==> After(w, limit, actions).q.queue == []
  }

  lemma {:induction false} NoWriterNoLateFrame<T>(w: Writer<T>, limit: nat, actions: seq<Action<T>>)
    requires Possible(w, limit, actions)
    requires w.closed && w.writers == 0 && (w.thread.Exited? ==> w.q.queue == [])
    ensures After(w, limit, actions).thread.Exited? ==> After(w, limit, actions).q.queue == []
    decreases |actions|
  {
    if actions != [] {
      NoWriterNoLateFrame(Step(w, limit, actions[0]), limit, actions[1..]);
    }
  }

  lemma Begin<T>(w: Writer<T>, limit: nat, a: Action<T>, rest: seq<Action<T>>)
    requires Enabled(w, a) && Possible(Step(w, limit, a), limit, rest)
    ensures Possible(w, limit, [a] + rest) && After(w, limit, [a] + rest) == After(Step(w, limit, a), limit, rest)
  {
    assert ([a] + rest)[1..] == rest;
  }

  /** The thread writes what is queued and leaves, and a write under way then queues its frame. */
  lemma {:induction false} LeaveThenEnqueue<T>(w: Writer<T>, limit: nat, frame: T) returns (actions: seq<Action<T>>)
    requires w.closed && w.closeRequested && w.writers > 0
    ensures Possible(w, limit, actions)
    ensures After(w, limit, actions).thread.Exited? && After(w, limit, actions).q.queue != []
    decreases |w.q.queue|, w.thread.Writing?, !w.thread.Exited?
  {
    match w.thread
    case Exited =>
      actions := [Enqueue(frame)];
      assert actions[1..] == [];
    case Writing =>
      var rest := LeaveThenEnqueue(Step(w, limit, FrameWritten), limit, frame);
      Begin(w, limit, FrameWritten, rest);
      actions := [FrameWritten] + rest;
    case Looking =>
      var a := if w.q.queue == [] then LeaveThread else TakeFrame;
      var rest := LeaveThenEnqueue(Step(w, limit, a), limit, frame);
      Begin(w, limit, a, rest);
      actions := [a] + rest;
  }

  /** Once closed is set, and whatever happens next: no frame can be left behind exactly when no write
      is between its closed check and its queueing, and none has been left behind already. */
  lemma LeavesNothingExactly<T(!new)>(w: Writer<T>, limit: nat, frame: T)
    requires w.closed
    ensures LeavesNothing(w, limit) <==> w.writers == 0 && (w.thread.Exited? ==> w.q.queue == [])
  {
    if w.writers == 0 && (w.thread.Exited? ==> w.q.queue == []) {
      forall actions | Possible(w, limit, actions)
        ensures After(w, limit, actions).thread.Exited? ==> After(w, limit, actions).q.queue == []
      {
        NoWriterNoLateFrame(w, limit, actions);
      }
    } else if w.writers > 0 {
      var rest := LeaveThenEnqueue(Step(w, limit, RequestClose), limit, frame);
      Begin(w, limit, RequestClose, rest);
    } else {
      assert Possible(w, limit, []) && After(w, limit, []) == w;
    }
  }

  /** Such a run exists: write passes its check, close runs to its end, then the frame is queued. */
  lemma ALateFrameExample<T(!new)>(limit: nat, frame: T)
    requires limit > 0
    ensures var w1 := Step(Fresh(), limit, BeginWrite);
            var w2 := Step(w1, limit, SetClosed);
            var w3 := Step(w2, limit, RequestClose);
            var w4 := Step(w3, limit, LeaveThread);
            var w5 := Step(w4, limit, Enqueue(frame));
            w5.thread.Exited? && w5.q.queue == [0] && w5.q.taken == []
  {
    assert Fresh<T>().q.queue == [];
  }
}
