/** The queued reader: the thread that fills its queue, calls of read that take from it or wait, and
    close.  The frames are those of StreamQueue. */
module StreamReading {
  import Q = StreamQueue

  /** The reading thread tests its loop, polls the transport, is about to notify, or is gone. */
  datatype Thread = Checking | Polling | Notifying | Gone

  /** close sets two flags and notifies, without the queue's mutex. */
  datatype Close = NotCalled | FlagSet | Requested | Notified

  /** Calls of read under way: `awake` will look at the queue once they hold the mutex, one may be
      `deciding`: it holds the mutex, found nothing and is about to sleep; the others are `asleep`. */
  datatype Reader<T> = Reader(
    q: Q.Queue<T>,
    close: Close,
    thread: Thread,
    awake: nat,
    deciding: bool,
    asleep: nat)

  datatype Action<T> =
    | BeginRead
    | TakeFrame
    | End
    | TimeOut
    | Decide
    | FallAsleep
    | Wake
    | SetClosed
    | RequestClose
    | NotifyAll
    | CheckLoop
    | NothingArrives
    | Arrives(frame: T)
    | NotifyOne

  function Fresh<T>(): Reader<T> {
    Reader(Q.Queue([], [], []), NotCalled, Checking, 0, false, 0)
  }

  predicate Closed<T>(r: Reader<T>) {
    r.close != NotCalled
  }

  predicate CloseRequested<T>(r: Reader<T>) {
    r.close.Requested? || r.close.Notified?
  }

  predicate FindsNothing<T>(r: Reader<T>) {
    !r.deciding && r.awake > 0 && r.q.queue == []
  }

  predicate Enabled<T>(r: Reader<T>, a: Action<T>) {
    match a
    case BeginRead => !Closed(r)
    case TakeFrame => !r.deciding && r.awake > 0 && r.q.queue != []
    case End => FindsNothing(r) && Closed(r)
    case TimeOut => FindsNothing(r) && !Closed(r)
    case Decide => FindsNothing(r) && !Closed(r)
    case FallAsleep => r.deciding
    case Wake => r.asleep > 0
    case SetClosed => r.close.NotCalled?
    case RequestClose => r.close.FlagSet?
    case NotifyAll => r.close.Requested?
    case CheckLoop => r.thread.Checking?
    case NothingArrives => r.thread.Polling?
    case Arrives(_) => r.thread.Polling? && !r.deciding
    case NotifyOne => r.thread.Notifying?
  }

  function Step<T>(r: Reader<T>, limit: nat, a: Action<T>): Reader<T>
    requires Enabled(r, a)
  {
    match a
    case BeginRead => r.(awake := r.awake + 1)
    case TakeFrame => r.(awake := r.awake - 1, q := Q.Taken(r.q))
    case End => r.(awake := r.awake - 1)
    case TimeOut => r.(awake := r.awake - 1)
    case Decide => r.(awake := r.awake - 1, deciding := true)
    case FallAsleep => r.(deciding := false, asleep := r.asleep + 1)
    case Wake => r.(asleep := r.asleep - 1, awake := r.awake + 1)
    case SetClosed => r.(close := FlagSet)
    case RequestClose => r.(close := Requested)
    case NotifyAll => r.(close := Notified, awake := r.awake + r.asleep, asleep := 0)
    case CheckLoop => r.(thread := if CloseRequested(r) then Gone else Polling)
    case NothingArrives => r.(thread := Checking)
    case Arrives(frame) => r.(thread := Notifying, q := Q.Pushed(r.q, limit, frame))
    case NotifyOne =>
      if r.asleep > 0 then r.(thread := Checking, asleep := r.asleep - 1, awake := r.awake + 1)
      else r.(thread := Checking)
  }

  predicate Possible<T>(r: Reader<T>, limit: nat, actions: seq<Action<T>>)
    decreases |actions|
  {
    actions == [] || (Enabled(r, actions[0]) && Possible(Step(r, limit, actions[0]), limit, actions[1..]))
  }

  function After<T>(r: Reader<T>, limit: nat, actions: seq<Action<T>>): Reader<T>
    requires Possible(r, limit, actions)
    decreases |actions|
  {
    if actions == [] then r else After(Step(r, limit, actions[0]), limit, actions[1..])
  }

  /** The queue is orderly, and frames are not left beside sleepers without someone to take them. */
  ghost predicate Inv<T>(r: Reader<T>, limit: nat) {
    && Q.Orderly(r.q, limit)
    && (r.deciding ==> r.q.queue == [])
    && (r.asleep > 0 ==> |r.q.queue| <= r.awake + if r.thread.Notifying? then 1 else 0)
  }

  lemma StepKeepsInv<T>(r: Reader<T>, limit: nat, a: Action<T>)
    requires limit > 0 && Enabled(r, a) && Inv(r, limit)
    ensures Inv(Step(r, limit, a), limit)
  {
    if a.Arrives? {
      Q.PushIsOrderly(r.q, limit, a.frame);
    } else if a.TakeFrame? {
      Q.TakeIsOrderly(r.q, limit);
    }
  }

  lemma {:induction false} InvAfter<T>(r: Reader<T>, limit: nat, actions: seq<Action<T>>)
    requires limit > 0 && Inv(r, limit) && Possible(r, limit, actions)
    ensures Inv(After(r, limit, actions), limit)
    decreases |actions|
  {
    if actions != [] {
      StepKeepsInv(r, limit, actions[0]);
      InvAfter(Step(r, limit, actions[0]), limit, actions[1..]);
    }
  }

  /** In every run: frames are read in the order of their arrival and at most once, the queue holds the
      newest ones within its bound, and a frame is lost only when `limit` newer ones arrived. */
  lemma ReadsInOrder<T>(limit: nat, actions: seq<Action<T>>, k: nat)
    requires limit > 0 && Possible(Fresh(), limit, actions) && k < |After(Fresh(), limit, actions).q.accepted|
    ensures var q := After(Fresh(), limit, actions).q;
            && |q.queue| <= limit && (forall i, j | 0 <= i < j < |q.taken| :: q.taken[i] < q.taken[j])
            && (k in q.queue <==> k >= |q.accepted| - |q.queue|) && !(k in q.queue && k in q.taken)
            && (Q.Dropped(q, k) ==> k + limit < |q.accepted|)
  {
    InvAfter(Fresh(), limit, actions);
    Q.WhereFramesAre(After(Fresh<T>(), limit, actions).q, limit, k);
  }

  /** While frames wait and a read sleeps, another read is on its way to them or a notification is. */
  lemma NoFrameBesideASleeper<T>(limit: nat, actions: seq<Action<T>>)
    requires limit > 0 && Possible(Fresh(), limit, actions)
    ensures var r := After(Fresh(), limit, actions);
            r.asleep > 0 && r.q.queue != [] ==> r.awake > 0 || Enabled(r, NotifyOne)
  {
    InvAfter(Fresh(), limit, actions);
  }

  // ----- what the calls so far amount to -----

  function ArrivedIn<T>(actions: seq<Action<T>>): seq<T>
    decreases |actions|
  {
    if actions == [] then []
    else (if actions[0].Arrives? then [actions[0].frame] else []) + ArrivedIn(actions[1..])
  }

  ghost function Times<T>(actions: seq<Action<T>>, a: Action<T>): nat {
    multiset(actions)[a]
  }

  function UnderWay<T>(r: Reader<T>): nat {
    r.awake + r.asleep + if r.deciding then 1 else 0
  }

  lemma FirstTime<T>(actions: seq<Action<T>>, a: Action<T>)
    requires actions != []
    ensures Times(actions, a) == (if actions[0] == a then 1 else 0) + Times(actions[1..], a)
    ensures a in actions <==> actions[0] == a || a in actions[1..]
  {
    assert actions == [actions[0]] + actions[1..];
  }

  /** Every read that began is under way, or has taken a frame, found the end or timed out; the frames
      taken are as many as the reads that took one, and those accepted are the ones that arrived. */
  lemma {:induction false} EachReadIsSomewhere<T>(r: Reader<T>, limit: nat, actions: seq<Action<T>>)
    requires Possible(r, limit, actions)
    ensures var r' := After(r, limit, actions);
            && UnderWay(r) + Times(actions, BeginRead)
               == UnderWay(r') + Times(actions, TakeFrame) + Times(actions, End) + Times(actions, TimeOut)
            && |r'.q.taken| == |r.q.taken| + Times(actions, TakeFrame)
            && r'.q.accepted == r.q.accepted + ArrivedIn(actions)
    decreases |actions|
  {
    if actions != [] {
      var r1 := Step(r, limit, actions[0]);
      EachReadIsSomewhere(r1, limit, actions[1..]);
      FirstTime(actions, BeginRead);
      FirstTime(actions, TakeFrame);
      FirstTime(actions, End);
      FirstTime(actions, TimeOut);
      ReadsStep(r, limit, actions[0]);
      assert r.q.accepted + ArrivedIn(actions) == r1.q.accepted + ArrivedIn(actions[1..]);
    }
  }

  lemma ReadsStep<T>(r: Reader<T>, limit: nat, a: Action<T>)
    requires Enabled(r, a)
    ensures var r' := Step(r, limit, a);
            && UnderWay(r') == UnderWay(r) + (if a == BeginRead then 1 else 0)
                               - (if a == TakeFrame || a == End || a == TimeOut then 1 else 0)
            && |r'.q.taken| == |r.q.taken| + (if a == TakeFrame then 1 else 0)
            && r'.q.accepted == r.q.accepted + if a.Arrives? then [a.frame] else []
  {
  }

  /** The flags say which parts of close have been done. */
  lemma {:induction false} ClosedExactly<T>(r: Reader<T>, limit: nat, actions: seq<Action<T>>)
    requires Possible(r, limit, actions)
    ensures Closed(After(r, limit, actions)) <==> Closed(r) || SetClosed in actions
    ensures CloseRequested(After(r, limit, actions)) <==> CloseRequested(r) || RequestClose in actions
    ensures After(r, limit, actions).close.Notified? <==> r.close.Notified? || NotifyAll in actions
    decreases |actions|
  {
    if actions != [] {
      ClosedExactly(Step(r, limit, actions[0]), limit, actions[1..]);
      FirstTime(actions, SetClosed);
      FirstTime(actions, RequestClose);
      FirstTime(actions, NotifyAll);
    }
  }

  /** A read takes a frame only if one waits, ends only if none does and the reader is closed, and times out
      or goes to sleep only if none does and it is open; it begins only before close. */
  lemma ReadsEndAsTheyShould<T>(r: Reader<T>, limit: nat, a: Action<T>)
    requires Enabled(r, a)
    ensures a.BeginRead? ==> r.close == NotCalled
    ensures a.TakeFrame? ==> r.q.queue != []
    ensures a.End? ==> r.q.queue == [] && r.close != NotCalled
    ensures a.TimeOut? || a.Decide? ==> r.q.queue == [] && r.close == NotCalled
    ensures r.thread != Gone ==> (Step(r, limit, a).thread.Gone? <==> a.CheckLoop? && CloseRequested(r))
    ensures a.Arrives? || a.NothingArrives? ==> r.thread.Polling? && !Step(r, limit, a).thread.Polling?
  {
  }

  /** A read that is awake goes on as soon as nobody holds the queue: it takes a frame exactly if one waits,
      ends exactly if none does and the reader is closed, and may go to sleep or time out exactly if it is
      open; and a frame that was polled for gets in. */
  lemma ReadsGoOnExactly<T>(r: Reader<T>, frame: T)
    requires r.awake > 0 && !r.deciding
    ensures Enabled(r, TakeFrame) <==> r.q.queue != []
    ensures Enabled(r, End) <==> r.q.queue == [] && r.close != NotCalled
    ensures Enabled(r, Decide) <==> Enabled(r, TimeOut)
    ensures Enabled(r, Decide) <==> r.q.queue == [] && r.close == NotCalled
    ensures r.thread.Polling? ==> Enabled(r, Arrives(frame))
  {
  }

  /** Reads fall asleep one at a time; a notification of a frame wakes one, that of close all of them. */
  lemma SleepersExactly<T>(r: Reader<T>, limit: nat, a: Action<T>)
    requires Enabled(r, a)
    ensures Step(r, limit, a).asleep
            == if a.FallAsleep? then r.asleep + 1
               else if a.NotifyAll? then 0
               else if (a.NotifyOne? || a.Wake?) && r.asleep > 0 then r.asleep - 1
               else r.asleep
    ensures Step(r, limit, a).deciding <==> if r.deciding then !a.FallAsleep? else a.Decide?
  {
  }

  // ----- close -----

  predicate Reading<T>(r: Reader<T>) {
    r.awake > 0 || r.deciding || r.asleep > 0
  }

  /** Once closed is set and no read is under way, nothing is read any more. */
  lemma {:induction false} NothingIsReadAfterClose<T>(r: Reader<T>, limit: nat, more: seq<Action<T>>)
    requires Closed(r) && !Reading(r) && Possible(r, limit, more)
    ensures Closed(After(r, limit, more)) && !Reading(After(r, limit, more))
    ensures After(r, limit, more).q.taken == r.q.taken
    decreases |more|
  {
    if more != [] {
      NothingIsReadAfterClose(Step(r, limit, more[0]), limit, more[1..]);
    }
  }

  /** Once the stop is requested at most the poll under way brings a frame. */
  lemma {:induction false} AtMostOneMoreFrame<T>(r: Reader<T>, limit: nat, more: seq<Action<T>>)
    requires CloseRequested(r) && Possible(r, limit, more)
    ensures |After(r, limit, more).q.accepted| <= |r.q.accepted| + if r.thread.Polling? then 1 else 0
    ensures r.thread.Gone? ==> After(r, limit, more).thread.Gone?
    decreases |more|
  {
    if more != [] {
      AtMostOneMoreFrame(Step(r, limit, more[0]), limit, more[1..]);
    }
  }

  /** Nobody is left to wake a read that sleeps. */
  predicate Stuck<T>(r: Reader<T>) {
    r.asleep > 0 && r.close.Notified? && r.thread.Gone?
  }

  /** From there no step but a spurious wake-up, or the time-out of a read that has one, helps. */
  lemma {:induction false} StuckForEver<T>(r: Reader<T>, limit: nat, more: seq<Action<T>>)
    requires Stuck(r) && Possible(r, limit, more) && Wake !in more
    ensures Stuck(After(r, limit, more)) && After(r, limit, more).asleep >= r.asleep
    decreases |more|
  {
    if more != [] {
      StuckForEver(Step(r, limit, more[0]), limit, more[1..]);
    }
  }

  ghost predicate NeverStuck<T(!new)>(r: Reader<T>, limit: nat) {
    forall more | Possible(r, limit, more) :: !Stuck(After(r, limit, more))
  }

  lemma {:induction false} NobodySleepsAgain<T>(r: Reader<T>, limit: nat, more: seq<Action<T>>)
    requires r.close.Notified? && !r.deciding && r.asleep == 0 && Possible(r, limit, more)
    ensures After(r, limit, more).asleep == 0
    decreases |more|
  {
    if more != [] {
      NobodySleepsAgain(Step(r, limit, more[0]), limit, more[1..]);
    }
  }

  lemma Begin<T>(r: Reader<T>, limit: nat, a: Action<T>, rest: seq<Action<T>>)
    requires Enabled(r, a) && Possible(Step(r, limit, a), limit, rest)
    ensures Possible(r, limit, [a] + rest) && After(r, limit, [a] + rest) == After(Step(r, limit, a), limit, rest)
  {
    assert ([a] + rest)[1..] == rest;
  }

  /** The thread leaves, and the read that was about to sleep does so. */
  lemma {:induction false} GetStuck<T>(r: Reader<T>, limit: nat) returns (more: seq<Action<T>>)
    requires r.close.Notified? && r.deciding
    ensures Possible(r, limit, more) && Stuck(After(r, limit, more))
    decreases match r.thread case Polling => 2 case Notifying => 2 case Checking => 1 case Gone => 0
  {
    if r.thread.Gone? {
      more := [FallAsleep];
      assert more[1..] == [];
    } else {
      var a := if r.thread.Polling? then NothingArrives else if r.thread.Notifying? then NotifyOne else CheckLoop;
      var rest := GetStuck(Step(r, limit, a), limit);
      Begin(r, limit, a, rest);
      more := [a] + rest;
    }
  }

  /** The notification of close reaches every read there is, exactly when none is between finding the
      queue empty and falling asleep: close takes no mutex that would keep it out of that gap. */
  lemma CloseReleasesExactly<T(!new)>(r: Reader<T>, limit: nat)
    requires Enabled(r, NotifyAll)
    ensures NeverStuck(Step(r, limit, NotifyAll), limit) <==> !r.deciding
  {
    var r' := Step(r, limit, NotifyAll);
    if r.deciding {
      var more := GetStuck(r', limit);
    } else {
      forall more | Possible(r', limit, more) ensures !Stuck(After(r', limit, more)) {
        NobodySleepsAgain(r', limit, more);
      }
    }
  }

  lemma CloseMissesIt<T>(r: Reader<T>, limit: nat) returns (actions: seq<Action<T>>)
    requires r.deciding && r.close.NotCalled? && r.thread.Checking?
    ensures Possible(r, limit, actions) && Wake !in actions && Stuck(After(r, limit, actions))
  {
    var r3 := Step(r, limit, SetClosed);
    var r4 := Step(r3, limit, RequestClose);
    var r5 := Step(r4, limit, NotifyAll);
    actions := [FallAsleep];
    assert actions[1..] == [];
    Begin(r5, limit, CheckLoop, actions);
    actions := [CheckLoop] + actions;
    Begin(r4, limit, NotifyAll, actions);
    actions := [NotifyAll] + actions;
    Begin(r3, limit, RequestClose, actions);
    actions := [RequestClose] + actions;
    Begin(r, limit, SetClosed, actions);
    actions := [SetClosed] + actions;
  }

  /** Such a run exists: close runs while a read is in that gap. */
  lemma AMissedCloseExample<T>(limit: nat) returns (actions: seq<Action<T>>)
    ensures Possible(Fresh(), limit, actions) && Wake !in actions
    ensures Stuck(After(Fresh(), limit, actions))
  {
    var r1 := Step(Fresh<T>(), limit, BeginRead);
    actions := CloseMissesIt(Step(r1, limit, Decide), limit);
    Begin(r1, limit, Decide, actions);
    actions := [Decide] + actions;
    Begin(Fresh(), limit, BeginRead, actions);
    actions := [BeginRead] + actions;
  }
}
