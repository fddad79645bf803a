/** The locks and wake-ups of the requesting side: callers that sleep on condition variables,
    and service threads (the I/O loop, anybody closing the transport) that update, sweep and
    notify.

    Two kinds of mutex: one for the table of pending calls, one for each call.  A thread's
    position says which it holds and which it waits for; notify_all wakes everybody asleep on
    the condition variable at that moment and nobody later. */
module RpcShutdown {
  type Rid = string

  /** The two condition variables of a call. */
  datatype Wait = Ack | Reply

  /** The kinds of message a call can get. */
  datatype Kind = GoodAck | BadAck | GoodReply | BadReply

  datatype CallerPc =
    | WantsTableToRegister
    | HoldsTableToRegister
    | Sending
    | WantsTableToGiveUp
    | HoldsTableToGiveUp
    | WantsCall(wait: Wait, timedOut: bool)
    | HoldsCall(wait: Wait, timedOut: bool)
    | Asleep(wait: Wait, woken: bool)
    | WantsTableToThrow
    | HoldsTableToThrow
    | WantsTableToReturn
    | HoldsTableToReturn
    | Left

  datatype ServicePc =
    | Idle
    | WantsTableToLookUp(rid: Rid, kind: Kind)
    | HoldsTableToLookUp(rid: Rid, kind: Kind)
    | WantsCallToUpdate(rid: Rid, kind: Kind)
    | HoldsCallToUpdate(rid: Rid, kind: Kind)
    | Notifies(rid: Rid, wait: Wait)
    | WantsTableToSwap
    | HoldsTableToSwap
    | Sweeping(rest: set<Rid>)
    | WantsCallToFail(rid: Rid, rest: set<Rid>)
    | HoldsCallToFail(rid: Rid, rest: set<Rid>)
    | NotifiesAckThenReply(rid: Rid, rest: set<Rid>)
    | NotifiesReply(rid: Rid, rest: set<Rid>)

  /** A call's flags, and which malformed messages were processed for it. */
  datatype Call = Call(acked: bool, replied: bool, failed: bool, badAck: bool, badReply: bool)

  /** `taken` are the calls some sweep found in the table, `swept` those it has finished with. */
  datatype State = State(
    callers: map<Rid, CallerPc>,
    calls: map<Rid, Call>,
    services: map<nat, ServicePc>,
    table: set<Rid>,
    taken: set<Rid>,
    swept: set<Rid>)

  datatype Thread = Caller(rid: Rid) | Service(id: nat)

  // ----- who holds what, who waits for what -----

  predicate CallerHoldsTable(pc: CallerPc) {
    pc.HoldsTableToRegister? || pc.HoldsTableToGiveUp? || pc.HoldsTableToThrow? || pc.HoldsTableToReturn?
  }

  predicate CallerWantsTable(pc: CallerPc) {
    pc.WantsTableToRegister? || pc.WantsTableToGiveUp? || pc.WantsTableToThrow? || pc.WantsTableToReturn?
  }

  /** A caller only ever locks its own call; it keeps it while it gets the table to throw. */
  predicate CallerHoldsCall(pc: CallerPc) {
    pc.HoldsCall? || pc.WantsTableToThrow? || pc.HoldsTableToThrow?
  }

  predicate ServiceHoldsTable(pc: ServicePc) {
    pc.HoldsTableToLookUp? || pc.HoldsTableToSwap?
  }

  predicate ServiceWantsTable(pc: ServicePc) {
    pc.WantsTableToLookUp? || pc.WantsTableToSwap?
  }

  predicate ServiceHoldsCall(pc: ServicePc, rid: Rid) {
    (pc.HoldsCallToUpdate? || pc.HoldsCallToFail?) && pc.rid == rid
  }

  predicate ServiceWantsCall(pc: ServicePc, rid: Rid) {
    (pc.WantsCallToUpdate? || pc.WantsCallToFail?) && pc.rid == rid
  }

  predicate HoldsTable(s: State, t: Thread) {
    match t
    case Caller(r) => r in s.callers && CallerHoldsTable(s.callers[r])
    case Service(i) => i in s.services && ServiceHoldsTable(s.services[i])
  }

  predicate WantsTable(s: State, t: Thread) {
    match t
    case Caller(r) => r in s.callers && CallerWantsTable(s.callers[r])
    case Service(i) => i in s.services && ServiceWantsTable(s.services[i])
  }

  predicate HoldsCallOf(s: State, t: Thread, rid: Rid) {
    match t
    case Caller(r) => r == rid && r in s.callers && CallerHoldsCall(s.callers[r])
    case Service(i) => i in s.services && ServiceHoldsCall(s.services[i], rid)
  }

  predicate WantsCallOf(s: State, t: Thread, rid: Rid) {
    match t
    case Caller(r) => r == rid && r in s.callers && s.callers[r].WantsCall?
    case Service(i) => i in s.services && ServiceWantsCall(s.services[i], rid)
  }

  ghost predicate TableFree(s: State) {
    forall t :: !HoldsTable(s, t)
  }

  ghost predicate CallFree(s: State, rid: Rid) {
    forall t :: !HoldsCallOf(s, t, rid)
  }

  // ----- steps -----

  /** The condition a caller waits for. */
  predicate Satisfied(c: Call, w: Wait) {
    (if w.Ack? then c.acked else c.replied) || c.failed
  }

  datatype Action =
    | NewCall(rid: Rid)
    | Go(thread: Thread)
    | SendFails(rid: Rid)
    | TimesOut(rid: Rid)
    | WakesSpuriously(rid: Rid)
    | NewService(id: nat)
    | Message(id: nat, messageRid: Rid, kind: Kind)
    | StartSweep(id: nat)
    | SweepNext(id: nat, next: Rid)

  /** A thread that wants a mutex can go on only when nobody holds it; one asleep only when
      woken. */
  ghost predicate Enabled(s: State, a: Action) {
    match a
    case NewCall(r) => r !in s.callers && r !in s.calls
    case Go(t) =>
      && (WantsTable(s, t) ==> TableFree(s))
      && (forall r :: WantsCallOf(s, t, r) ==> CallFree(s, r))
      && (if t.Caller? then t.rid in s.callers && t.rid in s.calls && CallerMoves(s.callers[t.rid])
          else t.id in s.services && ServiceMoves(s.services[t.id]))
    case SendFails(r) => r in s.callers && s.callers[r].Sending?
    case TimesOut(r) => r in s.callers && s.callers[r].Asleep?
    case WakesSpuriously(r) => r in s.callers && s.callers[r].Asleep?
    case NewService(i) => i !in s.services
    case Message(i, _, _) => i in s.services && s.services[i].Idle?
    case StartSweep(i) => i in s.services && s.services[i].Idle?
    case SweepNext(i, r) => i in s.services && s.services[i].Sweeping? && r in s.services[i].rest
  }

  /** A caller asleep needs a wake-up, a sweep with calls left picks the next one first. */
  predicate CallerMoves(pc: CallerPc) {
    !pc.Left? && (pc.Asleep? ==> pc.woken)
  }

  predicate ServiceMoves(pc: ServicePc) {
    !pc.Idle? && (pc.Sweeping? ==> pc.rest == {})
  }

  function SetCaller(s: State, r: Rid, pc: CallerPc): State {
    s.(callers := s.callers[r := pc])
  }

  function SetService(s: State, i: nat, pc: ServicePc): State {
    s.(services := s.services[i := pc])
  }

  /** One step of a caller, its mutex being free where it needs one. */
  function CallerGo(s: State, r: Rid): State
    requires r in s.callers && r in s.calls
  {
    match s.callers[r]
    case WantsTableToRegister => SetCaller(s, r, HoldsTableToRegister)
    case HoldsTableToRegister => SetCaller(s, r, Sending).(table := s.table + {r})
    case Sending => SetCaller(s, r, WantsCall(Ack, false))
    case WantsTableToGiveUp => SetCaller(s, r, HoldsTableToGiveUp)
    case HoldsTableToGiveUp => SetCaller(s, r, Left).(table := s.table - {r})
    case WantsCall(w, timedOut) => SetCaller(s, r, HoldsCall(w, timedOut))
    case HoldsCall(w, timedOut) =>
      if (if w.Ack? then s.calls[r].acked else s.calls[r].replied)
      then SetCaller(s, r, if w.Ack? then WantsCall(Reply, false) else WantsTableToReturn)
      else if s.calls[r].failed || timedOut then SetCaller(s, r, WantsTableToThrow)
      else SetCaller(s, r, Asleep(w, false))
    case Asleep(w, _) => SetCaller(s, r, WantsCall(w, false))
    case WantsTableToThrow => SetCaller(s, r, HoldsTableToThrow)
    case HoldsTableToThrow => SetCaller(s, r, Left).(table := s.table - {r})
    case WantsTableToReturn => SetCaller(s, r, HoldsTableToReturn)
    case HoldsTableToReturn => SetCaller(s, r, Left).(table := s.table - {r})
    case Left => s
  }

  /** What a message does to the call, and which condition variable is notified for it. */
  function Updated(c: Call, kind: Kind): Call {
    match kind
    case GoodAck => c.(acked := true)
    case BadAck => c.(failed := true, badAck := true)
    case GoodReply => c.(replied := true)
    case BadReply => c.(failed := true, badReply := true)
  }

  function NotifiedFor(kind: Kind): Wait {
    if kind.GoodAck? || kind.BadAck? then Ack else Reply
  }

  /** notify_all on one condition variable of one call. */
  function Notify(s: State, r: Rid, w: Wait): State {
    if r in s.callers && s.callers[r].Asleep? && s.callers[r].wait == w
    then SetCaller(s, r, Asleep(w, true)) else s
  }

  function SetCall(s: State, r: Rid, c: Call): State {
    s.(calls := s.calls[r := c])
  }

  function ServiceGo(s: State, i: nat): State
    requires i in s.services
  {
    match s.services[i]
    case Idle => s
    case WantsTableToLookUp(r, k) => SetService(s, i, HoldsTableToLookUp(r, k))
    case HoldsTableToLookUp(r, k) => SetService(s, i, if r in s.table then WantsCallToUpdate(r, k) else Idle)
    case WantsCallToUpdate(r, k) => SetService(s, i, HoldsCallToUpdate(r, k))
    case HoldsCallToUpdate(r, k) =>
      if r in s.calls then SetCall(SetService(s, i, Notifies(r, NotifiedFor(k))), r, Updated(s.calls[r], k))
      else SetService(s, i, Idle)
    case Notifies(r, w) => SetService(Notify(s, r, w), i, Idle)
    case WantsTableToSwap => SetService(s, i, HoldsTableToSwap)
    case HoldsTableToSwap => SetService(s, i, Sweeping(s.table)).(table := {}, taken := s.taken + s.table)
    case Sweeping(rest) => SetService(s, i, Idle)
    case WantsCallToFail(r, rest) => SetService(s, i, HoldsCallToFail(r, rest))
    case HoldsCallToFail(r, rest) =>
      if r in s.calls then SetCall(SetService(s, i, NotifiesAckThenReply(r, rest)), r, s.calls[r].(failed := true))
      else SetService(s, i, Sweeping(rest))
    case NotifiesAckThenReply(r, rest) => SetService(Notify(s, r, Ack), i, NotifiesReply(r, rest))
    case NotifiesReply(r, rest) => SetService(Notify(s, r, Reply), i, Sweeping(rest)).(swept := s.swept + {r})
  }

  function Step(s: State, a: Action): State
    requires Enabled(s, a)
  {
    match a
    case NewCall(r) => SetCall(SetCaller(s, r, WantsTableToRegister), r, Call(false, false, false, false, false))
    case Go(t) => if t.Caller? then CallerGo(s, t.rid) else ServiceGo(s, t.id)
    case SendFails(r) => SetCaller(s, r, WantsTableToGiveUp)
    case TimesOut(r) => SetCaller(s, r, WantsCall(s.callers[r].wait, true))
    case WakesSpuriously(r) => SetCaller(s, r, WantsCall(s.callers[r].wait, false))
    case NewService(i) => SetService(s, i, Idle)
    case Message(i, r, k) => SetService(s, i, WantsTableToLookUp(r, k))
    case StartSweep(i) => SetService(s, i, WantsTableToSwap)
    case SweepNext(i, r) => SetService(s, i, WantsCallToFail(r, s.services[i].rest - {r}))
  }

  const START := State(map[], map[], map[], {}, {}, {})

  ghost predicate IsRun(run: seq<State>, actions: seq<Action>) {
    && |run| == |actions| + 1
    && run[0] == START
    && forall i :: 0 <= i < |actions| ==> Enabled(run[i], actions[i]) && run[i + 1] == Step(run[i], actions[i])
  }

  // ----- mutual exclusion and deadlock -----

  /** The positions stand for real mutexes: no two threads ever hold the same one. */
  ghost predicate Exclusive(s: State) {
    && (forall t, t' :: HoldsTable(s, t) && HoldsTable(s, t') ==> t == t')
    && (forall r, t, t' :: HoldsCallOf(s, t, r) && HoldsCallOf(s, t', r) ==> t == t')
  }

  function Actor(a: Action): Thread {
    match a
    case NewCall(r) => Caller(r)
    case Go(t) => t
    case SendFails(r) => Caller(r)
    case TimesOut(r) => Caller(r)
    case WakesSpuriously(r) => Caller(r)
    case NewService(i) => Service(i)
    case Message(i, _, _) => Service(i)
    case StartSweep(i) => Service(i)
    case SweepNext(i, _) => Service(i)
  }

  lemma CallerGoLocks(s: State, r: Rid, u: Thread, r': Rid)
    requires Enabled(s, Go(Caller(r)))
    ensures var s' := CallerGo(s, r);
            && (HoldsTable(s', u) ==> HoldsTable(s, u) || (u == Caller(r) && WantsTable(s, u)))
            && (HoldsCallOf(s', u, r') ==> HoldsCallOf(s, u, r') || (u == Caller(r) && WantsCallOf(s, u, r')))
  {
  }

  lemma ServiceGoMovesSleepersOnly(s: State, i: nat)
    requires i in s.services
    ensures var s' := ServiceGo(s, i);
            && s'.callers.Keys == s.callers.Keys
            && (forall r :: r in s.callers && s'.callers[r] != s.callers[r] ==>
                  s.callers[r].Asleep? && s'.callers[r].Asleep?)
  {
  }

  lemma ServiceGoMovesOneService(s: State, i: nat)
    requires i in s.services
    ensures var s' := ServiceGo(s, i);
            forall j :: j in s'.services && j != i ==> j in s.services && s'.services[j] == s.services[j]
  {
  }

  lemma ServiceGoLocks(s: State, i: nat, u: Thread, r': Rid)
    requires i in s.services
    ensures var s' := ServiceGo(s, i);
            && (HoldsTable(s', u) ==> HoldsTable(s, u) || (u == Service(i) && WantsTable(s, u)))
            && (HoldsCallOf(s', u, r') ==> HoldsCallOf(s, u, r') || (u == Service(i) && WantsCallOf(s, u, r')))
  {
    ServiceGoMovesSleepersOnly(s, i);
    ServiceGoMovesOneService(s, i);
  }

  /** A step gives nobody else a mutex, and the thread itself only one it waited for. */
  lemma StepLocks(s: State, a: Action, u: Thread, r: Rid)
    requires Enabled(s, a)
    ensures HoldsTable(Step(s, a), u) ==> HoldsTable(s, u) || (u == Actor(a) && a.Go? && WantsTable(s, u))
    ensures HoldsCallOf(Step(s, a), u, r) ==> HoldsCallOf(s, u, r) || (u == Actor(a) && a.Go? && WantsCallOf(s, u, r))
  {
    if a.Go? {
      if a.thread.Caller? {
        CallerGoLocks(s, a.thread.rid, u, r);
      } else {
        ServiceGoLocks(s, a.thread.id, u, r);
      }
    }
  }

  lemma StepKeepsExclusive(s: State, a: Action)
    requires Enabled(s, a) && Exclusive(s)
    ensures Exclusive(Step(s, a))
  {
    var s' := Step(s, a);
    forall t, t' | HoldsTable(s', t) && HoldsTable(s', t') ensures t == t' {
      StepLocks(s, a, t, "");
      StepLocks(s, a, t', "");
    }
    forall r, t, t' | HoldsCallOf(s', t, r) && HoldsCallOf(s', t', r) ensures t == t' {
      StepLocks(s, a, t, r);
      StepLocks(s, a, t', r);
    }
  }

  /** A thread is blocked when it wants a mutex that another thread holds. */
  ghost predicate Blocked(s: State, t: Thread) {
    || (WantsTable(s, t) && exists u :: HoldsTable(s, u))
    || (exists r, u :: WantsCallOf(s, t, r) && HoldsCallOf(s, u, r))
  }

  /** A thread that holds the table's mutex wants nothing more. */
  lemma TableHoldersAreNotBlocked(s: State, u: Thread)
    requires HoldsTable(s, u)
    ensures !Blocked(s, u)
  {
  }

  /** Whenever a thread is blocked, some thread that holds a mutex can go on: the mutexes are
      never waited for in a circle. */
  lemma NoDeadlock(s: State, t: Thread) returns (u: Thread)
    requires Blocked(s, t) && s.callers.Keys <= s.calls.Keys
    ensures Enabled(s, Go(u)) && (HoldsTable(s, u) || exists r :: HoldsCallOf(s, u, r))
  {
    if WantsTable(s, t) && exists v :: HoldsTable(s, v) {
      u :| HoldsTable(s, u);
      TableHoldersAreNotBlocked(s, u);
    } else {
      var r, v :| WantsCallOf(s, t, r) && HoldsCallOf(s, v, r);
      if Blocked(s, v) {
        u :| HoldsTable(s, u);
        TableHoldersAreNotBlocked(s, u);
      } else {
        u := v;
      }
    }
  }

  /** A thread at a mutex can go on exactly when nobody holds that one, whatever happens to the others. */
  lemma WaitsForItsMutexOnly(s: State, t: Thread, r: Rid)
    requires s.callers.Keys <= s.calls.Keys && (WantsTable(s, t) || WantsCallOf(s, t, r))
    ensures Enabled(s, Go(t)) <==> if WantsTable(s, t) then TableFree(s) else CallFree(s, r)
  {
  }

  // ----- wake-ups -----

  /** The thread's next notifications include this condition variable of this call. */
  predicate WillNotify(pc: ServicePc, r: Rid, w: Wait) {
    || pc == Notifies(r, w)
    || (pc.NotifiesAckThenReply? && pc.rid == r)
    || (pc.NotifiesReply? && pc.rid == r && w.Reply?)
  }

  ghost predicate WakeUpPending(s: State, r: Rid, w: Wait) {
    exists i :: i in s.services && WillNotify(s.services[i], r, w)
  }

  /** A malformed message for the other wait set the error: the one case without a wake-up. */
  predicate MissedBy(c: Call, w: Wait) {
    if w.Ack? then c.badReply else c.badAck
  }

  ghost predicate WakesWhenDone(s: State) {
    forall r, w | SleepsUnwoken(s, r, w) && r in s.calls && Satisfied(s.calls[r], w) ::
      WakeUpPending(s, r, w) || MissedBy(s.calls[r], w)
  }

  predicate SleepsUnwoken(s: State, r: Rid, w: Wait) {
    r in s.callers && s.callers[r] == Asleep(w, false)
  }

  predicate FailedCall(s: State, r: Rid) {
    r in s.calls && s.calls[r].failed
  }

  /** How far a sweep has got with a call. */
  ghost predicate SweepProgress(s: State) {
    && (forall i :: i in s.services && s.services[i].NotifiesAckThenReply? ==> FailedCall(s, s.services[i].rid))
    && (forall i :: i in s.services && s.services[i].NotifiesReply? ==>
          FailedCall(s, s.services[i].rid) && !SleepsUnwoken(s, s.services[i].rid, Ack))
    && (forall r :: r in s.swept ==> FailedCall(s, r) && !SleepsUnwoken(s, r, Ack) && !SleepsUnwoken(s, r, Reply))
  }

  predicate InHand(pc: ServicePc, r: Rid) {
    || (pc.Sweeping? && r in pc.rest)
    || ((pc.WantsCallToFail? || pc.HoldsCallToFail? || pc.NotifiesAckThenReply? || pc.NotifiesReply?)
        && (r == pc.rid || r in pc.rest))
  }

  /** A call a sweep has taken is either finished with or in the hands of a sweep. */
  ghost predicate TakenAccounted(s: State) {
    forall r :: r in s.taken ==> r in s.swept || exists i :: i in s.services && InHand(s.services[i], r)
  }

  /** Calls in the table, or taken from it, are calls somebody made; those in the table have not
      been left. */
  predicate Registered(pc: CallerPc) {
    !pc.WantsTableToRegister? && !pc.HoldsTableToRegister? && !pc.Left?
  }

  ghost predicate TableSound(s: State) {
    && s.callers.Keys == s.calls.Keys
    && (forall r :: r in s.table ==> r in s.callers && Registered(s.callers[r]))
    && (forall r :: r in s.taken ==> r in s.calls)
    && (forall i, r :: i in s.services && InHand(s.services[i], r) ==> r in s.calls)
  }

  lemma CallerGoLeavesTheRest(s: State, r: Rid)
    requires r in s.callers && r in s.calls
    ensures var s' := CallerGo(s, r);
            && s'.calls == s.calls && s'.services == s.services && s'.taken == s.taken && s'.swept == s.swept
  {
  }

  lemma CallerGoMovesItself(s: State, r: Rid)
    requires r in s.callers && r in s.calls
    ensures var s' := CallerGo(s, r);
            r in s'.callers && s'.callers == s.callers[r := s'.callers[r]]
  {
  }

  lemma CallerGoKeepsTable(s: State, r: Rid)
    requires r in s.callers && r in s.calls
    ensures var s' := CallerGo(s, r);
            && s'.table <= s.table + {r} && r in s'.callers
            && (r in s'.table && (r in s.table ==> Registered(s.callers[r])) ==> Registered(s'.callers[r]))
  {
  }

  lemma CallerKeepsTableSound(s: State, r: Rid)
    requires Enabled(s, Go(Caller(r))) && TableSound(s)
    ensures TableSound(CallerGo(s, r))
  {
    CallerGoLeavesTheRest(s, r);
    CallerGoMovesItself(s, r);
    CallerGoKeepsTable(s, r);
  }

  lemma ServiceLeavesCalls(s: State, i: nat)
    requires i in s.services
    ensures var s' := ServiceGo(s, i);
            s'.calls.Keys == s.calls.Keys && s'.table <= s.table && s'.taken <= s.taken + s.table
  {
  }

  lemma ServiceLeavesCallers(s: State, i: nat)
    requires i in s.services
    ensures var s' := ServiceGo(s, i);
            && s'.callers.Keys == s.callers.Keys
            && forall r :: r in s.callers ==> Registered(s'.callers[r]) == Registered(s.callers[r])
  {
    ServiceGoMovesSleepersOnly(s, i);
  }

  /** A sweep gets calls in hand only by swapping the table out. */
  lemma ServiceTakesFromTable(s: State, i: nat, j: nat, r: Rid)
    requires i in s.services && j in ServiceGo(s, i).services && InHand(ServiceGo(s, i).services[j], r)
    ensures j in s.services && (InHand(s.services[j], r) || r in s.table)
  {
    if j != i {
      ServiceGoMovesOneService(s, i);
    } else {
      assert ServiceGo(s, i).services[i].Sweeping? || s.services[i].Sweeping? || InHand(s.services[i], r);
    }
  }

  lemma ServiceKeepsTableSound(s: State, i: nat)
    requires i in s.services && TableSound(s)
    ensures TableSound(ServiceGo(s, i))
  {
    var s' := ServiceGo(s, i);
    ServiceLeavesCallers(s, i);
    ServiceLeavesCalls(s, i);
    forall j, r | j in s'.services && InHand(s'.services[j], r) ensures r in s'.calls {
      ServiceTakesFromTable(s, i, j, r);
    }
  }

  lemma StepKeepsTableSound(s: State, a: Action)
    requires Enabled(s, a) && TableSound(s)
    ensures TableSound(Step(s, a))
  {
    if a.Go? {
      if a.thread.Caller? {
        CallerKeepsTableSound(s, a.thread.rid);
      } else {
        ServiceKeepsTableSound(s, a.thread.id);
      }
    }
  }

  /** A call leaves the hands of a sweep only when the sweep has finished with it. */
  lemma StaysInHand(s: State, a: Action, i: nat, r: Rid)
    requires Enabled(s, a) && TableSound(s) && i in s.services && InHand(s.services[i], r)
    ensures var s' := Step(s, a);
            r in s'.swept || (i in s'.services && InHand(s'.services[i], r))
  {
    if a == Go(Service(i)) {
      ServiceKeepsInHand(s, i, r);
    } else if a.Go? && a.thread.Service? {
      OtherServicesStay(s, a.thread.id);
    } else if a.Go? {
      CallerGoLeavesTheRest(s, a.thread.rid);
    }
  }

  lemma OtherServicesStay(s: State, i: nat)
    requires i in s.services
    ensures forall j | j in s.services && j != i ::
              j in ServiceGo(s, i).services && ServiceGo(s, i).services[j] == s.services[j]
  {
  }

  lemma ServiceKeepsInHand(s: State, i: nat, r: Rid)
    requires i in s.services && ServiceMoves(s.services[i]) && TableSound(s) && InHand(s.services[i], r)
    ensures var s' := ServiceGo(s, i);
            r in s'.swept || (i in s'.services && InHand(s'.services[i], r))
  {
  }

  lemma NewlyTakenIsInHand(s: State, a: Action, r: Rid)
    requires Enabled(s, a) && r in Step(s, a).taken && r !in s.taken
    ensures a.Go? && a.thread.Service? && InHand(Step(s, a).services[a.thread.id], r)
  {
  }

  lemma SweptStaysSwept(s: State, a: Action)
    requires Enabled(s, a)
    ensures s.swept <= Step(s, a).swept
  {
  }

  lemma StepKeepsTaken(s: State, a: Action)
    requires Enabled(s, a) && TableSound(s) && TakenAccounted(s)
    ensures TakenAccounted(Step(s, a))
  {
    var s' := Step(s, a);
    SweptStaysSwept(s, a);
    forall r | r in s'.taken
      ensures r in s'.swept || exists i :: i in s'.services && InHand(s'.services[i], r)
    {
      if r !in s.taken {
        NewlyTakenIsInHand(s, a, r);
      } else if r !in s.swept {
        var i :| i in s.services && InHand(s.services[i], r);
        StaysInHand(s, a, i, r);
      }
    }
  }

  lemma NotifyWakes(s: State, r: Rid, w: Wait)
    ensures var s' := Notify(s, r, w);
            && !SleepsUnwoken(s', r, w)
            && s'.services == s.services && s'.calls == s.calls && s'.swept == s.swept
            && forall r', w' :: SleepsUnwoken(s', r', w') ==> SleepsUnwoken(s, r', w')
  {
  }

  lemma NotifierKeepsSweepProgress(s: State, i: nat)
    requires Enabled(s, Go(Service(i))) && TableSound(s) && SweepProgress(s)
    requires s.services[i].NotifiesAckThenReply? || s.services[i].NotifiesReply? || s.services[i].Notifies?
    ensures SweepProgress(ServiceGo(s, i))
  {
    match s.services[i]
    case NotifiesAckThenReply(r, rest) => NotifyWakes(s, r, Ack);
    case NotifiesReply(r, rest) => NotifyWakes(s, r, Reply);
    case Notifies(r, w) => NotifyWakes(s, r, w);
  }

  lemma ServiceKeepsSweepProgress(s: State, i: nat)
    requires Enabled(s, Go(Service(i))) && TableSound(s) && SweepProgress(s)
    ensures SweepProgress(ServiceGo(s, i))
  {
    if s.services[i].NotifiesAckThenReply? || s.services[i].NotifiesReply? || s.services[i].Notifies? {
      NotifierKeepsSweepProgress(s, i);
    } else {
      UpdaterKeepsSweepProgress(s, i);
    }
  }

  lemma UpdaterKeepsSweepProgress(s: State, i: nat)
    requires i in s.services && SweepProgress(s)
    requires !s.services[i].NotifiesAckThenReply? && !s.services[i].NotifiesReply? && !s.services[i].Notifies?
    ensures SweepProgress(ServiceGo(s, i))
  {
    assert ServiceGo(s, i).callers == s.callers && ServiceGo(s, i).swept == s.swept;
    assert forall r :: FailedCall(s, r) ==> FailedCall(ServiceGo(s, i), r);
  }

  lemma StepKeepsSweepProgress(s: State, a: Action)
    requires Enabled(s, a) && TableSound(s) && SweepProgress(s)
    ensures SweepProgress(Step(s, a))
  {
    if a.Go? && a.thread.Service? {
      ServiceKeepsSweepProgress(s, a.thread.id);
    } else {
      QuietStep(s, a);
    }
  }

  /** Steps other than a service's leave the calls alone, send nobody to sleep whose condition
      holds, and start no notification. */
  ghost predicate Quiet(s: State, s': State) {
    && s'.swept == s.swept
    && (forall r :: r in s.calls ==> r in s'.calls && s'.calls[r] == s.calls[r])
    && (forall r, w :: SleepsUnwoken(s', r, w) ==>
          SleepsUnwoken(s, r, w) || (r in s.calls && !Satisfied(s.calls[r], w)))
    && (forall i, r, w :: i in s.services && WillNotify(s.services[i], r, w) ==>
          i in s'.services && s'.services[i] == s.services[i])
    && (forall i :: i in s'.services && (s'.services[i].NotifiesAckThenReply? || s'.services[i].NotifiesReply?) ==>
          i in s.services && s'.services[i] == s.services[i])
  }

  lemma CallerIsQuiet(s: State, r: Rid)
    requires Enabled(s, Go(Caller(r))) && TableSound(s)
    ensures Quiet(s, CallerGo(s, r))
  {
    CallerGoLeavesTheRest(s, r);
    CallerGoMovesItself(s, r);
    SleepsOnlyUnsatisfied(s, r);
  }

  lemma SleepsOnlyUnsatisfied(s: State, r: Rid)
    requires r in s.callers && r in s.calls && CallerMoves(s.callers[r])
    ensures forall w :: SleepsUnwoken(CallerGo(s, r), r, w) ==> !Satisfied(s.calls[r], w)
  {
  }

  lemma QuietStep(s: State, a: Action)
    requires Enabled(s, a) && TableSound(s) && !(a.Go? && a.thread.Service?)
    ensures Quiet(s, Step(s, a))
  {
    if a.Go? {
      CallerIsQuiet(s, a.thread.rid);
    }
  }

  lemma StepKeepsWakes(s: State, a: Action)
    requires Enabled(s, a) && TableSound(s) && WakesWhenDone(s)
    ensures WakesWhenDone(Step(s, a))
  {
    var s' := Step(s, a);
    forall r, w | SleepsUnwoken(s', r, w) && r in s'.calls && Satisfied(s'.calls[r], w)
      ensures WakeUpPending(s', r, w) || MissedBy(s'.calls[r], w)
    {
      if a.Go? && a.thread.Service? {
        ServiceKeepsWake(s, a.thread.id, r, w);
      } else {
        QuietStep(s, a);
        if WakeUpPending(s, r, w) {
          var i :| i in s.services && WillNotify(s.services[i], r, w);
          assert WillNotify(s'.services[i], r, w);
        }
      }
    }
  }

  /** A notification wakes whoever sleeps on its variable and leaves the others to theirs. */
  lemma NotifierKeepsWake(s: State, i: nat, r: Rid, w: Wait)
    requires i in s.services && WakesWhenDone(s)
    requires s.services[i].NotifiesAckThenReply? || s.services[i].NotifiesReply? || s.services[i].Notifies?
    requires var s' := ServiceGo(s, i);
             SleepsUnwoken(s', r, w) && r in s'.calls && Satisfied(s'.calls[r], w)
    ensures var s' := ServiceGo(s, i);
            WakeUpPending(s', r, w) || MissedBy(s'.calls[r], w)
  {
    var s' := ServiceGo(s, i);
    match s.services[i] {
      case NotifiesAckThenReply(r', rest) => NotifyWakes(s, r', Ack);
      case NotifiesReply(r', rest) => NotifyWakes(s, r', Reply);
      case Notifies(r', w') => NotifyWakes(s, r', w');
    }
    if !MissedBy(s'.calls[r], w) {
      var j :| j in s.services && WillNotify(s.services[j], r, w);
      assert WillNotify(s'.services[j], r, w);
    }
  }

  /** Any other step of a service wakes nobody; one that satisfies a condition is going to notify. */
  lemma UpdaterKeepsWake(s: State, i: nat, r: Rid, w: Wait)
    requires i in s.services && WakesWhenDone(s)
    requires !s.services[i].NotifiesAckThenReply? && !s.services[i].NotifiesReply? && !s.services[i].Notifies?
    requires var s' := ServiceGo(s, i);
             SleepsUnwoken(s', r, w) && r in s'.calls && Satisfied(s'.calls[r], w)
    ensures var s' := ServiceGo(s, i);
            WakeUpPending(s', r, w) || MissedBy(s'.calls[r], w)
  {
    var s' := ServiceGo(s, i);
    assert SleepsUnwoken(s, r, w);
    if Satisfied(s.calls[r], w) {
      if WakeUpPending(s, r, w) {
        var j :| j in s.services && WillNotify(s.services[j], r, w);
        assert s'.services[j] == s.services[j];
      }
    } else {
      assert MissedBy(s'.calls[r], w) || WillNotify(s'.services[i], r, w);
    }
  }

  lemma ServiceKeepsWake(s: State, i: nat, r: Rid, w: Wait)
    requires i in s.services && WakesWhenDone(s)
    requires var s' := ServiceGo(s, i);
             SleepsUnwoken(s', r, w) && r in s'.calls && Satisfied(s'.calls[r], w)
    ensures var s' := ServiceGo(s, i);
            WakeUpPending(s', r, w) || MissedBy(s'.calls[r], w)
  {
    if s.services[i].NotifiesAckThenReply? || s.services[i].NotifiesReply? || s.services[i].Notifies? {
      NotifierKeepsWake(s, i, r, w);
    } else {
      UpdaterKeepsWake(s, i, r, w);
    }
  }

  // ----- the promises, over whole runs -----

  ghost predicate Inv(s: State) {
    TableSound(s) && Exclusive(s) && TakenAccounted(s) && SweepProgress(s) && WakesWhenDone(s)
  }

  lemma {:induction false} InvInEveryRun(run: seq<State>, actions: seq<Action>)
    requires IsRun(run, actions)
    ensures Inv(run[|actions|])
  {
    if actions != [] {
      var n := |actions| - 1;
      InvInEveryRun(run[..n + 1], actions[..n]);
      StepKeepsTableSound(run[n], actions[n]);
      StepKeepsExclusive(run[n], actions[n]);
      StepKeepsTaken(run[n], actions[n]);
      StepKeepsSweepProgress(run[n], actions[n]);
      StepKeepsWakes(run[n], actions[n]);
    }
  }

  /** In every run, a call some sweep took from the table, once no sweep has it in hand any more,
      has its wait condition true and its caller is not asleep without a wake-up. */
  lemma SweptCallersAreReleased(run: seq<State>, actions: seq<Action>, r: Rid, w: Wait)
    requires IsRun(run, actions) && r in run[|actions|].taken
    requires forall i :: i in run[|actions|].services ==> !InHand(run[|actions|].services[i], r)
    ensures var s := run[|actions|];
            && r in s.calls && Satisfied(s.calls[r], w)
            && !SleepsUnwoken(s, r, w)
  {
    InvInEveryRun(run, actions);
  }

  /** In every run, a caller asleep although its condition holds has a wake-up on its way, except
      after a malformed message for the other of its two waits. */
  lemma NoWakeUpIsLost(run: seq<State>, actions: seq<Action>, r: Rid, w: Wait)
    requires IsRun(run, actions) && SleepsUnwoken(run[|actions|], r, w)
    requires r in run[|actions|].calls && Satisfied(run[|actions|].calls[r], w)
    ensures WakeUpPending(run[|actions|], r, w) || MissedBy(run[|actions|].calls[r], w)
  {
    InvInEveryRun(run, actions);
  }

  /** The exception is real: a malformed message notifies one condition variable only, and a caller
      in its other wait sleeps on although its condition has become true. */
  lemma MalformedMessageMissesTheOtherWait(s: State, i: nat, r: Rid, w: Wait, kind: Kind)
    requires kind.BadAck? || kind.BadReply?
    requires NotifiedFor(kind) != w && s.services == map[i := HoldsCallToUpdate(r, kind)]
    requires SleepsUnwoken(s, r, w) && r in s.calls && !Satisfied(s.calls[r], w)
    ensures var s' := ServiceGo(ServiceGo(s, i), i);
            SleepsUnwoken(s', r, w) && Satisfied(s'.calls[r], w) && !WakeUpPending(s', r, w)
  {
    var s1 := ServiceGo(s, i);
    assert s1.services[i] == Notifies(r, NotifiedFor(kind));
    var s' := ServiceGo(s1, i);
    assert s'.services[i] == Idle && s'.services.Keys == {i};
  }

  /** Which messages wake a caller for what they change: one that makes its condition true leaves it
      asleep exactly when it is malformed and of the other kind. */
  lemma MessageWakesExactly(s: State, i: nat, r: Rid, w: Wait, kind: Kind)
    requires i in s.services && s.services[i] == HoldsCallToUpdate(r, kind)
    requires SleepsUnwoken(s, r, w) && r in s.calls && !Satisfied(s.calls[r], w)
    ensures var s' := ServiceGo(ServiceGo(s, i), i);
            && r in s'.calls
            && (Satisfied(s'.calls[r], w) && SleepsUnwoken(s', r, w)
                <==> (kind.BadAck? || kind.BadReply?) && NotifiedFor(kind) != w)
  {
    var s1 := ServiceGo(s, i);
    assert s1.services[i] == Notifies(r, NotifiedFor(kind)) && s1.callers == s.callers;
    NotifyWakes(s1, r, NotifiedFor(kind));
  }

  /** One caller and one service. */
  function One(r: Rid, pc: CallerPc, c: Call, q: ServicePc, table: set<Rid>): State {
    State(map[r := pc], map[r := c], map[0 := q], table, {}, {})
  }

  lemma Extend(run: seq<State>, actions: seq<Action>, a: Action) returns (run': seq<State>, actions': seq<Action>)
    requires IsRun(run, actions) && Enabled(run[|actions|], a)
    ensures IsRun(run', actions') && run'[|actions'|] == Step(run[|actions|], a)
    ensures |actions'| == |actions| + 1 && run'[|actions|] == run[|actions|]
  {
    run', actions' := run + [Step(run[|actions|], a)], actions + [a];
  }

  lemma CallerGoes(run: seq<State>, actions: seq<Action>, r: Rid, pc: CallerPc, c: Call, table: set<Rid>)
    returns (run': seq<State>, actions': seq<Action>)
    requires IsRun(run, actions) && run[|actions|] == One(r, pc, c, Idle, table) && CallerMoves(pc)
    ensures IsRun(run', actions') && run'[|actions'|] == CallerGo(One(r, pc, c, Idle, table), r)
  {
    run', actions' := Extend(run, actions, Go(Caller(r)));
  }

  lemma ServiceGoes(run: seq<State>, actions: seq<Action>, r: Rid, w: Wait, c: Call, q: ServicePc)
    returns (run': seq<State>, actions': seq<Action>)
    requires IsRun(run, actions) && run[|actions|] == One(r, Asleep(w, false), c, q, {r}) && ServiceMoves(q)
    ensures IsRun(run', actions') && run'[|actions'|] == ServiceGo(One(r, Asleep(w, false), c, q, {r}), 0)
  {
    run', actions' := Extend(run, actions, Go(Service(0)));
  }

  lemma CallIsRegistered(r: Rid) returns (run: seq<State>, actions: seq<Action>)
    ensures IsRun(run, actions)
    ensures run[|actions|] == One(r, Sending, Call(false, false, false, false, false), Idle, {r})
  {
    var c := Call(false, false, false, false, false);
    run, actions := [START], [];
    run, actions := Extend(run, actions, NewService(0));
    run, actions := Extend(run, actions, NewCall(r));
    assert run[|actions|] == One(r, WantsTableToRegister, c, Idle, {});
    run, actions := CallerGoes(run, actions, r, WantsTableToRegister, c, {});
    assert run[|actions|] == One(r, HoldsTableToRegister, c, Idle, {});
    run, actions := CallerGoes(run, actions, r, HoldsTableToRegister, c, {});
  }

  lemma FallsAsleep(run: seq<State>, actions: seq<Action>, r: Rid, w: Wait, c: Call)
    returns (run': seq<State>, actions': seq<Action>)
    requires IsRun(run, actions) && run[|actions|] == One(r, WantsCall(w, false), c, Idle, {r}) && !Satisfied(c, w)
    ensures IsRun(run', actions') && run'[|actions'|] == One(r, Asleep(w, false), c, Idle, {r})
  {
    run', actions' := CallerGoes(run, actions, r, WantsCall(w, false), c, {r});
    assert run'[|actions'|] == One(r, HoldsCall(w, false), c, Idle, {r});
    run', actions' := CallerGoes(run', actions', r, HoldsCall(w, false), c, {r});
  }

  /** A call registers, sends its request and falls asleep waiting for the acknowledgement. */
  lemma SleepsForAck(r: Rid) returns (run: seq<State>, actions: seq<Action>)
    ensures IsRun(run, actions)
    ensures run[|actions|] == One(r, Asleep(Ack, false), Call(false, false, false, false, false), Idle, {r})
  {
    var c := Call(false, false, false, false, false);
    run, actions := CallIsRegistered(r);
    run, actions := CallerGoes(run, actions, r, Sending, c, {r});
    run, actions := FallsAsleep(run, actions, r, Ack, c);
  }

  lemma MessageFindsCall(run: seq<State>, actions: seq<Action>, r: Rid, w: Wait, c: Call, kind: Kind)
    returns (run': seq<State>, actions': seq<Action>)
    requires IsRun(run, actions) && run[|actions|] == One(r, Asleep(w, false), c, Idle, {r})
    ensures IsRun(run', actions')
    ensures run'[|actions'|] == One(r, Asleep(w, false), c, WantsCallToUpdate(r, kind), {r})
  {
    run', actions' := Extend(run, actions, Message(0, r, kind));
    assert run'[|actions'|] == One(r, Asleep(w, false), c, WantsTableToLookUp(r, kind), {r});
    run', actions' := ServiceGoes(run', actions', r, w, c, WantsTableToLookUp(r, kind));
    assert run'[|actions'|] == One(r, Asleep(w, false), c, HoldsTableToLookUp(r, kind), {r});
    run', actions' := ServiceGoes(run', actions', r, w, c, HoldsTableToLookUp(r, kind));
  }

  /** A message arrives for a call that sleeps. */
  lemma GetsMessage(run: seq<State>, actions: seq<Action>, r: Rid, w: Wait, c: Call, kind: Kind)
    returns (run': seq<State>, actions': seq<Action>)
    requires IsRun(run, actions) && run[|actions|] == One(r, Asleep(w, false), c, Idle, {r})
    ensures IsRun(run', actions')
    ensures run'[|actions'|] == One(r, Asleep(w, NotifiedFor(kind) == w), Updated(c, kind), Idle, {r})
  {
    run', actions' := MessageFindsCall(run, actions, r, w, c, kind);
    run', actions' := ServiceGoes(run', actions', r, w, c, WantsCallToUpdate(r, kind));
    assert run'[|actions'|] == One(r, Asleep(w, false), c, HoldsCallToUpdate(r, kind), {r});
    run', actions' := ServiceGoes(run', actions', r, w, c, HoldsCallToUpdate(r, kind));
    var c' := Updated(c, kind);
    assert run'[|actions'|] == One(r, Asleep(w, false), c', Notifies(r, NotifiedFor(kind)), {r});
    run', actions' := ServiceGoes(run', actions', r, w, c', Notifies(r, NotifiedFor(kind)));
    assert map[r := Asleep(w, false)][r := Asleep(w, true)] == map[r := Asleep(w, true)];
  }

  /** An acknowledged call wakes and falls asleep waiting for the reply. */
  lemma SleepsForReply(r: Rid) returns (run: seq<State>, actions: seq<Action>)
    ensures IsRun(run, actions)
    ensures run[|actions|] == One(r, Asleep(Reply, false), Call(true, false, false, false, false), Idle, {r})
  {
    var c := Call(true, false, false, false, false);
    run, actions := SleepsForAck(r);
    run, actions := GetsMessage(run, actions, r, Ack, Call(false, false, false, false, false), GoodAck);
    run, actions := CallerGoes(run, actions, r, Asleep(Ack, true), c, {r});
    run, actions := CallerGoes(run, actions, r, WantsCall(Ack, false), c, {r});
    assert run[|actions|] == One(r, HoldsCall(Ack, false), c, Idle, {r});
    run, actions := CallerGoes(run, actions, r, HoldsCall(Ack, false), c, {r});
    run, actions := FallsAsleep(run, actions, r, Reply, c);
  }

  /** Runs from the start that miss each of the two waits: a malformed reply while the caller waits
      for the acknowledgement, a malformed acknowledgement while it waits for the reply. */
  lemma AMissedWakeUpExample(r: Rid, w: Wait) returns (run: seq<State>, actions: seq<Action>)
    ensures IsRun(run, actions)
    ensures var s := run[|actions|];
            && SleepsUnwoken(s, r, w) && r in s.calls && Satisfied(s.calls[r], w) && !WakeUpPending(s, r, w)
  {
    if w.Ack? {
      run, actions := SleepsForAck(r);
      run, actions := GetsMessage(run, actions, r, w, Call(false, false, false, false, false), BadReply);
    } else {
      run, actions := SleepsForReply(r);
      run, actions := GetsMessage(run, actions, r, w, Call(true, false, false, false, false), BadAck);
    }
  }

  // ----- the ways a call can go -----

  /** One caller and one service, with what sweeps have done so far. */
  function Pair(r: Rid, pc: CallerPc, c: Call, q: ServicePc, table: set<Rid>, taken: set<Rid>, swept: set<Rid>): State {
    State(map[r := pc], map[r := c], map[0 := q], table, taken, swept)
  }

  lemma SweeperGoes(run: seq<State>, actions: seq<Action>, r: Rid, pc: CallerPc, c: Call, q: ServicePc,
                    table: set<Rid>, taken: set<Rid>, swept: set<Rid>)
    returns (run': seq<State>, actions': seq<Action>)
    requires IsRun(run, actions) && run[|actions|] == Pair(r, pc, c, q, table, taken, swept)
    requires pc.Asleep? && ServiceMoves(q)
    ensures IsRun(run', actions') && run'[|actions'|] == ServiceGo(Pair(r, pc, c, q, table, taken, swept), 0)
  {
    run', actions' := Extend(run, actions, Go(Service(0)));
  }

  lemma CallerGoesOn(run: seq<State>, actions: seq<Action>, r: Rid, pc: CallerPc, c: Call, table: set<Rid>, done: set<Rid>)
    returns (run': seq<State>, actions': seq<Action>)
    requires IsRun(run, actions) && run[|actions|] == Pair(r, pc, c, Idle, table, done, done) && CallerMoves(pc)
    ensures IsRun(run', actions') && run'[|actions'|] == CallerGo(Pair(r, pc, c, Idle, table, done, done), r)
    ensures run'[|actions'| - 1] == run[|actions|] && |actions'| > 0
  {
    run', actions' := Extend(run, actions, Go(Caller(r)));
  }

  /** A caller that has been woken with its condition true gets on. */
  lemma WokenCallerDecides(run: seq<State>, actions: seq<Action>, r: Rid, w: Wait, c: Call, table: set<Rid>, done: set<Rid>)
    returns (run': seq<State>, actions': seq<Action>)
    requires IsRun(run, actions) && run[|actions|] == Pair(r, Asleep(w, true), c, Idle, table, done, done)
    ensures IsRun(run', actions')
    ensures run'[|actions'|] == CallerGo(Pair(r, HoldsCall(w, false), c, Idle, table, done, done), r)
  {
    run', actions' := CallerGoesOn(run, actions, r, Asleep(w, true), c, table, done);
    run', actions' := CallerGoesOn(run', actions', r, WantsCall(w, false), c, table, done);
    run', actions' := CallerGoesOn(run', actions', r, HoldsCall(w, false), c, table, done);
  }

  lemma ThrowsAtLast(run: seq<State>, actions: seq<Action>, r: Rid, c: Call, table: set<Rid>, done: set<Rid>)
    returns (run': seq<State>, actions': seq<Action>)
    requires IsRun(run, actions) && run[|actions|] == Pair(r, WantsTableToThrow, c, Idle, table, done, done)
    ensures IsRun(run', actions') && run'[|actions'|] == Pair(r, Left, c, Idle, table - {r}, done, done)
    ensures |actions'| > 0 && r in run'[|actions'| - 1].callers && run'[|actions'| - 1].callers[r].HoldsTableToThrow?
  {
    run', actions' := CallerGoesOn(run, actions, r, WantsTableToThrow, c, table, done);
    run', actions' := CallerGoesOn(run', actions', r, HoldsTableToThrow, c, table, done);
  }

  /** A run in which a call gets both messages and returns. */
  lemma AReturnExample(r: Rid) returns (run: seq<State>, actions: seq<Action>)
    ensures IsRun(run, actions)
    ensures run[|actions|] == One(r, Left, Call(true, true, false, false, false), Idle, {})
    ensures |actions| > 0 && r in run[|actions| - 1].callers && run[|actions| - 1].callers[r].HoldsTableToReturn?
  {
    var c := Call(true, true, false, false, false);
    run, actions := SleepsForReply(r);
    run, actions := GetsMessage(run, actions, r, Reply, Call(true, false, false, false, false), GoodReply);
    run, actions := WokenCallerDecides(run, actions, r, Reply, c, {r}, {});
    run, actions := ReturnsAtLast(run, actions, r, c);
  }

  lemma ReturnsAtLast(run: seq<State>, actions: seq<Action>, r: Rid, c: Call)
    returns (run': seq<State>, actions': seq<Action>)
    requires IsRun(run, actions) && run[|actions|] == Pair(r, WantsTableToReturn, c, Idle, {r}, {}, {})
    ensures IsRun(run', actions') && run'[|actions'|] == One(r, Left, c, Idle, {})
    ensures |actions'| > 0 && r in run'[|actions'| - 1].callers && run'[|actions'| - 1].callers[r].HoldsTableToReturn?
  {
    run', actions' := CallerGoesOn(run, actions, r, WantsTableToReturn, c, {r}, {});
    run', actions' := CallerGoesOn(run', actions', r, HoldsTableToReturn, c, {r}, {});
    assert {r} - {r} == {};
  }

  lemma SweepSwapsTable(r: Rid, w: Wait, c: Call, run: seq<State>, actions: seq<Action>)
    returns (run': seq<State>, actions': seq<Action>)
    requires IsRun(run, actions) && run[|actions|] == One(r, Asleep(w, false), c, Idle, {r})
    ensures IsRun(run', actions')
    ensures run'[|actions'|] == Pair(r, Asleep(w, false), c, Sweeping({r}), {}, {r}, {})
  {
    run', actions' := Extend(run, actions, StartSweep(0));
    assert run'[|actions'|] == Pair(r, Asleep(w, false), c, WantsTableToSwap, {r}, {}, {});
    run', actions' := SweeperGoes(run', actions', r, Asleep(w, false), c, WantsTableToSwap, {r}, {}, {});
    assert run'[|actions'|] == Pair(r, Asleep(w, false), c, HoldsTableToSwap, {r}, {}, {});
    run', actions' := SweeperGoes(run', actions', r, Asleep(w, false), c, HoldsTableToSwap, {r}, {}, {});
  }

  lemma SweepTakesCall(r: Rid, w: Wait, c: Call, run: seq<State>, actions: seq<Action>)
    returns (run': seq<State>, actions': seq<Action>)
    requires IsRun(run, actions) && run[|actions|] == One(r, Asleep(w, false), c, Idle, {r})
    ensures IsRun(run', actions')
    ensures run'[|actions'|] == Pair(r, Asleep(w, false), c, WantsCallToFail(r, {}), {}, {r}, {})
  {
    run', actions' := SweepSwapsTable(r, w, c, run, actions);
    run', actions' := Extend(run', actions', SweepNext(0, r));
    assert {r} - {r} == {};
  }

  lemma SweepFailsCall(r: Rid, w: Wait, c: Call, run: seq<State>, actions: seq<Action>)
    returns (run': seq<State>, actions': seq<Action>)
    requires IsRun(run, actions) && run[|actions|] == Pair(r, Asleep(w, false), c, WantsCallToFail(r, {}), {}, {r}, {})
    ensures IsRun(run', actions')
    ensures run'[|actions'|] == Pair(r, Asleep(w, false), c.(failed := true), NotifiesAckThenReply(r, {}), {}, {r}, {})
  {
    run', actions' := SweeperGoes(run, actions, r, Asleep(w, false), c, WantsCallToFail(r, {}), {}, {r}, {});
    assert run'[|actions'|] == Pair(r, Asleep(w, false), c, HoldsCallToFail(r, {}), {}, {r}, {});
    run', actions' := SweeperGoes(run', actions', r, Asleep(w, false), c, HoldsCallToFail(r, {}), {}, {r}, {});
  }

  lemma SleeperIsNotified(r: Rid, w: Wait, c: Call)
    ensures ServiceGo(Pair(r, Asleep(w, false), c, NotifiesAckThenReply(r, {}), {}, {r}, {}), 0)
            == Pair(r, Asleep(w, w.Ack?), c, NotifiesReply(r, {}), {}, {r}, {})
    ensures ServiceGo(Pair(r, Asleep(w, w.Ack?), c, NotifiesReply(r, {}), {}, {r}, {}), 0)
            == Pair(r, Asleep(w, true), c, Sweeping({}), {}, {r}, {r})
  {
    assert map[r := Asleep(w, w.Ack?)][r := Asleep(w, true)] == map[r := Asleep(w, true)];
    assert map[r := Asleep(w, false)][r := Asleep(w, true)] == map[r := Asleep(w, true)];
    assert {} + {r} == {r};
  }

  lemma SweepWakesCall(r: Rid, w: Wait, c: Call, run: seq<State>, actions: seq<Action>)
    returns (run': seq<State>, actions': seq<Action>)
    requires IsRun(run, actions) && run[|actions|] == Pair(r, Asleep(w, false), c, NotifiesAckThenReply(r, {}), {}, {r}, {})
    ensures IsRun(run', actions') && run'[|actions'|] == Pair(r, Asleep(w, true), c, Idle, {}, {r}, {r})
  {
    SleeperIsNotified(r, w, c);
    run', actions' := SweeperGoes(run, actions, r, Asleep(w, false), c, NotifiesAckThenReply(r, {}), {}, {r}, {});
    run', actions' := SweeperGoes(run', actions', r, Asleep(w, w.Ack?), c, NotifiesReply(r, {}), {}, {r}, {});
    run', actions' := SweeperGoes(run', actions', r, Asleep(w, true), c, Sweeping({}), {}, {r}, {r});
  }

  /** A run in which a call is swept in either of its waits, is woken and throws. */
  lemma ASweptCallExample(r: Rid, w: Wait) returns (run: seq<State>, actions: seq<Action>)
    ensures IsRun(run, actions)
    ensures run[|actions|] == Pair(r, Left, Call(w.Reply?, false, true, false, false), Idle, {}, {r}, {r})
    ensures |actions| > 0 && r in run[|actions| - 1].callers && run[|actions| - 1].callers[r].HoldsTableToThrow?
  {
    var c := Call(w.Reply?, false, false, false, false);
    if w.Ack? {
      run, actions := SleepsForAck(r);
    } else {
      run, actions := SleepsForReply(r);
    }
    run, actions := SweepTakesCall(r, w, c, run, actions);
    run, actions := SweepFailsCall(r, w, c, run, actions);
    run, actions := SweepWakesCall(r, w, c.(failed := true), run, actions);
    run, actions := WokenCallerDecides(run, actions, r, w, c.(failed := true), {}, {r});
    run, actions := ThrowsAtLast(run, actions, r, c.(failed := true), {}, {r});
  }

  /** A run in which a call is woken for nothing, sleeps again, times out and throws. */
  lemma ATimeOutExample(r: Rid) returns (run: seq<State>, actions: seq<Action>)
    ensures IsRun(run, actions)
    ensures run[|actions|] == One(r, Left, Call(false, false, false, false, false), Idle, {})
    ensures |actions| > 0 && r in run[|actions| - 1].callers && run[|actions| - 1].callers[r].HoldsTableToThrow?
  {
    var c := Call(false, false, false, false, false);
    run, actions := SleepsForAck(r);
    run, actions := Extend(run, actions, WakesSpuriously(r));
    assert run[|actions|] == One(r, WantsCall(Ack, false), c, Idle, {r});
    run, actions := FallsAsleep(run, actions, r, Ack, c);
    run, actions := TimesOutAndThrows(run, actions, r, c);
    assert {r} - {r} == {};
  }

  lemma TimesOutAndThrows(run: seq<State>, actions: seq<Action>, r: Rid, c: Call)
    returns (run': seq<State>, actions': seq<Action>)
    requires IsRun(run, actions) && run[|actions|] == One(r, Asleep(Ack, false), c, Idle, {r}) && !c.acked
    ensures IsRun(run', actions') && run'[|actions'|] == Pair(r, Left, c, Idle, {r} - {r}, {}, {})
    ensures |actions'| > 0 && r in run'[|actions'| - 1].callers && run'[|actions'| - 1].callers[r].HoldsTableToThrow?
  {
    run', actions' := Extend(run, actions, TimesOut(r));
    assert run'[|actions'|] == Pair(r, WantsCall(Ack, true), c, Idle, {r}, {}, {});
    run', actions' := CallerGoesOn(run', actions', r, WantsCall(Ack, true), c, {r}, {});
    run', actions' := CallerGoesOn(run', actions', r, HoldsCall(Ack, true), c, {r}, {});
    run', actions' := ThrowsAtLast(run', actions', r, c, {r}, {});
  }

  /** A run in which the request cannot be sent. */
  lemma ASendFailsExample(r: Rid) returns (run: seq<State>, actions: seq<Action>)
    ensures IsRun(run, actions)
    ensures run[|actions|] == One(r, Left, Call(false, false, false, false, false), Idle, {})
  {
    var c := Call(false, false, false, false, false);
    run, actions := CallIsRegistered(r);
    run, actions := Extend(run, actions, SendFails(r));
    assert run[|actions|] == Pair(r, WantsTableToGiveUp, c, Idle, {r}, {}, {});
    run, actions := CallerGoesOn(run, actions, r, WantsTableToGiveUp, c, {r}, {});
    run, actions := CallerGoesOn(run, actions, r, HoldsTableToGiveUp, c, {r}, {});
    assert {r} - {r} == {};
  }

  /** A service processes a message of this kind for a call it has found. */
  predicate Processes(s: State, a: Action, r: Rid, kind: Kind) {
    a.Go? && a.thread.Service? && a.thread.id in s.services && s.services[a.thread.id] == HoldsCallToUpdate(r, kind)
  }

  predicate FailsIt(s: State, a: Action, r: Rid) {
    a.Go? && a.thread.Service? && a.thread.id in s.services
    && s.services[a.thread.id].HoldsCallToFail? && s.services[a.thread.id].rid == r
  }

  /** Each flag of a call is raised by the messages of its kind, and the error by malformed ones and by
      sweeps; no flag is ever lowered. */
  lemma FlagsRiseExactly(run: seq<State>, actions: seq<Action>, n: nat, r: Rid)
    requires IsRun(run, actions) && n < |actions| && r in run[n].calls
    ensures r in run[n + 1].calls
    ensures var c, c' := run[n].calls[r], run[n + 1].calls[r];
            && (c'.acked <==> c.acked || Processes(run[n], actions[n], r, GoodAck))
            && (c'.replied <==> c.replied || Processes(run[n], actions[n], r, GoodReply))
            && (c'.badAck <==> c.badAck || Processes(run[n], actions[n], r, BadAck))
            && (c'.badReply <==> c.badReply || Processes(run[n], actions[n], r, BadReply))
            && (c'.failed <==> c.failed || Processes(run[n], actions[n], r, BadAck)
                               || Processes(run[n], actions[n], r, BadReply) || FailsIt(run[n], actions[n], r))
  {
    assert run[n + 1] == Step(run[n], actions[n]) && Enabled(run[n], actions[n]);
    if actions[n].Go? {
      if actions[n].thread.Caller? {
        CallerGoLeavesTheRest(run[n], actions[n].thread.rid);
      } else {
        ServiceRaisesFlags(run[n], actions[n].thread.id, r);
      }
    }
  }

  lemma ServiceRaisesFlags(s: State, i: nat, r: Rid)
    requires i in s.services && r in s.calls
    ensures r in ServiceGo(s, i).calls
    ensures var c, c', a := s.calls[r], ServiceGo(s, i).calls[r], Go(Service(i));
            && (c'.acked <==> c.acked || Processes(s, a, r, GoodAck))
            && (c'.replied <==> c.replied || Processes(s, a, r, GoodReply))
            && (c'.badAck <==> c.badAck || Processes(s, a, r, BadAck))
            && (c'.badReply <==> c.badReply || Processes(s, a, r, BadReply))
            && (c'.failed <==> c.failed || Processes(s, a, r, BadAck) || Processes(s, a, r, BadReply) || FailsIt(s, a, r))
  {
    if !s.services[i].HoldsCallToUpdate? && !s.services[i].HoldsCallToFail? {
      OtherPositionsLeaveFlags(s, i);
    }
  }

  lemma OtherPositionsLeaveFlags(s: State, i: nat)
    requires i in s.services && !s.services[i].HoldsCallToUpdate? && !s.services[i].HoldsCallToFail?
    ensures ServiceGo(s, i).calls == s.calls
  {
  }

  /** A service gets to a call's mutex for a message only if it found the call in the table, and sweeps
      only calls it took from there. */
  lemma FoundInTheTable(run: seq<State>, actions: seq<Action>, n: nat, i: nat)
    requires IsRun(run, actions) && n < |actions| && i in run[n].services && i in run[n + 1].services
    ensures run[n + 1].services[i].WantsCallToUpdate? && !run[n].services[i].WantsCallToUpdate? ==>
              run[n].services[i] == HoldsTableToLookUp(run[n + 1].services[i].rid, run[n + 1].services[i].kind)
              && run[n + 1].services[i].rid in run[n].table
    ensures run[n].services[i].HoldsTableToLookUp? && run[n + 1].services[i].Idle? ==>
              run[n].services[i].rid !in run[n].table
    ensures run[n].services[i].HoldsTableToSwap? && run[n + 1].services[i].Sweeping? ==>
              run[n + 1].services[i].rest == run[n].table && run[n + 1].table == {}
  {
    assert run[n + 1] == Step(run[n], actions[n]) && Enabled(run[n], actions[n]);
    if actions[n].Go? {
      if actions[n].thread.Caller? {
        CallerGoLeavesTheRest(run[n], actions[n].thread.rid);
      } else {
        ServiceGoMovesOneService(run[n], actions[n].thread.id);
      }
    }
  }

  /** In every run, no two threads hold the same mutex, and if any thread is blocked then some
      thread holding a mutex can take a step. */
  lemma NoRunDeadlocks(run: seq<State>, actions: seq<Action>, t: Thread) returns (u: Thread)
    requires IsRun(run, actions) && Blocked(run[|actions|], t)
    ensures Exclusive(run[|actions|])
    ensures Enabled(run[|actions|], Go(u))
    ensures HoldsTable(run[|actions|], u) || exists r :: HoldsCallOf(run[|actions|], u, r)
  {
    InvInEveryRun(run, actions);
    u := NoDeadlock(run[|actions|], t);
  }

  /** In every run, once all callers have left, the table is empty. */
  lemma TableEmptiesWhenAllLeave(run: seq<State>, actions: seq<Action>)
    requires IsRun(run, actions)
    requires forall r :: r in run[|actions|].callers ==> run[|actions|].callers[r].Left?
    ensures run[|actions|].table == {}
  {
    InvInEveryRun(run, actions);
  }
}
