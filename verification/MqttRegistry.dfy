/** The subscription registry of the MQTT connection: which callbacks a message reaches, and which
    filters the broker is asked for. */
module MqttRegistry {
  import opened Values
  import opened MqttTopics

  /** A registered function, by identity. */
  datatype Callback = Callback(id: nat)

  datatype TopicEntry = TopicEntry(qos: int, callbacks: map<nat, Callback>)

  /** What a registry operation asks of the broker, after the registry's mutex is released. */
  datatype Command = Subscribe(filter: string, qos: int) | Unsubscribe(filter: string)

  datatype State = State(subscriptions: map<string, TopicEntry>, nextHandle: nat)

  const START := State(map[], 1)

  datatype Op = Add(filter: string, callback: Callback, qos: int) | Remove(filter: string, handle: nat)

  function Entry(s: State, filter: string, qos: int): TopicEntry {
    if filter in s.subscriptions && s.subscriptions[filter].callbacks != map[]
    then s.subscriptions[filter] else TopicEntry(qos, map[])
  }

  function Step(s: State, op: Op): State {
    match op
    case Add(filter, callback, qos) =>
      var entry := Entry(s, filter, qos);
      State(s.subscriptions[filter := entry.(callbacks := entry.callbacks[s.nextHandle := callback])],
            s.nextHandle + 1)
    case Remove(filter, handle) =>
      if filter !in s.subscriptions then s
      else
        var left := Omit(s.subscriptions[filter].callbacks, handle);
        if left == map[] then s.(subscriptions := Omit(s.subscriptions, filter))
        else s.(subscriptions := s.subscriptions[filter := s.subscriptions[filter].(callbacks := left)])
  }

  /** The command an operation issues while connected: the first callback of a filter subscribes
      it, removing the last one unsubscribes it. */
  function CommandOf(s: State, op: Op): Option<Command> {
    match op
    case Add(filter, _, qos) => if filter in s.subscriptions then None else Some(Subscribe(filter, qos))
    case Remove(filter, handle) =>
      if filter in s.subscriptions && filter !in Step(s, op).subscriptions then Some(Unsubscribe(filter)) else None
  }

  /** One registered callback. */
  datatype Registration = Registration(filter: string, handle: nat, callback: Callback)

  ghost predicate Registered(s: State, r: Registration) {
    r.filter in s.subscriptions && r.handle in s.subscriptions[r.filter].callbacks
    && s.subscriptions[r.filter].callbacks[r.handle] == r.callback
  }

  /** No empty entry, and every handle belongs to one filter and has been given out. */
  ghost predicate Sound(s: State) {
    && (forall f | f in s.subscriptions :: s.subscriptions[f].callbacks != map[])
    && (forall r | Registered(s, r) :: r.handle < s.nextHandle)
    && (forall r, q | Registered(s, r) && Registered(s, q) && r.handle == q.handle :: r == q)
  }

  lemma AddRegisters(s: State, op: Op)
    requires Sound(s) && op.Add?
    ensures Sound(Step(s, op))
    ensures forall r :: Registered(Step(s, op), r)
                        <==> Registered(s, r) || r == Registration(op.filter, s.nextHandle, op.callback)
  {
    var s' := Step(s, op);
    forall r ensures Registered(s', r) <==> Registered(s, r) || r == Registration(op.filter, s.nextHandle, op.callback)
    {
      if r.filter == op.filter && r.handle != s.nextHandle {
        assert Registered(s', r) <==> Registered(s, r);
      }
    }
    assert s.nextHandle in s'.subscriptions[op.filter].callbacks;
  }

  lemma RemoveUnregisters(s: State, op: Op)
    requires Sound(s) && op.Remove?
    ensures Sound(Step(s, op))
    ensures forall r :: Registered(Step(s, op), r) <==> Registered(s, r) && !(r.filter == op.filter && r.handle == op.handle)
  {
    var s' := Step(s, op);
    forall r ensures Registered(s', r) <==> Registered(s, r) && !(r.filter == op.filter && r.handle == op.handle)
    {
      if op.filter in s.subscriptions && r.filter == op.filter {
        var left := Omit(s.subscriptions[op.filter].callbacks, op.handle);
        assert r.handle in left ==> left != map[];
      }
    }
  }

  /** Adding and then removing a subscription leaves the registry as it was. */
  lemma RemoveUndoesAdd(s: State, filter: string, callback: Callback, qos: int)
    requires Sound(s)
    ensures Step(Step(s, Add(filter, callback, qos)), Remove(filter, s.nextHandle)).subscriptions == s.subscriptions
    ensures CommandOf(s, Add(filter, callback, qos)).Some?
            <==> CommandOf(Step(s, Add(filter, callback, qos)), Remove(filter, s.nextHandle)).Some?
  {
    var entry := Entry(s, filter, qos);
    var s1 := Step(s, Add(filter, callback, qos));
    if s.nextHandle in entry.callbacks {
      assert Registered(s, Registration(filter, s.nextHandle, entry.callbacks[s.nextHandle]));
    }
    assert Omit(s1.subscriptions[filter].callbacks, s.nextHandle) == entry.callbacks;
  }

  function Run(ops: seq<Op>): State {
    if ops == [] then START else Step(Run(ops[..|ops| - 1]), ops[|ops| - 1])
  }

  lemma {:induction false} SoundInEveryRun(ops: seq<Op>)
    ensures Sound(Run(ops))
  {
    if ops != [] {
      SoundInEveryRun(ops[..|ops| - 1]);
      match ops[|ops| - 1] {
        case Add(_, _, _) => AddRegisters(Run(ops[..|ops| - 1]), ops[|ops| - 1]);
        case Remove(_, _) => RemoveUnregisters(Run(ops[..|ops| - 1]), ops[|ops| - 1]);
      }
    }
  }

  // ----- the broker's side -----

  /** The registry while connected, the commands its operations issued in the order of its mutex,
      which of them are still on their way to the client library, those handed to it in that order,
      and the broker's filters.  A call hands its command over after the mutex is released and before
      it returns, so of those on their way any may be next; the library keeps the order from there. */
  datatype System = System(
    registry: State,
    issued: seq<Command>,
    inFlight: set<nat>,
    delivered: seq<Command>,
    broker: set<string>)

  const CONNECTED := System(START, [], {}, [], {})

  datatype Event = Do(op: Op) | Deliver(i: nat)

  function Obey(broker: set<string>, c: Command): set<string> {
    if c.Subscribe? then broker + {c.filter} else broker - {c.filter}
  }

  predicate CanHappen(s: System, e: Event) {
    e.Deliver? ==> e.i in s.inFlight && e.i < |s.issued|
  }

  function Next(s: System, e: Event): System
    requires CanHappen(s, e)
  {
    match e
    case Do(op) =>
      var s' := s.(registry := Step(s.registry, op));
      var c := CommandOf(s.registry, op);
      if c.None? then s' else s'.(issued := s.issued + [c.value], inFlight := s.inFlight + {|s.issued|})
    case Deliver(i) =>
      s.(inFlight := s.inFlight - {i}, delivered := s.delivered + [s.issued[i]], broker := Obey(s.broker, s.issued[i]))
  }

  predicate Possible(s: System, events: seq<Event>)
    decreases |events|
  {
    events == [] || (CanHappen(s, events[0]) && Possible(Next(s, events[0]), events[1..]))
  }

  function After(s: System, events: seq<Event>): System
    requires Possible(s, events)
    decreases |events|
  {
    if events == [] then s else After(Next(s, events[0]), events[1..])
  }

  datatype Kind = Nothing | Subscribing | Unsubscribing

  function KindOf(c: Command): Kind {
    if c.Subscribe? then Subscribing else Unsubscribing
  }

  /** The kind of the last command about a filter. */
  function LastAbout(commands: seq<Command>, filter: string): (r: Kind)
    ensures r == Nothing <==> forall c | c in commands :: c.filter != filter
  {
    if commands == [] then Nothing
    else
      var last := commands[|commands| - 1];
      if last.filter == filter then KindOf(last) else LastAbout(commands[..|commands| - 1], filter)
  }

  lemma OneMoreCommand(commands: seq<Command>, c: Command, filter: string)
    ensures LastAbout(commands + [c], filter) == if c.filter == filter then KindOf(c) else LastAbout(commands, filter)
  {
    assert (commands + [c])[..|commands|] == commands;
  }

  /** What every event keeps: the registry follows the commands issued, the broker those delivered,
      and a command is on its way or handed over. */
  ghost predicate Follows(s: System) {
    && Sound(s.registry)
    && (forall i | i in s.inFlight :: i < |s.issued|)
    && (forall i | 0 <= i < |s.issued| :: i in s.inFlight || s.issued[i] in s.delivered)
    && (forall c | c in s.delivered :: c in s.issued)
  }

  ghost predicate FollowsAbout(s: System, filter: string) {
    && (filter in s.registry.subscriptions <==> LastAbout(s.issued, filter) == Subscribing)
    && (filter in s.broker <==> LastAbout(s.delivered, filter) == Subscribing)
  }

  /** An operation issues a command exactly when its filter gains its first callback or loses its last. */
  lemma CommandsTellWhatChanged(s: State, op: Op, filter: string)
    requires Sound(s)
    ensures Sound(Step(s, op))
    ensures var c := CommandOf(s, op);
            && (c.Some? ==> c.value.filter == op.filter && (c.value.Subscribe? <==> op.Add?))
            && (c.Some? && op.Add? ==> c.value.qos == op.qos)
            && (filter in Step(s, op).subscriptions
                <==> if c.Some? && c.value.filter == filter then c.value.Subscribe? else filter in s.subscriptions)
  {
    if op.Add? {
      AddRegisters(s, op);
    } else {
      RemoveUnregisters(s, op);
    }
  }

  lemma OperationKeepsFollowing(s: System, op: Op, filter: string)
    requires Follows(s) && FollowsAbout(s, filter)
    ensures Follows(Next(s, Do(op))) && FollowsAbout(Next(s, Do(op)), filter)
  {
    var c := CommandOf(s.registry, op);
    CommandsTellWhatChanged(s.registry, op, filter);
    if c.Some? {
      OneMoreCommand(s.issued, c.value, filter);
    }
  }

  lemma EventKeepsFollowing(s: System, e: Event, filter: string)
    requires CanHappen(s, e) && Follows(s) && FollowsAbout(s, filter)
    ensures Follows(Next(s, e)) && FollowsAbout(Next(s, e), filter)
  {
    match e
    case Do(op) => OperationKeepsFollowing(s, op, filter);
    case Deliver(i) => OneMoreCommand(s.delivered, s.issued[i], filter);
  }

  lemma {:induction false} EventsKeepFollowing(s: System, events: seq<Event>, filter: string)
    requires Possible(s, events) && Follows(s) && FollowsAbout(s, filter)
    ensures Follows(After(s, events)) && FollowsAbout(After(s, events), filter)
    decreases |events|
  {
    if events != [] {
      EventKeepsFollowing(s, events[0], filter);
      EventsKeepFollowing(Next(s, events[0]), events[1..], filter);
    }
  }

  ghost predicate Pending(s: System, filter: string, i: nat) {
    i in s.inFlight && i < |s.issued| && s.issued[i].filter == filter
  }

  ghost predicate NothingPending(s: System, filter: string) {
    forall i :: !Pending(s, filter, i)
  }

  /** The broker serves the filter exactly when it has a callback. */
  predicate Agrees(s: System, filter: string) {
    filter in s.broker <==> filter in s.registry.subscriptions
  }

  lemma NoneDeliveredNoneIssued(s: System, filter: string)
    requires Follows(s) && NothingPending(s, filter)
    ensures LastAbout(s.delivered, filter) == Nothing <==> LastAbout(s.issued, filter) == Nothing
  {
    if LastAbout(s.delivered, filter) == Nothing && LastAbout(s.issued, filter) != Nothing {
      var c :| c in s.issued && c.filter == filter;
      var i :| 0 <= i < |s.issued| && s.issued[i] == c;
      assert Pending(s, filter, i) by {
        assert c !in s.delivered;
      }
    }
  }

  lemma AgreesOnTheLast(s: System, filter: string)
    requires Follows(s) && FollowsAbout(s, filter) && NothingPending(s, filter)
    ensures Agrees(s, filter) <==> LastAbout(s.delivered, filter) == LastAbout(s.issued, filter)
  {
    NoneDeliveredNoneIssued(s, filter);
  }

  /** In every run and for each filter without a command on its way: broker and registry agree
      exactly when the last command handed over was of the kind of the last one issued. */
  lemma AgreesWhenTheLastArrivesLast(events: seq<Event>, filter: string)
    requires Possible(CONNECTED, events) && NothingPending(After(CONNECTED, events), filter)
    ensures var s := After(CONNECTED, events);
            Agrees(s, filter) <==> LastAbout(s.delivered, filter) == LastAbout(s.issued, filter)
  {
    EventsKeepFollowing(CONNECTED, events, filter);
    AgreesOnTheLast(After(CONNECTED, events), filter);
  }

  /** Every operation on the filter starts when no command about it is on its way.  Calls on one filter
      that do not overlap in time do so. */
  ghost predicate OneAtATime(s: System, events: seq<Event>, filter: string)
    requires Possible(s, events)
    decreases |events|
  {
    events == [] || (
      && (events[0].Do? && events[0].op.filter == filter ==> NothingPending(s, filter))
      && OneAtATime(Next(s, events[0]), events[1..], filter))
  }

  /** What is pending about the filter is of the kind last issued; when all is handed over, so is what
      was handed over last. */
  ghost predicate Settles(s: System, filter: string) {
    && (forall i: nat | Pending(s, filter, i) :: LastAbout(s.issued, filter) == KindOf(s.issued[i]))
    && (NothingPending(s, filter) ==> LastAbout(s.delivered, filter) == LastAbout(s.issued, filter))
  }

  lemma OperationKeepsSettling(s: System, op: Op, filter: string)
    requires Follows(s) && Settles(s, filter)
    requires op.filter == filter ==> NothingPending(s, filter)
    ensures Settles(Next(s, Do(op)), filter)
  {
    var s', c := Next(s, Do(op)), CommandOf(s.registry, op);
    if c.Some? {
      OneMoreCommand(s.issued, c.value, filter);
      forall i ensures Pending(s', filter, i) <==> Pending(s, filter, i) || (i == |s.issued| && op.filter == filter) {
      }
      assert op.filter == filter ==> Pending(s', filter, |s.issued|);
      assert NothingPending(s', filter) ==> op.filter != filter;
    } else {
      assert forall i :: Pending(s', filter, i) <==> Pending(s, filter, i);
    }
  }

  lemma DeliveryKeepsSettling(s: System, i: nat, filter: string)
    requires CanHappen(s, Deliver(i)) && Follows(s) && Settles(s, filter)
    ensures Settles(Next(s, Deliver(i)), filter)
  {
    var s' := Next(s, Deliver(i));
    OneMoreCommand(s.delivered, s.issued[i], filter);
    assert forall j :: Pending(s', filter, j) <==> Pending(s, filter, j) && j != i;
    if s.issued[i].filter == filter {
      assert Pending(s, filter, i);
    }
  }

  lemma {:induction false} OneAtATimeSettles(s: System, events: seq<Event>, filter: string)
    requires Possible(s, events) && Follows(s) && FollowsAbout(s, filter) && Settles(s, filter)
    requires OneAtATime(s, events, filter)
    ensures Settles(After(s, events), filter)
    decreases |events|
  {
    if events != [] {
      EventKeepsFollowing(s, events[0], filter);
      match events[0] {
        case Do(op) => OperationKeepsSettling(s, op, filter);
        case Deliver(i) => DeliveryKeepsSettling(s, i, filter);
      }
      OneAtATimeSettles(Next(s, events[0]), events[1..], filter);
    }
  }

  /** A promise a caller can rely on: when every operation on a filter starts with no command about it
      on its way, whatever those on other filters do, the broker serves it exactly when it has a
      callback. */
  lemma BrokerServesTheRegistry(events: seq<Event>, filter: string)
    requires Possible(CONNECTED, events) && OneAtATime(CONNECTED, events, filter)
    requires NothingPending(After(CONNECTED, events), filter)
    ensures Agrees(After(CONNECTED, events), filter)
  {
    OneAtATimeSettles(CONNECTED, events, filter);
    AgreesWhenTheLastArrivesLast(events, filter);
  }

  // ----- operations that overlap -----

  ghost predicate OnlyDeliveries(events: seq<Event>) {
    forall e | e in events :: e.Deliver?
  }

  /** In whatever order the commands on their way are handed over, the broker ends with what the registry has. */
  ghost predicate AgreesInTheEnd(s: System, filter: string) {
    forall events | Possible(s, events) && OnlyDeliveries(events) && After(s, events).inFlight == {} ::
      Agrees(After(s, events), filter)
  }

  lemma {:induction false} DeliveriesKeepSettling(s: System, events: seq<Event>, filter: string)
    requires Possible(s, events) && OnlyDeliveries(events) && Follows(s) && FollowsAbout(s, filter) && Settles(s, filter)
    ensures Settles(After(s, events), filter)
    decreases |events|
  {
    if events != [] {
      EventKeepsFollowing(s, events[0], filter);
      DeliveryKeepsSettling(s, events[0].i, filter);
      DeliveriesKeepSettling(Next(s, events[0]), events[1..], filter);
    }
  }

  /** The rest can be handed over so that one chosen command is the last. */
  lemma {:induction false} DeliverLast(s: System, i: nat) returns (events: seq<Event>)
    requires i in s.inFlight && forall j | j in s.inFlight :: j < |s.issued|
    ensures Possible(s, events) && OnlyDeliveries(events)
    ensures var s' := After(s, events);
            && s'.inFlight == {} && s'.issued == s.issued && s'.registry == s.registry
            && s'.delivered != [] && s'.delivered[|s'.delivered| - 1] == s.issued[i]
    decreases |s.inFlight|
  {
    if s.inFlight == {i} {
      events := [Deliver(i)];
      assert events[1..] == [];
    } else {
      assert s.inFlight - {i} != {};
      var j :| j in s.inFlight - {i};
      var more := DeliverLast(Next(s, Deliver(j)), i);
      events := [Deliver(j)] + more;
      assert events[1..] == more;
    }
  }

  /** Deliveries one after another until nothing is on its way. */
  lemma {:induction false} DeliverAll(s: System) returns (events: seq<Event>)
    requires forall j | j in s.inFlight :: j < |s.issued|
    ensures Possible(s, events) && OnlyDeliveries(events) && After(s, events).inFlight == {}
  {
    if s.inFlight == {} {
      events := [];
    } else {
      var i :| i in s.inFlight;
      events := DeliverLast(s, i);
    }
  }

  lemma SettledAgreesInTheEnd(s: System, filter: string)
    requires Follows(s) && FollowsAbout(s, filter) && Settles(s, filter)
    ensures AgreesInTheEnd(s, filter)
  {
    forall events | Possible(s, events) && OnlyDeliveries(events) && After(s, events).inFlight == {}
      ensures Agrees(After(s, events), filter)
    {
      DeliveriesKeepSettling(s, events, filter);
      EventsKeepFollowing(s, events, filter);
    }
  }

  lemma OtherKindDisagrees(s: System, filter: string, c: Command)
    requires FollowsAbout(s, filter) && s.delivered != [] && s.delivered[|s.delivered| - 1] == c
    requires c in s.issued && c.filter == filter && LastAbout(s.issued, filter) != KindOf(c)
    ensures !Agrees(s, filter)
  {
    assert LastAbout(s.issued, filter) != Nothing;
  }

  lemma TheOppositeMayArriveLast(s: System, filter: string, i: nat)
    requires Follows(s) && FollowsAbout(s, filter) && Pending(s, filter, i)
    requires LastAbout(s.issued, filter) != KindOf(s.issued[i])
    ensures !AgreesInTheEnd(s, filter)
  {
    var events := DeliverLast(s, i);
    EventsKeepFollowing(s, events, filter);
    var s' := After(s, events);
    OtherKindDisagrees(s', filter, s.issued[i]);
  }

  /** From a state with commands about the filter on their way, no order of handing over makes broker and
      registry differ exactly when all of them are of the kind last issued; and there is an order. */
  lemma AgreesExactlyWhenSettled(s: System, filter: string)
    requires Follows(s) && FollowsAbout(s, filter) && !NothingPending(s, filter)
    ensures exists events :: Possible(s, events) && OnlyDeliveries(events) && After(s, events).inFlight == {}
    ensures AgreesInTheEnd(s, filter)
            <==> forall i: nat | Pending(s, filter, i) :: LastAbout(s.issued, filter) == KindOf(s.issued[i])
  {
    var someOrder := DeliverAll(s);
    if i: nat :| Pending(s, filter, i) && LastAbout(s.issued, filter) != KindOf(s.issued[i]) {
      TheOppositeMayArriveLast(s, filter, i);
    } else {
      SettledAgreesInTheEnd(s, filter);
    }
  }

  lemma PendingAfterOperation(s: System, op: Op)
    requires Follows(s) && CommandOf(s.registry, op).Some?
    ensures var s' := Next(s, Do(op));
            && LastAbout(s'.issued, op.filter) == KindOf(CommandOf(s.registry, op).value)
            && (CommandOf(s.registry, op).value.Subscribe? <==> op.Add?)
            && Pending(s', op.filter, |s.issued|) && s'.issued[|s.issued|] == CommandOf(s.registry, op).value
            && (forall i: nat | i < |s.issued| :: s'.issued[i] == s.issued[i])
            && (forall i: nat :: Pending(s', op.filter, i) <==> Pending(s, op.filter, i) || i == |s.issued|)
  {
    OneMoreCommand(s.issued, CommandOf(s.registry, op).value, op.filter);
  }

  lemma OneOppositeDecides(s: System, op: Op)
    requires Follows(s) && FollowsAbout(s, op.filter) && CommandOf(s.registry, op).Some?
    ensures AgreesInTheEnd(Next(s, Do(op)), op.filter)
            <==> forall i: nat | Pending(s, op.filter, i) :: s.issued[i].Subscribe? == op.Add?
  {
    var s' := Next(s, Do(op));
    EventKeepsFollowing(s, Do(op), op.filter);
    PendingAfterOperation(s, op);
    AgreesExactlyWhenSettled(s', op.filter);
    assert forall i: nat | Pending(s, op.filter, i) :: Pending(s', op.filter, i) && s'.issued[i] == s.issued[i];
  }

  /** What a caller could check before an operation that has something to ask of the broker: whatever
      the order of handing over, the broker ends with what the registry has exactly when no command of the
      opposite kind is on its way for that filter. */
  lemma OvertakenExactlyByTheOpposite(events: seq<Event>, op: Op)
    requires Possible(CONNECTED, events) && CommandOf(After(CONNECTED, events).registry, op).Some?
    ensures var s := After(CONNECTED, events);
            AgreesInTheEnd(Next(s, Do(op)), op.filter)
            <==> forall i: nat | Pending(s, op.filter, i) :: s.issued[i].Subscribe? == op.Add?
  {
    EventsKeepFollowing(CONNECTED, events, op.filter);
    OneOppositeDecides(After(CONNECTED, events), op);
  }

  lemma Begin(s: System, e: Event, rest: seq<Event>)
    requires CanHappen(s, e) && Possible(Next(s, e), rest)
    ensures Possible(s, [e] + rest) && After(s, [e] + rest) == After(Next(s, e), rest)
  {
    assert ([e] + rest)[1..] == rest;
  }

  /** A run that loses a filter: a callback is removed and one added in two threads, and the
      unsubscribe is handed over after the subscribe that was issued later. */
  lemma OvertakenUnsubscribeLosesTheFilter(filter: string, callback: Callback, qos: int)
    returns (events: seq<Event>)
    ensures events == [Do(Add(filter, callback, qos)), Deliver(0), Do(Remove(filter, 1)),
                       Do(Add(filter, callback, qos)), Deliver(2), Deliver(1)]
    ensures Possible(CONNECTED, events) && After(CONNECTED, events).inFlight == {}
    ensures filter in After(CONNECTED, events).registry.subscriptions
    ensures filter !in After(CONNECTED, events).broker
  {
    var add, remove := Do(Add(filter, callback, qos)), Do(Remove(filter, 1));
    var s1 := Next(CONNECTED, add);
    var s2 := Next(s1, Deliver(0));
    var s3 := Next(s2, remove);
    assert Omit(s2.registry.subscriptions[filter].callbacks, 1) == map[];
    var s4 := Next(s3, add);
    var s5 := Next(s4, Deliver(2));
    events := [Deliver(1)];
    assert events[1..] == [];
    Begin(s4, Deliver(2), events);
    Begin(s3, add, [Deliver(2)] + events);
    Begin(s2, remove, [add] + ([Deliver(2)] + events));
    Begin(s1, Deliver(0), [remove] + ([add] + ([Deliver(2)] + events)));
    Begin(CONNECTED, add, [Deliver(0)] + ([remove] + ([add] + ([Deliver(2)] + events))));
    events := [add] + ([Deliver(0)] + ([remove] + ([add] + ([Deliver(2)] + events))));
  }

  // ----- delivery -----

  ghost predicate NoRepeats(calls: seq<Registration>) {
    forall i, j | 0 <= i < j < |calls| :: calls[i] != calls[j]
  }

  /** The calls of one message are right: each matching registration once, and nothing else. */
  ghost predicate DeliversTo(s: State, topic: string, calls: seq<Registration>) {
    && NoRepeats(calls)
    && (forall r :: r in calls <==> Registered(s, r) && Accepts(r.filter, topic))
  }

  /** A registration is called for a message exactly when its filter accepts the topic, whatever
      was added and removed before, and never after it was removed. */
  lemma CalledWhileRegistered(ops: seq<Op>, topic: string, calls: seq<Registration>, k: nat)
    requires k < |ops| && ops[k].Add? && DeliversTo(Run(ops), topic, calls)
    ensures var mine := Registration(ops[k].filter, Run(ops[..k]).nextHandle, ops[k].callback);
            mine in calls <==>
              Accepts(ops[k].filter, topic)
              && forall j | k < j < |ops| :: ops[j] != Remove(mine.filter, mine.handle)
  {
    StaysRegistered(ops, k);
  }

  lemma {:induction false} StaysRegistered(ops: seq<Op>, k: nat)
    requires k < |ops| && ops[k].Add?
    ensures var mine := Registration(ops[k].filter, Run(ops[..k]).nextHandle, ops[k].callback);
            && mine.handle < Run(ops).nextHandle
            && (Registered(Run(ops), mine) <==>
                forall j | k < j < |ops| :: ops[j] != Remove(mine.filter, mine.handle))
  {
    var init, last := ops[..|ops| - 1], ops[|ops| - 1];
    SoundInEveryRun(init);
    if k < |init| {
      assert init[..k] == ops[..k] && init[k] == ops[k];
      StaysRegistered(init, k);
      OneMoreOp(Run(init), last, Registration(ops[k].filter, Run(ops[..k]).nextHandle, ops[k].callback));
    } else {
      assert init == ops[..k];
      AddRegisters(Run(init), last);
    }
  }

  /** What one operation does to a registration whose handle was given out before it. */
  lemma OneMoreOp(s: State, op: Op, mine: Registration)
    requires Sound(s) && mine.handle < s.nextHandle
    ensures mine.handle < Step(s, op).nextHandle
    ensures Registered(Step(s, op), mine) <==> Registered(s, mine) && op != Remove(mine.filter, mine.handle)
  {
    if op.Add? {
      AddRegisters(s, op);
    } else {
      RemoveUnregisters(s, op);
    }
  }

  class Registry {
    var subscriptions: map<string, TopicEntry>
    var nextHandle: nat

    function Model(): State
      reads this
    {
      State(subscriptions, nextHandle)
    }

    constructor ()
      ensures Model() == START
    {
      subscriptions, nextHandle := map[], 1;
    }

    method AddSubscription(filter: string, callback: Callback, qos: int) returns (handle: nat, command: Option<Command>)
      requires Sound(Model())
      modifies this
      ensures handle == old(nextHandle)
      ensures Model() == Step(old(Model()), Add(filter, callback, qos))
      ensures command == CommandOf(old(Model()), Add(filter, callback, qos))
    {
      handle := nextHandle;
      nextHandle := nextHandle + 1;
      var entry := if filter in subscriptions then subscriptions[filter] else TopicEntry(qos, map[]);
      var isFirst := entry.callbacks == map[];
      if isFirst {
        entry := entry.(qos := qos);
      }
      subscriptions := subscriptions[filter := entry.(callbacks := entry.callbacks[handle := callback])];
      command := if isFirst then Some(Subscribe(filter, qos)) else None;
    }

    method RemoveSubscription(filter: string, handle: nat) returns (command: Option<Command>)
      requires Sound(Model())
      modifies this
      ensures Model() == Step(old(Model()), Remove(filter, handle))
      ensures command == CommandOf(old(Model()), Remove(filter, handle))
    {
      command := None;
      if filter in subscriptions {
        var left := Omit(subscriptions[filter].callbacks, handle);
        if left == map[] {
          subscriptions := Omit(subscriptions, filter);
          command := Some(Unsubscribe(filter));
        } else {
          subscriptions := subscriptions[filter := subscriptions[filter].(callbacks := left)];
        }
      }
    }

    /** Collects the callbacks a message reaches; they are called in this order once the mutex is free. */
    method OnMessage(topic: string) returns (calls: seq<Registration>)
      ensures DeliversTo(Model(), topic, calls)
    {
      calls := [];
      var todo := subscriptions.Keys;
      while todo != {}
        invariant todo <= subscriptions.Keys
        invariant NoRepeats(calls)
        invariant forall r :: r in calls <==> Registered(Model(), r) && r.filter !in todo && Accepts(r.filter, topic)
        decreases todo
      {
        var filter :| filter in todo;
        todo := todo - {filter};
        var matches := TopicMatches(filter, topic);
        if matches {
          var more := Collect(filter, subscriptions[filter].callbacks);
          calls := calls + more;
        }
      }
    }
  }

  method Collect(filter: string, callbacks: map<nat, Callback>) returns (calls: seq<Registration>)
    ensures NoRepeats(calls)
    ensures forall r :: r in calls <==> r.filter == filter && r.handle in callbacks && callbacks[r.handle] == r.callback
  {
    calls := [];
    var todo := callbacks.Keys;
    while todo != {}
      invariant todo <= callbacks.Keys && NoRepeats(calls)
      invariant forall r :: r in calls <==>
                  r.filter == filter && r.handle in callbacks && r.handle !in todo && callbacks[r.handle] == r.callback
      decreases todo
    {
      var handle :| handle in todo;
      todo := todo - {handle};
      calls := calls + [Registration(filter, handle, callbacks[handle])];
    }
  }
}
