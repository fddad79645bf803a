/** StreamWriter and StreamReader: their queues as fields, changed under the queue mutex. */
module Streams {
  import opened Values
  import opened StreamQueue

  /** The frames behind the places of a queue. */
  function Frames<T>(accepted: seq<T>, places: seq<nat>): (r: seq<T>)
    requires forall i | 0 <= i < |places| :: places[i] < |accepted|
    ensures |r| == |places|
  {
    seq(|places|, i requires 0 <= i < |places| => accepted[places[i]])
  }

  /** Frames taken up to one moment and those taken since, when only later frames were accepted since. */
  lemma FramesSince<T>(before: Queue<T>, after: Queue<T>, n: nat)
    requires before.accepted <= after.accepted && n <= |before.taken| && before.taken <= after.taken
    requires forall i | 0 <= i < |before.taken| :: before.taken[i] < |before.accepted|
    requires forall i | 0 <= i < |after.taken| :: after.taken[i] < |after.accepted|
    ensures Frames(after.accepted, after.taken[n..])
            == Frames(before.accepted, before.taken[n..]) + Frames(after.accepted, after.taken[|before.taken|..])
  {
    assert after.taken[n..] == before.taken[n..] + after.taken[|before.taken|..];
  }

  class DropOldest<T(==)> {
    const limit: nat
    var queue: seq<T>
    ghost var model: Queue<T>

    ghost predicate Valid()
      reads this
    {
      && limit > 0 && Orderly(model, limit)
      && queue == Frames(model.accepted, model.queue)
    }

    constructor (size: nat)
      requires size > 0
      ensures Valid() && limit == size && model == Queue([], [], [])
    {
      limit, queue := size, [];
      model := Queue([], [], []);
    }

    /** The locked section of write, and of the reading thread. */
    method Push(frame: T)
      requires Valid()
      modifies this
      ensures Valid() && model == Pushed(old(model), limit, frame)
    {
      PushIsOrderly(model, limit, frame);
      if |queue| >= limit {
        queue := queue[1..];
      }
      queue := queue + [frame];
      model := Pushed(model, limit, frame);
    }

    method PushAll(more: seq<T>)
      requires Valid()
      modifies this
      ensures Valid() && model == PushedAll(old(model), limit, more)
    {
      var i := 0;
      while i < |more|
        invariant i <= |more| && Valid()
        invariant PushedAll(model, limit, more[i..]) == PushedAll(old(model), limit, more)
      {
        assert more[i..][1..] == more[i + 1..];
        Push(more[i]);
        i := i + 1;
      }
    }

    /** The locked section that takes the oldest frame, if there is one. */
    method Pop() returns (r: Option<T>)
      requires Valid()
      modifies this
      ensures Valid() && (r.None? <==> old(model).queue == [])
      ensures r.None? ==> model == old(model)
      ensures r.Some? ==> model == Taken(old(model)) && r.value == model.accepted[old(model).queue[0]]
    {
      if queue == [] { return None; }
      TakeIsOrderly(model, limit);
      r := Some(queue[0]);
      queue := queue[1..];
      model := Taken(model);
    }
  }

  /** What read comes to: a frame, one of its two kinds of false, or it waits on. */
  datatype ReadResult<T> = Frame(frame: T) | Ended | TimedOut | Waits

  class StreamReader<T(==)> {
    const queueSize: int
    const frames: DropOldest<T>
    var closed: bool

    constructor (size: int)
      ensures queueSize == size && fresh(frames) && frames.Valid() && (size > 0 ==> frames.limit == size)
      ensures frames.model == Queue([], [], []) && !closed
    {
      queueSize := size;
      frames := new DropOldest(if size > 0 then size else 1);
      closed := false;
    }

    /** read.  Without a queue it is the transport's own read, whose outcome is `direct`; else a closed
        reader ends at once, and otherwise it looks at the queue in each turn, a timed one until its
        turns are over. */
    method Read(direct: ReadResult<T>, timed: bool, turns: seq<Turn<T>>) returns (r: ReadResult<T>)
      requires frames.Valid()
      modifies frames
      ensures frames.Valid()
      ensures queueSize <= 0 ==> r == direct && frames.model == old(frames.model)
      ensures queueSize > 0 && closed ==> r == Ended && frames.model == old(frames.model)
      ensures queueSize > 0 && !closed ==>
                var (q, look) := Looked(old(frames.model), frames.limit, turns);
                && frames.model == q
                && match look
                   case Took => q.taken != [] && r == Frame(q.accepted[q.taken[|q.taken| - 1]])
                   case Over => r == Ended
                   case NothingYet => r == if timed then TimedOut else Waits
    {
      if queueSize <= 0 { return direct; }
      if closed { return Ended; }
      var i := 0;
      while i < |turns|
        invariant i <= |turns| && frames.Valid()
        invariant Looked(frames.model, frames.limit, turns[i..]) == Looked(old(frames.model), frames.limit, turns)
      {
        assert turns[i..][1..] == turns[i + 1..];
        frames.PushAll(turns[i].arrived);
        var item := frames.Pop();
        if item.Some? { return Frame(item.value); }
        if turns[i].closed { return Ended; }
        i := i + 1;
      }
      r := if timed then TimedOut else Waits;
    }

    /** What the reading thread does with the outcome of one transport read. */
    method Receive(frame: Option<T>)
      requires frames.Valid()
      modifies frames
      ensures frames.Valid()
      ensures frames.model == if frame.None? then old(frames.model) else Pushed(old(frames.model), frames.limit, frame.value)
    {
      if frame.Some? {
        frames.Push(frame.value);
      }
    }
  }

  class StreamWriter<T(==)> {
    const queueSize: int
    const frames: DropOldest<T>
    var closed: bool
    var closeRequested: bool
    var written: seq<T>

    constructor (size: int)
      ensures queueSize == size && fresh(frames) && frames.Valid() && (size > 0 ==> frames.limit == size)
      ensures frames.model == Queue([], [], []) && written == [] && !closed && !closeRequested
    {
      queueSize := size;
      frames := new DropOldest(if size > 0 then size else 1);
      closed, closeRequested, written := false, false, [];
    }

    /** write: dropped after close, written at once without a queue, else queued if it can be cloned. */
    method Write(frame: T, cloned: bool)
      requires frames.Valid()
      modifies this`written, frames
      ensures frames.Valid()
      ensures written == if !closed && queueSize <= 0 then old(written) + [frame] else old(written)
      ensures frames.model == if !closed && queueSize > 0 && cloned
                              then Pushed(old(frames.model), frames.limit, frame) else old(frames.model)
    {
      if closed { return; }
      if queueSize <= 0 {
        written := written + [frame];
        return;
      }
      if !cloned { return; }
      frames.Push(frame);
    }

    /** threadLoop from a requested close on: what is queued is written, oldest first, until a turn
        finds the queue empty.  `late` holds what writers queue before each turn. */
    method Flush(late: seq<seq<T>>)
      requires frames.Valid() && closeRequested
      modifies this`written, frames
      ensures frames.Valid() && frames.queue == []
      ensures frames.model == Drained(old(frames.model), frames.limit, late)
      ensures |old(frames.model).taken| <= |frames.model.taken|
      ensures written == old(written) + Frames(frames.model.accepted, frames.model.taken[|old(frames.model).taken|..])
    {
      ghost var start := frames.model;
      var coming, done := late, false;
      while !done
        invariant frames.Valid() && start.taken <= frames.model.taken
        invariant if done then frames.model.queue == [] && frames.model == Drained(start, frames.limit, late)
                  else Drained(frames.model, frames.limit, coming) == Drained(start, frames.limit, late)
        invariant written == old(written) + Frames(frames.model.accepted, frames.model.taken[|start.taken|..])
        decreases !done, |coming|, |frames.model.queue|
      {
        ghost var before := frames.model;
        done := Turn(if coming == [] then [] else coming[0]);
        coming := if coming == [] then [] else coming[1..];
        FramesSince(before, frames.model, |start.taken|);
      }
    }

    /** One turn of the loop, after writers have queued `more`. */
    method Turn(more: seq<T>) returns (done: bool)
      requires frames.Valid() && closeRequested
      modifies this`written, frames
      ensures frames.Valid()
      ensures var p := PushedAll(old(frames.model), frames.limit, more);
              done == (p.queue == []) && frames.model == if done then p else Taken(p)
      ensures old(frames.model).taken <= frames.model.taken
      ensures written == old(written) + Frames(frames.model.accepted, frames.model.taken[|old(frames.model).taken|..])
    {
      frames.PushAll(more);
      ghost var p := frames.model;
      var item := frames.Pop();
      done := item.None?;
      if item.Some? {
        written := written + [item.value];
        assert frames.model.taken[|p.taken|..] == [p.queue[0]];
      }
    }
  }
}
