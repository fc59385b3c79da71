/**
 The hub as one view alone would describe it: an unbounded log of that view's events, and
 its own subscribers reading positions of the log. Nothing here mentions another Owner, the
 instance-wide sequence or a replay buffer. The hub is proved to refine it, view by view.
 */
module EventReference {
  import opened Basics
  import opened EventModel

  // What a client receives: the event and the `id:` sent with it.
  datatype Frame = Frame(event: Event, id: nat)

  datatype Reader = Reader(feed: Option<string>, box: Mailbox<Frame>) {
    function Offer(f: Frame): Reader {
      if Passes(feed, f.event) then this.(box := box.Put(f)) else this
    }
  }

  // `live` once the view exists; until then it has no events and no readers.
  datatype Log<C> = Log(bufferSize: nat, queueSize: int, live: bool, events: seq<Event>, readers: map<C, Reader>) {
    // The position (counted from 1) of the oldest event that can still be replayed.
    function Oldest(): nat {
      if |events| > bufferSize then |events| - bufferSize + 1 else 1
    }
  }

  function NewLog<C>(bufferSize: nat, queueSize: int, view: Option<string>): Log<C> {
    Log(bufferSize, queueSize, view.None?, [], map[])
  }

  datatype Act<C> =
    | Append(event: Event)
    | Attach(conn: C, feed: Option<string>, last: Option<int>)
    | Shut(conn: C)
    | Detach(conn: C)
    | Take(conn: C)

  function Appended<C>(l: Log<C>, event: Event): Log<C> {
    if event.Resync? && !l.live then l
    else
      var frame := Frame(event, |l.events| + 1);
      l.(live := true,
         events := l.events + [event],
         readers := map c | c in l.readers :: l.readers[c].Offer(frame))
  }

  // Offer events k, k + 1, ... of the log.
  function Replay(r: Reader, events: seq<Event>, k: nat): Reader
    requires k > 0
    decreases |events| + 1 - k
  {
    if k > |events| then r else Replay(r.Offer(Frame(events[k - 1], k)), events, k + 1)
  }

  function Max(a: int, b: int): int {
    if a > b then a else b
  }

  function OpenedReader<C>(l: Log<C>, feed: Option<string>, last: Option<int>): Reader {
    var r := Reader(feed, NewMailbox(l.queueSize));
    if last.None? then r
    else
      var r' := if IsGap(last.value, l.Oldest(), |l.events| + 1)
                then r.Offer(Frame(Resync(REPLAY_GAP), |l.events|)) else r;
      Replay(r', l.events, Max(l.Oldest(), last.value + 1))
  }

  function Acted<C>(l: Log<C>, act: Act<C>): Log<C> {
    match act
    case Append(e) => Appended(l, e)
    case Attach(c, feed, last) => l.(live := true, readers := l.readers[c := OpenedReader(l, feed, last)])
    case Shut(c) =>
      if c in l.readers then l.(readers := l.readers[c := l.readers[c].(box := l.readers[c].box.Close())]) else l
    case Detach(c) => l.(readers := l.readers - {c})
    case Take(c) =>
      if c in l.readers then l.(readers := l.readers[c := l.readers[c].(box := l.readers[c].box.Resume().0)]) else l
  }

  // What the owner of the readers sees happen at this act.
  function Seen<C>(l: Log<C>, act: Act<C>): seq<Outcome<Frame>> {
    if act.Take? && act.conn in l.readers then [l.readers[act.conn].box.Resume().1] else []
  }

  function ActAll<C>(l: Log<C>, acts: seq<Act<C>>): Log<C>
    decreases |acts|
  {
    if acts == [] then l else ActAll(Acted(l, acts[0]), acts[1..])
  }

  function SeenAll<C>(l: Log<C>, acts: seq<Act<C>>): seq<Outcome<Frame>>
    decreases |acts|
  {
    if acts == [] then [] else Seen(l, acts[0]) + SeenAll(Acted(l, acts[0]), acts[1..])
  }

  // ------------------------------------------------------------------ one view of the hub

  function FrameOf(e: Envelope, view: Option<string>): Frame {
    Frame(e.event, IdOr0(e, view))
  }

  function BoxOf(b: Mailbox<Envelope>, view: Option<string>): Mailbox<Frame> {
    Mailbox(b.maxsize, seq(|b.queue|, i requires 0 <= i < |b.queue| =>
                              if b.queue[i].None? then None else Some(FrameOf(b.queue[i].value, view))),
            b.closed, b.dropped, b.phase)
  }

  function ReaderOf(s: Sub): Reader {
    Reader(s.feed, BoxOf(s.box, s.principal.View()))
  }

  function ReadersOf<C>(subs: map<C, Sub>, view: Option<string>): map<C, Reader> {
    map c | c in subs && subs[c].principal.View() == view :: ReaderOf(subs[c])
  }

  // What a step is to `view`, whose open connections are `own`: its own events, the resyncs
  // and the steps of its own connections; nothing else concerns it.
  function ActsOf<C>(step: Step<C>, view: Option<string>, own: set<C>): seq<Act<C>> {
    match step
    case Publish(e, o) => if Concerns(view, e, o) then [Append(e)] else []
    case Subscribe(c, p, f, l) => if p.View() == view then [Attach(c, f, l)] else []
    case Close(c) => if c in own then [Shut(c)] else []
    case Unsubscribe(c) => if c in own then [Detach(c)] else []
    case Consume(c) => if c in own then [Take(c)] else []
  }

  function OwnAfter<C>(step: Step<C>, view: Option<string>, own: set<C>): set<C> {
    match step
    case Subscribe(c, p, _, _) => if p.View() == view then own + {c} else own
    case Unsubscribe(c) => own - {c}
    case _ => own
  }

  function Restrict<C>(t: seq<Step<C>>, view: Option<string>, own: set<C>): seq<Act<C>>
    decreases |t|
  {
    if t == [] then []
    else ActsOf(t[0], view, own) + Restrict(t[1..], view, OwnAfter(t[0], view, own))
  }

  predicate Concerns(view: Option<string>, event: Event, owner: Option<string>) {
    view.None? || event.Resync? || owner == view
  }

  function OutcomeIn(o: Outcome<Envelope>, view: Option<string>): Outcome<Frame> {
    match o
    case Got(e) => Got(FrameOf(e, view))
    case Blocked => Blocked
    case Ended => Ended
  }

  // What the connections of `view` receive at a step, and over a history.
  function ReceivedNow<C>(h: Hub<C>, step: Step<C>, view: Option<string>): seq<Outcome<Frame>>
    requires Enabled(h, step)
  {
    if step.Consume? && h.subs[step.conn].principal.View() == view
    then [OutcomeIn(h.subs[step.conn].box.Resume().1, view)] else []
  }

  function Received<C>(h: Hub<C>, t: seq<Step<C>>, view: Option<string>): seq<Outcome<Frame>>
    requires Counting(h) && Runs(h, t)
    decreases |t|
  {
    if t == [] then []
    else
      CountingKept(h, t[0]);
      ReceivedNow(h, t[0], view) + Received(Next(h, t[0]), t[1..], view)
  }
}
