/** One client that keeps reconnecting: what it receives, over one lifetime of the hub, and what it misses. */
module EventReplay {
  import opened Basics
  import opened EventModel
  import opened EventReference
  import opened EventRefinement
  import opened EventDelivery

  // ------------------------------------------------------------------ a reconnecting client

  // One client without a feed filter. `log` is every frame it received, over all its
  // connections; each (re)connection names the id of the last of them. `sent` is what the
  // hub numbered in the client's view so far, event k at index k - 1, and `start` how many
  // there were when the client, with nothing received yet, last connected.
  datatype World<C> = World(hub: Hub<C>, sent: seq<Event>, conn: Option<C>, log: seq<Frame>, start: nat)

  // A move of the world: any hub step that is not the client's own, a (re)connection of the
  // client, or the client reading on.
  datatype Move<C> = Other(step: Step<C>) | Connect(conn: C) | Read

  predicate CanMove<C>(w: World<C>, m: Move<C>) {
    match m
    case Other(step) =>
      && Enabled(w.hub, step)
      && ((step.Consume? || step.Unsubscribe?) ==> Some(step.conn) != w.conn)
    case Connect(c) => c !in w.hub.subs
    case Read => w.conn.Some? && w.conn.value in w.hub.subs
  }

  function LastId(log: seq<Frame>): Option<int> {
    if log == [] then None else Some(log[|log| - 1].id)
  }

  predicate Numbered<C>(h: Hub<C>, view: Option<string>, step: Step<C>) {
    && step.Publish?
    && Concerns(view, step.event, step.owner)
    && !(step.event.Resync? && view.Some? && view.value !in h.views)
  }

  function Disconnected<C>(w: World<C>): Hub<C> {
    if w.conn.Some? then w.hub.(subs := w.hub.subs - {w.conn.value}) else w.hub
  }

  function Moved<C>(w: World<C>, p: Principal, m: Move<C>): World<C>
    requires Counting(w.hub) && CanMove(w, m) && p.Named()
  {
    match m
    case Other(step) =>
      w.(hub := Next(w.hub, step),
         sent := if Numbered(w.hub, p.View(), step) then w.sent + [step.event] else w.sent)
    case Connect(c) =>
      w.(hub := Subscribed(Disconnected(w), c, p, None, LastId(w.log)), conn := Some(c),
         start := if w.log == [] then |w.sent| else w.start)
    case Read =>
      var c := w.conn.value;
      var (box, outcome) := w.hub.subs[c].box.Resume();
      w.(hub := Next(w.hub, Consume(c)),
         log := if outcome.Got? then w.log + [FrameOf(outcome.item, p.View())] else w.log)
  }

  lemma MovedCounts<C>(w: World<C>, p: Principal, m: Move<C>)
    requires Counting(w.hub) && CanMove(w, m) && p.Named()
    ensures Counting(Moved(w, p, m).hub)
  {
  }

  predicate Lives<C>(w: World<C>, p: Principal, ms: seq<Move<C>>)
    requires Counting(w.hub) && p.Named()
    decreases |ms|
  {
    ms == [] || (CanMove(w, ms[0]) && (MovedCounts(w, p, ms[0]); Lives(Moved(w, p, ms[0]), p, ms[1..])))
  }

  function Live<C>(w: World<C>, p: Principal, ms: seq<Move<C>>): (w': World<C>)
    requires Counting(w.hub) && p.Named() && Lives(w, p, ms)
    ensures Counting(w'.hub)
    decreases |ms|
  {
    if ms == [] then w
    else
      MovedCounts(w, p, ms[0]);
      Live(Moved(w, p, ms[0]), p, ms[1..])
  }

  // A replay-gap resync: the client is told to refetch everything.
  predicate Gap(f: Frame) {
    f.event == Resync(REPLAY_GAP)
  }

  // Every frame but a replay gap is the event the view numbered with its id.
  ghost predicate Genuine(log: seq<Frame>, sent: seq<Event>) {
    forall i :: 0 <= i < |log| && !Gap(log[i]) ==> 1 <= log[i].id <= |sent| && sent[log[i].id - 1] == log[i].event
  }

  // Events next to each other carry successive ids; after a gap the next event carries at most
  // the id after the gap's.
  ghost predicate Successive(log: seq<Frame>) {
    && (forall i :: 0 < i < |log| && !Gap(log[i - 1]) && !Gap(log[i]) ==> log[i].id == log[i - 1].id + 1)
    && (forall i :: 0 < i < |log| && Gap(log[i - 1]) && !Gap(log[i]) ==> log[i].id <= log[i - 1].id + 1)
  }

  // No frame's id is below that of an event before it, and no event comes twice.
  ghost predicate Increasing(log: seq<Frame>) {
    forall i, j :: 0 <= i < j < |log| && !Gap(log[i]) ==>
      log[i].id <= log[j].id && (!Gap(log[j]) ==> log[i].id < log[j].id)
  }

  // The frames are the view's events, from the first one after `start`, without a hole except
  // next to a replay gap, none twice and none late.
  ghost predicate Faithful(log: seq<Frame>, sent: seq<Event>, start: nat) {
    && Genuine(log, sent) && Successive(log) && Increasing(log)
    && (log != [] ==> log[0].id == start + 1)
  }

  ghost predicate Orderly(log: seq<Frame>, sent: seq<Event>, start: nat) {
    Faithful(log, sent, start) && forall i :: 0 <= i < |log| ==> log[i].id <= |sent|
  }

  // As replay stands before event k of n: the last frame is event k - 1, or the gap that announced
  // the replay.
  ghost predicate Replaying(log: seq<Frame>, k: nat, n: nat) {
    log != [] && var last := log[|log| - 1]; last.id + 1 == k || (Gap(last) && last.id == n)
  }

  // The last frame carries the id of the last event, if there was any since `start`.
  ghost predicate Current(log: seq<Frame>, sent: seq<Event>, start: nat) {
    if log == [] then |sent| == start else log[|log| - 1].id == |sent|
  }

  // Every frame the client received, then those waiting in its queue.
  function Waiting(log: seq<Frame>, r: Reader): seq<Frame> {
    log + Items(r.box.queue)
  }

  // What the client has and what waits for it; an open stream waits with everything sent.
  ghost predicate ClientOk(log: seq<Frame>, r: Reader, sent: seq<Event>, start: nat) {
    && r.feed.None?
    && Orderly(Waiting(log, r), sent, start)
    && (!r.box.closed ==> Current(Waiting(log, r), sent, start))
  }

  lemma PutItems<T>(b: Mailbox<T>, x: T)
    ensures Items(b.Put(x).queue) == if b.closed || b.Full() then Items(b.queue) else Items(b.queue) + [x]
    ensures Items(b.Close().queue) == Items(b.queue)
  {
    ItemsConcat(b.queue, [Some(x)]);
    ItemsConcat(b.queue, [None]);
    var end: seq<Option<T>> := [None];
    assert [Some(x)][1..] == [] && end[1..] == [];
  }

  // A frame that may come next: an event, or a gap.
  ghost predicate Follows(log: seq<Frame>, f: Frame) {
    && (!Gap(f) && log != [] ==>
          var last := log[|log| - 1];
          last.id + 1 == f.id || (Gap(last) && f.id <= last.id + 1))
    && forall e :: e in log && !Gap(e) ==> e.id < f.id || (Gap(f) && e.id == f.id)
  }

  lemma AppendSuccessive(log: seq<Frame>, f: Frame)
    requires Successive(log) && Follows(log, f)
    ensures Successive(log + [f])
  {
    var all := log + [f];
    assert forall i :: 0 <= i < |log| ==> all[i] == log[i];
  }

  lemma AppendIncreasing(log: seq<Frame>, f: Frame)
    requires Increasing(log) && Follows(log, f)
    ensures Increasing(log + [f])
  {
    var all := log + [f];
    forall i, j | 0 <= i < j < |all| && !Gap(all[i])
      ensures all[i].id <= all[j].id && (!Gap(all[j]) ==> all[i].id < all[j].id)
    {
      assert all[i] == log[i] && log[i] in log;
      if j < |log| {
        assert all[j] == log[j];
      }
    }
  }

  lemma AppendFaithful(log: seq<Frame>, sent: seq<Event>, start: nat, f: Frame)
    requires Orderly(log, sent, start) && Follows(log, f) && f.id <= |sent|
    requires !Gap(f) ==> 1 <= f.id && sent[f.id - 1] == f.event
    requires log == [] ==> f.id == start + 1
    ensures Orderly(log + [f], sent, start)
  {
    AppendSuccessive(log, f);
    AppendIncreasing(log, f);
  }

  lemma AppendOrderly(log: seq<Frame>, sent: seq<Event>, start: nat, f: Frame)
    requires 1 <= f.id <= |sent| && sent[f.id - 1] == f.event
    requires Orderly(log, sent, start) && AllBelow(log, f.id)
    requires if log == [] then f.id == start + 1 else Replaying(log, f.id, |sent|)
    ensures Orderly(log + [f], sent, start)
  {
    AppendFaithful(log, sent, start, f);
  }

  ghost predicate AllBelow(log: seq<Frame>, k: nat) {
    forall f :: f in log && !Gap(f) ==> f.id < k
  }

  lemma AppendBelow(log: seq<Frame>, f: Frame)
    requires AllBelow(log, f.id)
    ensures AllBelow(log + [f], f.id + 1)
  {
  }

  lemma OrderlyBelow(log: seq<Frame>, sent: seq<Event>, start: nat)
    requires Orderly(log, sent, start)
    ensures AllBelow(log, |sent| + 1)
    ensures log != [] ==> AllBelow(log, log[|log| - 1].id + 1)
  {
  }

  lemma OfferItems(log: seq<Frame>, r: Reader, f: Frame)
    requires r.feed.None?
    ensures r.Offer(f).feed.None?
    ensures Waiting(log, r.Offer(f)) ==
            if r.box.closed || r.box.Full() then Waiting(log, r) else Waiting(log, r) + [f]
    ensures r.Offer(f).box.closed <==> r.box.closed || r.box.Full()
  {
    PutItems(r.box, f);
  }

  lemma {:induction false} ReplayOrderly(log: seq<Frame>, r: Reader, sent: seq<Event>, start: nat, k: nat)
    requires r.feed.None? && 0 < k <= |sent| + 1 && log != []
    requires Orderly(Waiting(log, r), sent, start)
    requires AllBelow(Waiting(log, r), k)
    requires !r.box.closed ==> Replaying(Waiting(log, r), k, |sent|)
    ensures ClientOk(log, Replay(r, sent, k), sent, start)
    decreases |sent| + 1 - k
  {
    if k <= |sent| {
      var f := Frame(sent[k - 1], k);
      OfferItems(log, r, f);
      AppendBelow(Waiting(log, r), f);
      if !r.box.closed && !r.box.Full() {
        AppendOrderly(Waiting(log, r), sent, start, f);
      }
      ReplayOrderly(log, r.Offer(f), sent, start, k + 1);
    }
  }

  lemma PrefixOrderly(log: seq<Frame>, rest: seq<Frame>, sent: seq<Event>, start: nat)
    requires Orderly(log + rest, sent, start)
    ensures Orderly(log, sent, start)
  {
    assert forall i :: 0 <= i < |log| ==> (log + rest)[i] == log[i];
  }

  // The answer to an id whose successors are no longer all buffered: the gap, then the buffer.
  lemma GapReplayOk(log: seq<Frame>, r: Reader, sent: seq<Event>, start: nat, oldest: nat)
    requires log != [] && Orderly(log, sent, start) && r == Reader(None, NewMailbox(r.box.maxsize))
    requires log[|log| - 1].id + 1 < oldest <= |sent| + 1
    ensures ClientOk(log, Replay(r.Offer(Frame(Resync(REPLAY_GAP), |sent|)), sent, oldest), sent, start)
  {
    var gap := Frame(Resync(REPLAY_GAP), |sent|);
    OrderlyBelow(log, sent, start);
    assert Waiting(log, r) == log;
    OfferItems(log, r, gap);
    AppendFaithful(log, sent, start, gap);
    ReplayOrderly(log, r.Offer(gap), sent, start, oldest);
  }

  // The answer to any other id: the events after it.
  lemma PlainReplayOk(log: seq<Frame>, r: Reader, sent: seq<Event>, start: nat)
    requires log != [] && Orderly(log, sent, start) && r == Reader(None, NewMailbox(r.box.maxsize))
    ensures ClientOk(log, Replay(r, sent, log[|log| - 1].id + 1), sent, start)
  {
    OrderlyBelow(log, sent, start);
    assert Waiting(log, r) == log;
    ReplayOrderly(log, r, sent, start, log[|log| - 1].id + 1);
  }

  // A (re)connection that names the last id received, or none when nothing was.
  lemma ReconnectOk<C>(log: seq<Frame>, l: Log<C>, start: nat)
    requires Orderly(log, l.events, start) && (log == [] ==> start == |l.events|)
    ensures ClientOk(log, OpenedReader(l, None, LastId(log)), l.events, start)
  {
    var r := Reader(None, NewMailbox<Frame>(l.queueSize));
    if log == [] {
      assert Waiting(log, r) == log;
    } else if IsGap(log[|log| - 1].id, l.Oldest(), |l.events| + 1) {
      GapReplayOk(log, r, l.events, start, l.Oldest());
    } else {
      PlainReplayOk(log, r, l.events, start);
    }
  }

  // ------------------------------------------------------------------ the world's invariant

  function LogOf<C>(w: World<C>, view: Option<string>): Log<C> {
    Log(w.hub.bufferSize, w.hub.queueSize, view.None? || view.value in w.hub.views, w.sent, ReadersOf(w.hub.subs, view))
  }

  // What the client has and what waits for it.
  ghost predicate StreamOk<C>(w: World<C>, readers: map<C, Reader>) {
    if w.conn.Some? then
      && w.conn.value in readers
      && ClientOk(w.log, readers[w.conn.value], w.sent, w.start)
    else Orderly(w.log, w.sent, w.start)
  }

  ghost predicate WorldOk<C>(w: World<C>, p: Principal) {
    && Inv(w.hub)
    && Refines(w.hub, p.View(), LogOf(w, p.View()))
    && StreamOk(w, ReadersOf(w.hub.subs, p.View()))
  }

  lemma GrownOrderly(log: seq<Frame>, sent: seq<Event>, start: nat, e: Event)
    requires Orderly(log, sent, start)
    ensures Orderly(log, sent + [e], start)
  {
  }

  lemma OfferOk(log: seq<Frame>, r: Reader, sent: seq<Event>, start: nat, e: Event)
    requires ClientOk(log, r, sent, start)
    ensures ClientOk(log, r.Offer(Frame(e, |sent| + 1)), sent + [e], start)
  {
    var f := Frame(e, |sent| + 1);
    GrownOrderly(Waiting(log, r), sent, start, e);
    OrderlyBelow(Waiting(log, r), sent, start);
    OfferItems(log, r, f);
    if !r.box.closed && !r.box.Full() {
      AppendOrderly(Waiting(log, r), sent + [e], start, f);
    }
  }

  // Reading a frame moves it from the queue to the log.
  lemma ReadItems(log: seq<Frame>, r: Reader)
    ensures var (box, o) := r.box.Resume();
            && Waiting(if o.Got? then log + [o.item] else log, r.(box := box)) == Waiting(log, r)
            && box.closed == r.box.closed
  {
    var (box, o) := r.box.Resume();
    if o.Got? {
      assert Items(r.box.queue) == [o.item] + Items(box.queue);
      assert (log + [o.item]) + Items(box.queue) == log + ([o.item] + Items(box.queue));
    }
  }

  lemma ReadOk(log: seq<Frame>, r: Reader, sent: seq<Event>, start: nat)
    requires ClientOk(log, r, sent, start)
    ensures var (box, o) := r.box.Resume();
            ClientOk(if o.Got? then log + [o.item] else log, r.(box := box), sent, start)
  {
    ReadItems(log, r);
  }

  // The view's log after a step that is not the client's own.
  lemma OtherRefines<C>(w: World<C>, p: Principal, step: Step<C>)
    requires WorldOk(w, p) && p.Named() && CanMove(w, Other(step))
    ensures var w' := Moved(w, p, Other(step));
            && Inv(w'.hub) && Refines(w'.hub, p.View(), LogOf(w', p.View()))
            && LogOf(w', p.View()).readers ==
               ActAll(LogOf(w, p.View()), ActsOf(step, p.View(), LogOf(w, p.View()).readers.Keys)).readers
  {
    var view := p.View();
    var l := LogOf(w, view);
    var w' := Moved(w, p, Other(step));
    NextInv(w.hub, step);
    NextRefines(w.hub, view, l, step);
    var acts := ActsOf(step, view, l.readers.Keys);
    OneAct(l, acts);
    assert ActAll(l, acts) == LogOf(w', view);
  }

  lemma OneAct<C>(l: Log<C>, acts: seq<Act<C>>)
    requires |acts| <= 1
    ensures ActAll(l, acts) == if acts == [] then l else Acted(l, acts[0])
  {
    if acts != [] {
      assert acts[1..] == [];
    }
  }

  // What another's step does to one reader.
  function ReaderAfter<C>(r: Reader, h: Hub<C>, view: Option<string>, step: Step<C>, c: C, n: nat): Reader {
    if Numbered(h, view, step) then r.Offer(Frame(step.event, n + 1))
    else if step == Close(c) then r.(box := r.box.Close())
    else r
  }

  lemma ReadersAfter<C>(w: World<C>, p: Principal, step: Step<C>, l: Log<C>, c: C)
    requires CanMove(w, Other(step)) && w.conn == Some(c)
    requires l == LogOf(w, p.View()) && c in l.readers
    ensures var readers := ActAll(l, ActsOf(step, p.View(), l.readers.Keys)).readers;
            c in readers && readers[c] == ReaderAfter(l.readers[c], w.hub, p.View(), step, c, |w.sent|)
  {
    OneAct(l, ActsOf(step, p.View(), l.readers.Keys));
  }

  lemma ReaderAfterOk<C>(
    log: seq<Frame>, r: Reader, sent: seq<Event>, start: nat, h: Hub<C>, view: Option<string>, step: Step<C>, c: C)
    requires ClientOk(log, r, sent, start)
    ensures ClientOk(log, ReaderAfter(r, h, view, step, c, |sent|),
                     if Numbered(h, view, step) then sent + [step.event] else sent, start)
  {
    if Numbered(h, view, step) {
      OfferOk(log, r, sent, start, step.event);
    } else if step == Close(c) {
      PutItems(r.box, Frame(Resync(REPLAY_GAP), 0));
    }
  }

  // What the step does to the client's own stream.
  lemma OtherReader<C>(w: World<C>, p: Principal, step: Step<C>, l: Log<C>)
    requires p.Named() && Counting(w.hub) && CanMove(w, Other(step)) && w.conn.Some?
    requires l == LogOf(w, p.View()) && StreamOk(w, l.readers)
    ensures var w' := Moved(w, p, Other(step));
            StreamOk(w', ActAll(l, ActsOf(step, p.View(), l.readers.Keys)).readers)
  {
    var c := w.conn.value;
    ReadersAfter(w, p, step, l, c);
    ReaderAfterOk(w.log, l.readers[c], w.sent, w.start, w.hub, p.View(), step, c);
  }

  lemma OtherStream<C>(w: World<C>, p: Principal, step: Step<C>, l: Log<C>)
    requires p.Named() && Counting(w.hub) && CanMove(w, Other(step))
    requires l == LogOf(w, p.View()) && StreamOk(w, l.readers)
    ensures var w' := Moved(w, p, Other(step));
            StreamOk(w', ActAll(l, ActsOf(step, p.View(), l.readers.Keys)).readers)
  {
    if w.conn.Some? {
      OtherReader(w, p, step, l);
    } else if Numbered(w.hub, p.View(), step) {
      GrownOrderly(w.log, w.sent, w.start, step.event);
    }
  }

  lemma OtherKeeps<C>(w: World<C>, p: Principal, step: Step<C>)
    requires WorldOk(w, p) && p.Named() && CanMove(w, Other(step))
    ensures WorldOk(Moved(w, p, Other(step)), p)
  {
    OtherRefines(w, p, step);
    OtherStream(w, p, step, LogOf(w, p.View()));
  }

  // The client drops its connection, unread frames and all.
  lemma DisconnectOk<C>(w: World<C>, p: Principal)
    requires WorldOk(w, p)
    ensures var w' := w.(hub := Disconnected(w));
            Inv(w'.hub) && Refines(w'.hub, p.View(), LogOf(w', p.View()))
    ensures Orderly(w.log, w.sent, w.start)
  {
    if w.conn.Some? {
      NextInv(w.hub, Unsubscribe(w.conn.value));
      DetachRefines(w.hub, p.View(), LogOf(w, p.View()), w.conn.value);
      PrefixOrderly(w.log, Items(ReadersOf(w.hub.subs, p.View())[w.conn.value].box.queue), w.sent, w.start);
    }
  }

  lemma SubscribeSeen<C>(h: Hub<C>, l: Log<C>, c: C, p: Principal, last: Option<int>)
    requires Inv(h) && Refines(h, p.View(), l) && p.Named() && c !in h.subs
    ensures var h' := Subscribed(h, c, p, None, last);
            && Inv(h')
            && Refines(h', p.View(), Acted(l, Attach(c, None, last)))
            && ReadersOf(h'.subs, p.View()) == l.readers[c := OpenedReader(l, None, last)]
  {
    SubscribedInv(h, c, p, None, last);
    SubscribedRefines(h, p.View(), l, c, p, None, last);
  }

  // A (re)connection is answered from the view's log alone.
  lemma ConnectSeen<C>(w: World<C>, p: Principal, c: C)
    requires WorldOk(w, p) && p.Named() && CanMove(w, Connect(c))
    ensures var w' := Moved(w, p, Connect(c));
            && Inv(w'.hub)
            && Refines(w'.hub, p.View(), LogOf(w', p.View()))
            && c in LogOf(w', p.View()).readers
            && LogOf(w', p.View()).readers[c] == OpenedReader(LogOf(w, p.View()), None, LastId(w.log))
  {
    var l := LogOf(w.(hub := Disconnected(w)), p.View());
    DisconnectOk(w, p);
    SubscribeSeen(Disconnected(w), l, c, p, LastId(w.log));
    SameAnswer(LogOf(w, p.View()), l, LastId(w.log));
    LogIs(Moved(w, p, Connect(c)), p, Acted(l, Attach(c, None, LastId(w.log))));
  }

  lemma LogIs<C>(w: World<C>, p: Principal, l: Log<C>)
    requires Refines(w.hub, p.View(), l) && l.events == w.sent
    ensures LogOf(w, p.View()) == l
  {
  }

  lemma SameAnswer<C>(l: Log<C>, l': Log<C>, last: Option<int>)
    requires l'.events == l.events && l'.bufferSize == l.bufferSize && l'.queueSize == l.queueSize
    ensures OpenedReader(l', None, last) == OpenedReader(l, None, last)
  {
  }

  lemma ConnectKeeps<C>(w: World<C>, p: Principal, c: C)
    requires WorldOk(w, p) && p.Named() && CanMove(w, Connect(c))
    ensures WorldOk(Moved(w, p, Connect(c)), p)
  {
    DisconnectOk(w, p);
    ConnectSeen(w, p, c);
    ReconnectOk(w.log, LogOf(w, p.View()), if w.log == [] then |w.sent| else w.start);
  }

  lemma ReadRefines<C>(w: World<C>, p: Principal)
    requires WorldOk(w, p) && p.Named() && CanMove(w, Move<C>.Read)
    ensures var w' := Moved(w, p, Move<C>.Read);
            && Inv(w'.hub) && Refines(w'.hub, p.View(), LogOf(w', p.View()))
            && var l := LogOf(w, p.View());
            LogOf(w', p.View()).readers == Acted(l, Take(w.conn.value)).readers
  {
    var view, c := p.View(), w.conn.value;
    var l := LogOf(w, view);
    NextInv(w.hub, Consume(c));
    NextRefines(w.hub, view, l, Consume(c));
    assert c in l.readers;
    OneAct(l, ActsOf(Step<C>.Consume(c), view, l.readers.Keys));
  }

  // What a read does to the client's log, as its own reader tells it.
  lemma ReadLog<C>(w: World<C>, p: Principal, r: Reader)
    requires p.Named() && Counting(w.hub) && CanMove(w, Move<C>.Read)
    requires w.hub.subs[w.conn.value].principal.View() == p.View() && r == ReaderOf(w.hub.subs[w.conn.value])
    ensures var w' := Moved(w, p, Move<C>.Read);
            var o := r.box.Resume().1;
            && w'.log == (if o.Got? then w.log + [o.item] else w.log)
            && w'.sent == w.sent && w'.start == w.start && w'.conn == w.conn
  {
    ResumeSeen(w.hub.subs[w.conn.value].box, p.View());
  }

  lemma ReadStream<C>(w: World<C>, p: Principal, l: Log<C>)
    requires p.Named() && Counting(w.hub) && CanMove(w, Move<C>.Read)
    requires l.readers == ReadersOf(w.hub.subs, p.View()) && StreamOk(w, l.readers)
    ensures StreamOk(Moved(w, p, Move<C>.Read), Acted(l, Take(w.conn.value)).readers)
  {
    var r := l.readers[w.conn.value];
    ReadLog(w, p, r);
    ReadOk(w.log, r, w.sent, w.start);
  }

  lemma ReadKeeps<C>(w: World<C>, p: Principal)
    requires WorldOk(w, p) && p.Named() && CanMove(w, Move<C>.Read)
    ensures WorldOk(Moved(w, p, Move<C>.Read), p)
  {
    ReadRefines(w, p);
    ReadStream(w, p, LogOf(w, p.View()));
  }

  lemma {:induction false} LiveOk<C>(w: World<C>, p: Principal, ms: seq<Move<C>>)
    requires WorldOk(w, p) && p.Named() && Lives(w, p, ms)
    ensures WorldOk(Live(w, p, ms), p)
    decreases |ms|
  {
    if ms != [] {
      match ms[0] {
        case Other(step) => OtherKeeps(w, p, step);
        case Connect(c) => ConnectKeeps(w, p, c);
        case Read => ReadKeeps(w, p);
      }
      LiveOk(Moved(w, p, ms[0]), p, ms[1..]);
    }
  }

  lemma NewWorldOk<C>(bufferSize: nat, queueSize: int, p: Principal)
    ensures WorldOk(World(NewHub<C>(bufferSize, queueSize), [], None, [], 0), p)
  {
    NewHubRefines<C>(bufferSize, queueSize, p.View());
    assert LogOf(World(NewHub<C>(bufferSize, queueSize), [], None, [], 0), p.View()) ==
           NewLog(bufferSize, queueSize, p.View());
  }

  // The client has event k, or a gap told it that events up to k may be lost.
  ghost predicate Told(log: seq<Frame>, sent: seq<Event>, k: nat)
    requires 0 < k <= |sent|
  {
    Frame(sent[k - 1], k) in log || exists i :: 0 <= i < |log| && Gap(log[i]) && log[i].id >= k
  }

  lemma {:induction false} ToldUpToLast(log: seq<Frame>, sent: seq<Event>, start: nat, k: nat)
    requires Faithful(log, sent, start) && start < k <= |sent|
    requires log != [] && k <= log[|log| - 1].id
    ensures Told(log, sent, k)
    decreases |log|
  {
    var front, last := log[..|log| - 1], log[|log| - 1];
    if !Gap(last) && k < last.id {
      assert front != [];
      PrefixFaithful(log, sent, start);
      ToldUpToLast(front, sent, start, k);
      if exists i :: 0 <= i < |front| && Gap(front[i]) && front[i].id >= k {
        var i :| 0 <= i < |front| && Gap(front[i]) && front[i].id >= k;
        assert log[i] == front[i];
      }
    } else if !Gap(last) {
      assert last == Frame(sent[k - 1], k);
    }
  }

  lemma PrefixFaithful(log: seq<Frame>, sent: seq<Event>, start: nat)
    requires Faithful(log, sent, start) && log != []
    ensures Faithful(log[..|log| - 1], sent, start)
  {
    var front := log[..|log| - 1];
    assert forall i :: 0 <= i < |front| ==> front[i] == log[i];
  }

  // The client's stream is open and holds nothing unread.
  predicate Listening<C>(w: World<C>) {
    w.conn.Some? && w.conn.value in w.hub.subs
    && !w.hub.subs[w.conn.value].box.closed && w.hub.subs[w.conn.value].box.queue == []
  }

  lemma ListeningTold<C>(w: World<C>, p: Principal)
    requires StreamOk(w, ReadersOf(w.hub.subs, p.View())) && Listening(w)
    ensures forall k :: w.start < k <= |w.sent| ==> Told(w.log, w.sent, k)
  {
    var r := ReadersOf(w.hub.subs, p.View())[w.conn.value];
    assert r.box.queue == [];
    assert Waiting(w.log, r) == w.log;
    forall k | w.start < k <= |w.sent| ensures Told(w.log, w.sent, k) {
      ToldUpToLast(w.log, w.sent, w.start, k);
    }
  }

  lemma WorldAfter<C>(bufferSize: nat, queueSize: int, p: Principal, ms: seq<Move<C>>)
    requires p.Named() && Lives(World(NewHub<C>(bufferSize, queueSize), [], None, [], 0), p, ms)
    ensures WorldOk(Live(World(NewHub<C>(bufferSize, queueSize), [], None, [], 0), p, ms), p)
  {
    NewWorldOk<C>(bufferSize, queueSize, p);
    LiveOk(World(NewHub<C>(bufferSize, queueSize), [], None, [], 0), p, ms);
  }

  // Over one lifetime of the hub, whatever is published and however often the client's stream
  // overflows, is closed or is dropped, the frames it receives are the view's events; and once its
  // stream is open with nothing unread, there is no event since it started that it does not have
  // and that no gap told it of. Nor was there, up to the last frame, at any time before.
  lemma CompleteReplay<C>(bufferSize: nat, queueSize: int, p: Principal, ms: seq<Move<C>>)
    requires p.Named() && Lives(World(NewHub<C>(bufferSize, queueSize), [], None, [], 0), p, ms)
    ensures var w := Live(World(NewHub<C>(bufferSize, queueSize), [], None, [], 0), p, ms);
            && Faithful(w.log, w.sent, w.start)
            && (forall k :: w.start < k <= |w.sent| && w.log != [] && k <= w.log[|w.log| - 1].id ==>
                  Told(w.log, w.sent, k))
            && (Listening(w) ==> forall k :: w.start < k <= |w.sent| ==> Told(w.log, w.sent, k))
  {
    WorldAfter<C>(bufferSize, queueSize, p, ms);
    var w := Live(World(NewHub<C>(bufferSize, queueSize), [], None, [], 0), p, ms);
    assert Orderly(w.log, w.sent, w.start) by {
      DisconnectOk(w, p);
    }
    forall k | w.start < k <= |w.sent| && w.log != [] && k <= w.log[|w.log| - 1].id
      ensures Told(w.log, w.sent, k)
    {
      ToldUpToLast(w.log, w.sent, w.start, k);
    }
    if Listening(w) {
      ListeningTold(w, p);
    }
  }

  // ------------------------------------------------------------------ overflow and reconnection

  // The waiting frames are exactly events k, k + 1, ... in order: all of them while the
  // queue stays open, as many as it holds once it overflowed.
  ghost predicate Exact(r: Reader, sent: seq<Event>, k: nat) {
    var q := Items(r.box.queue);
    && 0 < k && k - 1 + |q| <= |sent|
    && (forall i :: 0 <= i < |q| ==> q[i] == Frame(sent[k - 1 + i], k + i))
    && (r.box.closed ==> r.box.maxsize > 0 && |q| == r.box.maxsize)
    && (!r.box.closed ==> |r.box.queue| == |q| && (r.box.maxsize > 0 ==> |q| <= r.box.maxsize))
  }

  lemma OfferExact(r: Reader, sent: seq<Event>, k: nat, n: nat)
    requires r.feed.None? && Exact(r, sent, k) && 0 < n <= |sent|
    requires !r.box.closed ==> n == k + |Items(r.box.queue)|
    ensures var r' := r.Offer(Frame(sent[n - 1], n));
            && r'.feed.None? && Exact(r', sent, k)
            && (!r'.box.closed ==> n + 1 == k + |Items(r'.box.queue)|)
  {
    var f := Frame(sent[n - 1], n);
    var r' := r.Offer(f);
    PutItems(r.box, f);
    if !r.box.closed && !r.box.Full() {
      assert Items(r'.box.queue) == Items(r.box.queue) + [f] && !r'.box.closed;
      ExactMore(Items(r.box.queue), sent, k);
    } else {
      assert Items(r'.box.queue) == Items(r.box.queue) && r'.box.closed;
    }
  }

  lemma ExactMore(q: seq<Frame>, sent: seq<Event>, k: nat)
    requires 0 < k && k + |q| <= |sent|
    requires forall i :: 0 <= i < |q| ==> q[i] == Frame(sent[k - 1 + i], k + i)
    ensures var q' := q + [Frame(sent[k - 1 + |q|], k + |q|)];
            forall i :: 0 <= i < |q'| ==> q'[i] == Frame(sent[k - 1 + i], k + i)
  {
  }

  lemma {:induction false} ReplayExact(r: Reader, sent: seq<Event>, k: nat, n: nat)
    requires r.feed.None? && Exact(r, sent, k) && n > 0
    requires !r.box.closed ==> n == k + |Items(r.box.queue)|
    ensures var r' := Replay(r, sent, n);
            Exact(r', sent, k) && (!r'.box.closed ==> |Items(r'.box.queue)| == |sent| + 1 - k)
    decreases |sent| + 1 - n
  {
    if n <= |sent| {
      OfferExact(r, sent, k, n);
      ReplayExact(r.Offer(Frame(sent[n - 1], n)), sent, k, n + 1);
    }
  }

  lemma ReconnectExact<C>(log: seq<Frame>, l: Log<C>, start: nat)
    requires Orderly(log, l.events, start) && log != [] && log[|log| - 1].id + l.bufferSize >= |l.events|
    ensures var r := OpenedReader(l, None, LastId(log));
            var last := log[|log| - 1].id;
            && Exact(r, l.events, last + 1)
            && (!r.box.closed ==> |Items(r.box.queue)| == |l.events| - last)
  {
    var last := log[|log| - 1].id;
    ReplayExact(Reader(None, NewMailbox(l.queueSize)), l.events, last + 1, last + 1);
  }

  // Reconnecting while the event after the last frame's id is still buffered (after an overflow,
  // say) is answered without a gap: the stream goes on with that event.
  lemma BufferedEventsAreReplayed<C>(
    bufferSize: nat, queueSize: int, p: Principal, ms: seq<Move<C>>, c: C)
    requires p.Named() && Lives(World(NewHub<C>(bufferSize, queueSize), [], None, [], 0), p, ms)
    requires var w := Live(World(NewHub<C>(bufferSize, queueSize), [], None, [], 0), p, ms);
             CanMove(w, Connect(c)) && w.log != [] && w.log[|w.log| - 1].id + bufferSize >= |w.sent|
    ensures var w := Live(World(NewHub<C>(bufferSize, queueSize), [], None, [], 0), p, ms);
            var w' := Moved(w, p, Connect(c));
            var last := w.log[|w.log| - 1].id;
            && c in ReadersOf(w'.hub.subs, p.View())
            && var r := ReadersOf(w'.hub.subs, p.View())[c];
            && Exact(r, w.sent, last + 1)
            && (!r.box.closed ==> |Items(r.box.queue)| == |w.sent| - last)
  {
    var w0 := World(NewHub<C>(bufferSize, queueSize), [], None, [], 0);
    NewWorldOk<C>(bufferSize, queueSize, p);
    LiveOk(w0, p, ms);
    LiveConfig(w0, p, ms);
    var w := Live(w0, p, ms);
    DisconnectOk(w, p);
    ConnectSeen(w, p, c);
    ReconnectExact(w.log, LogOf(w, p.View()), w.start);
  }

  lemma {:induction false} LiveConfig<C>(w: World<C>, p: Principal, ms: seq<Move<C>>)
    requires Counting(w.hub) && p.Named() && Lives(w, p, ms)
    ensures Live(w, p, ms).hub.bufferSize == w.hub.bufferSize
    decreases |ms|
  {
    if ms != [] {
      MovedCounts(w, p, ms[0]);
      LiveConfig(Moved(w, p, ms[0]), p, ms[1..]);
    }
  }

  // ------------------------------------------------------------------ what a reconnection misses

  // The id of the last event received, `start` when there is none.
  function Heard(log: seq<Frame>, start: nat): nat {
    if log == [] then start
    else if !Gap(log[|log| - 1]) then log[|log| - 1].id
    else Heard(log[..|log| - 1], start)
  }

  // Event k comes after the last one received and is still buffered.
  predicate Owed<C>(log: seq<Frame>, l: Log<C>, start: nat, k: nat) {
    Heard(log, start) < k && l.Oldest() <= k <= |l.events|
  }

  // The last frame is a gap that an owed event comes no later than.
  predicate GapBeforeOwed<C>(log: seq<Frame>, l: Log<C>, start: nat) {
    && log != [] && Gap(log[|log| - 1])
    && Heard(log, start) < log[|log| - 1].id && l.Oldest() <= log[|log| - 1].id
  }

  // What an open stream holds after replay: what it held, and every event from k on.
  lemma {:induction false} ReplayHolds(r: Reader, sent: seq<Event>, k: nat)
    requires r.feed.None? && 0 < k <= |sent| + 1 && !Replay(r, sent, k).box.closed
    ensures !r.box.closed
    ensures forall f :: f in Items(Replay(r, sent, k).box.queue) <==>
              f in Items(r.box.queue) || (k <= f.id <= |sent| && f == Frame(sent[f.id - 1], f.id))
    decreases |sent| + 1 - k
  {
    if k <= |sent| {
      var f := Frame(sent[k - 1], k);
      PutItems(r.box, f);
      ReplayHolds(r.Offer(f), sent, k + 1);
    }
  }

  // A reconnection whose stream stays open brings every owed event, exactly when the last frame
  // received is no gap that an owed event comes before.
  lemma ReconnectOwesIff<C>(log: seq<Frame>, l: Log<C>, start: nat)
    requires Orderly(log, l.events, start) && log != []
    requires !OpenedReader(l, None, LastId(log)).box.closed
    ensures var q := Items(OpenedReader(l, None, LastId(log)).box.queue);
            (forall k :: Owed(log, l, start, k) ==> Frame(l.events[k - 1], k) in q) <==> !GapBeforeOwed(log, l, start)
  {
    var last := log[|log| - 1].id;
    var n := |l.events|;
    var r := Reader(None, NewMailbox<Frame>(l.queueSize));
    if IsGap(last, l.Oldest(), n + 1) {
      var gap := Frame(Resync(REPLAY_GAP), n);
      PutItems(r.box, gap);
      ReplayHolds(r.Offer(gap), l.events, l.Oldest());
    } else {
      ReplayHolds(r, l.events, last + 1);
      if GapBeforeOwed(log, l, start) {
        assert Owed(log, l, start, last);
      }
    }
  }

  // So too in the life of any client.
  lemma ReconnectionOwesIff<C>(bufferSize: nat, queueSize: int, p: Principal, ms: seq<Move<C>>, c: C)
    requires p.Named() && Lives(World(NewHub<C>(bufferSize, queueSize), [], None, [], 0), p, ms)
    requires var w := Live(World(NewHub<C>(bufferSize, queueSize), [], None, [], 0), p, ms);
             && CanMove(w, Connect(c)) && w.log != []
             && var w' := Moved(w, p, Connect(c)); c in w'.hub.subs && !w'.hub.subs[c].box.closed
    ensures var w := Live(World(NewHub<C>(bufferSize, queueSize), [], None, [], 0), p, ms);
            var q := ReadersOf(Moved(w, p, Connect(c)).hub.subs, p.View());
            var l := LogOf(w, p.View());
            && c in q
            && ((forall k :: Owed(w.log, l, w.start, k) ==> Frame(w.sent[k - 1], k) in Items(q[c].box.queue)) <==>
                !GapBeforeOwed(w.log, l, w.start))
  {
    var w0 := World(NewHub<C>(bufferSize, queueSize), [], None, [], 0);
    NewWorldOk<C>(bufferSize, queueSize, p);
    LiveOk(w0, p, ms);
    var w := Live(w0, p, ms);
    DisconnectOk(w, p);
    ConnectSeen(w, p, c);
    ReconnectOwesIff(w.log, LogOf(w, p.View()), w.start);
  }

  // ------------------------------------------------------------------ when the ids break off

  // Replay leaves what the queue holds and goes on with event k, if there is one and room for it.
  lemma {:induction false} ReplayGoesOn(r: Reader, sent: seq<Event>, k: nat)
    requires r.feed.None? && 0 < k
    ensures var held, q := Items(r.box.queue), Items(Replay(r, sent, k).box.queue);
            && |held| <= |q| && q[..|held|] == held
            && (|held| < |q| ==> k <= |sent| && q[|held|] == Frame(sent[k - 1], k))
            && (k <= |sent| && !r.box.closed && !r.box.Full() ==> |held| < |q|)
    decreases |sent| + 1 - k
  {
    if k <= |sent| {
      var f := Frame(sent[k - 1], k);
      var r' := r.Offer(f);
      PutItems(r.box, f);
      ReplayGoesOn(r', sent, k + 1);
      if r.box.closed || r.box.Full() {
        ClosedStays(r', sent, k + 1);
      }
    }
  }

  lemma {:induction false} ClosedStays(r: Reader, sent: seq<Event>, k: nat)
    requires r.feed.None? && 0 < k && r.box.closed
    ensures Replay(r, sent, k) == r
    decreases |sent| + 1 - k
  {
    if k <= |sent| {
      ClosedStays(r.Offer(Frame(sent[k - 1], k)), sent, k + 1);
    }
  }

  // The frames a reconnection after id `last` opens with. They go on from that id exactly when what
  // follows it is still buffered, or is one event at most; else they are the gap, which carries
  // the last id, and then the buffer, from an id no later than that.
  ghost predicate OpensWith(q: seq<Frame>, last: nat, n: nat, bufferSize: nat) {
    && ((q != [] ==> q[0].id == last + 1) <==> last + Max(1, bufferSize) >= n)
    && (last + bufferSize < n ==>
          && q != [] && q[0] == Frame(Resync(REPLAY_GAP), n)
          && (|q| > 1 ==> q[1].id == n - bufferSize + 1 <= n))
  }

  lemma GapBreaksIdsIff<C>(log: seq<Frame>, l: Log<C>, start: nat)
    requires Orderly(log, l.events, start) && log != []
    ensures OpensWith(Items(OpenedReader(l, None, LastId(log)).box.queue), log[|log| - 1].id, |l.events|, l.bufferSize)
  {
    var last, n := log[|log| - 1].id, |l.events|;
    var r := Reader(None, NewMailbox<Frame>(l.queueSize));
    if IsGap(last, l.Oldest(), n + 1) {
      var gap := Frame(Resync(REPLAY_GAP), n);
      PutItems(r.box, gap);
      ReplayGoesOn(r.Offer(gap), l.events, l.Oldest());
    } else {
      ReplayGoesOn(r, l.events, last + 1);
    }
  }

  // So too in the life of any client.
  lemma ReconnectionBreaksIdsIff<C>(bufferSize: nat, queueSize: int, p: Principal, ms: seq<Move<C>>, c: C)
    requires p.Named() && Lives(World(NewHub<C>(bufferSize, queueSize), [], None, [], 0), p, ms)
    requires var w := Live(World(NewHub<C>(bufferSize, queueSize), [], None, [], 0), p, ms);
             CanMove(w, Connect(c)) && w.log != []
    ensures var w := Live(World(NewHub<C>(bufferSize, queueSize), [], None, [], 0), p, ms);
            var readers := ReadersOf(Moved(w, p, Connect(c)).hub.subs, p.View());
            && c in readers
            && OpensWith(Items(readers[c].box.queue), w.log[|w.log| - 1].id, |w.sent|, bufferSize)
  {
    WorldAfter<C>(bufferSize, queueSize, p, ms);
    LiveConfig(World(NewHub<C>(bufferSize, queueSize), [], None, [], 0), p, ms);
    var w := Live(World(NewHub<C>(bufferSize, queueSize), [], None, [], 0), p, ms);
    DisconnectOk(w, p);
    ConnectSeen(w, p, c);
    GapBreaksIdsIff(w.log, LogOf(w, p.View()), w.start);
  }

  // ------------------------------------------------------------------ a gap that loses events

  function Publishes<C>(events: seq<Event>): seq<Step<C>> {
    seq(|events|, i requires 0 <= i < |events| => Publish(events[i], None))
  }

  // A hub after five events, and the replay to a client of every Owner that has only the first.
  lemma AfterFive<C>(queueSize: int, events: seq<Event>, p: Principal) returns (h: Hub<C>, l: Log<C>)
    requires |events| == 5 && p.SeesEveryOwner()
    requires forall i :: 0 <= i < 5 ==> events[i].Data?
    ensures Runs(NewHub<C>(2, queueSize), Publishes(events)) && h == Run(NewHub<C>(2, queueSize), Publishes(events))
    ensures Inv(h) && Refines(h, None, l) && l == Log(2, queueSize, true, events, map[])
    ensures forall last :: ReaderOf(Opened(h, p, None, last)) == OpenedReader(l, None, last)
  {
    var t := Publishes<C>(events);
    var h0 := NewHub<C>(2, queueSize);
    var l0 := NewLog<C>(2, queueSize, None);
    NewHubRefines<C>(2, queueSize, None);
    PublishesRun(h0, events);
    Simulation(h0, None, l0, t);
    h := Run(h0, t);
    l := Log(2, queueSize, true, events, map[]);
    assert l0.readers.Keys == {};
    PublishesAppend<C>(l0, events, {});
    assert [] + events == events;
    assert ActAll(l0, Restrict(t, None, {})) == l;
    forall last ensures ReaderOf(Opened(h, p, None, last)) == OpenedReader(l, None, last) {
      OpenedSeen(h, l, p, None, last);
    }
  }

  lemma {:induction false} PublishesRun<C>(h: Hub<C>, events: seq<Event>)
    requires Counting(h)
    ensures Runs(h, Publishes(events))
    decreases |events|
  {
    if events != [] {
      CountingKept(h, Publishes<C>(events)[0]);
      PublishesRun(Published(h, events[0], None), events[1..]);
      assert Publishes<C>(events)[1..] == Publishes(events[1..]);
    }
  }

  lemma {:induction false} PublishesAppend<C>(l: Log<C>, events: seq<Event>, own: set<C>)
    requires l.live && l.readers == map[]
    ensures ActAll(l, Restrict(Publishes(events), None, own)) == l.(events := l.events + events)
    decreases |events|
  {
    var t := Publishes<C>(events);
    if events == [] {
      assert l.events + events == l.events;
    } else {
      assert t[1..] == Publishes(events[1..]);
      var l' := Appended(l, events[0]);
      assert l'.readers == map[];
      PublishesAppend(l', events[1..], own);
      var rest := Restrict(t[1..], None, own);
      assert Restrict(t, None, own) == [Append(events[0])] + rest;
      assert ([Append(events[0])] + rest)[1..] == rest;
      assert l.events + [events[0]] + events[1..] == l.events + events;
    }
  }

  // Ids break off just before a gap as well as just after: a client of an unbounded queue that has
  // event 1 gets the gap, numbered 5, and then events 4 and 5.
  lemma GapBreaksIds<C>(events: seq<Event>, p: Principal) returns (h: Hub<C>)
    requires |events| == 5 && p.SeesEveryOwner()
    requires forall i :: 0 <= i < 5 ==> events[i].Data?
    ensures Runs(NewHub<C>(2, 0), Publishes(events)) && h == Run(NewHub<C>(2, 0), Publishes(events)) && Inv(h)
    ensures Items(ReaderOf(Opened(h, p, None, Some(1))).box.queue)
         == [Frame(Resync(REPLAY_GAP), 5), Frame(events[3], 4), Frame(events[4], 5)]
  {
    var l: Log<C>;
    h, l := AfterFive(0, events, p);
    var gap := Frame(Resync(REPLAY_GAP), 5);
    var r := Reader(None, NewMailbox<Frame>(0));
    var r1, r2 := r.Offer(gap), r.Offer(gap).Offer(Frame(events[3], 4));
    assert OpenedReader(l, None, Some(1)) == Replay(r1, events, 4);
    assert Replay(r1, events, 4) == Replay(r2, events, 5);
    assert Replay(r2, events, 5) == r2.Offer(Frame(events[4], 5));
    PutItems(r.box, gap);
    PutItems(r1.box, Frame(events[3], 4));
    PutItems(r2.box, Frame(events[4], 5));
  }

  // An overflow can lose events still buffered: with a queue of one the gap fills it, event 4
  // overflows it, and a client that then names the gap's id gets an empty open stream, with
  // events 4 and 5 in the buffer.
  lemma OverflowAfterGapLoses<C>(events: seq<Event>, p: Principal) returns (h: Hub<C>)
    requires |events| == 5 && p.SeesEveryOwner()
    requires forall i :: 0 <= i < 5 ==> events[i].Data?
    ensures Runs(NewHub<C>(2, 1), Publishes(events)) && h == Run(NewHub<C>(2, 1), Publishes(events)) && Inv(h)
    ensures var first := ReaderOf(Opened(h, p, None, Some(1))).box;
            first.closed && Items(first.queue) == [Frame(Resync(REPLAY_GAP), 5)]
    ensures var second := ReaderOf(Opened(h, p, None, Some(5))).box;
            !second.closed && second.queue == []
    ensures |h.buffer| == 2 && forall i :: 0 <= i < 2 ==> FrameOf(h.buffer[i], None) == Frame(events[3 + i], 4 + i)
  {
    var l: Log<C>;
    h, l := AfterFive(1, events, p);
    var gap := Frame(Resync(REPLAY_GAP), 5);
    var r := Reader(None, NewMailbox<Frame>(1));
    var r1, r2 := r.Offer(gap), r.Offer(gap).Offer(Frame(events[3], 4));
    assert OpenedReader(l, None, Some(1)) == Replay(r1, events, 4);
    assert Replay(r1, events, 4) == Replay(r2, events, 5);
    assert Replay(r2, events, 5) == r2.Offer(Frame(events[4], 5));
    PutItems(r.box, gap);
    PutItems(r1.box, Frame(events[3], 4));
    PutItems(r2.box, Frame(events[4], 5));
  }
}
