/** The hub refines the reference log, view by view, over every history. */
module EventRefinement {
  import opened Basics
  import opened EventModel
  import opened EventReference

  // An envelope its view numbers and every Principal of the view may see.
  ghost predicate Belongs(e: Envelope, view: Option<string>) {
    e.IdIn(view).Some? && Concerns(view, e.event, e.owner)
  }

  ghost predicate SubOk<C>(h: Hub<C>, s: Sub) {
    && s.principal.Named()
    && (s.principal.View().Some? ==> s.principal.View().value in h.views)
    && s.box.maxsize == h.queueSize
    && forall i :: 0 <= i < |s.box.queue| && s.box.queue[i].Some? ==>
         s.box.queue[i].value.IdIn(s.principal.View()).Some?
  }

  ghost predicate Inv<C>(h: Hub<C>) {
    && Counting(h)
    && (forall n :: n in h.views ==> BufferOk(h.views[n].buffer, Some(n)))
    && (forall c :: c in h.subs ==> SubOk(h, h.subs[c]))
  }

  ghost predicate BufferOk(buffer: seq<Envelope>, view: Option<string>) {
    forall i :: 0 <= i < |buffer| ==> Belongs(buffer[i], view)
  }

  // The replay buffer is the tail of the log, numbered by position.
  ghost predicate TailOf(buffer: seq<Envelope>, view: Option<string>, events: seq<Event>, size: nat) {
    && |buffer| == (if |events| < size then |events| else size)
    && forall i :: 0 <= i < |buffer| ==>
         && Belongs(buffer[i], view)
         && FrameOf(buffer[i], view) == Frame(events[|events| - |buffer| + i], |events| - |buffer| + i + 1)
  }

  ghost predicate Refines<C>(h: Hub<C>, view: Option<string>, l: Log<C>) {
    && l.bufferSize == h.bufferSize && l.queueSize == h.queueSize
    && (l.live <==> view.None? || view.value in h.views)
    && (!l.live ==> l.events == [])
    && NextIdOf(h, view) == |l.events| + 1
    && TailOf(BufferOf(h, view), view, l.events, h.bufferSize)
    && l.readers == ReadersOf(h.subs, view)
  }

  // ------------------------------------------------------------------ queues

  lemma NamedSees(p: Principal, e: Envelope)
    requires p.Named()
    ensures e.VisibleTo(p) <==> Concerns(p.View(), e.event, e.owner)
  {
  }

  lemma PutSeen(b: Mailbox<Envelope>, e: Envelope, view: Option<string>)
    ensures BoxOf(b.Put(e), view) == BoxOf(b, view).Put(FrameOf(e, view))
  {
    CloseSeen(b, view);
    CloseSeen(b.(dropped := b.dropped + 1), view);
  }

  lemma CloseSeen(b: Mailbox<Envelope>, view: Option<string>)
    ensures BoxOf(b.Close(), view) == BoxOf(b, view).Close()
  {
  }

  lemma ResumeSeen(b: Mailbox<Envelope>, view: Option<string>)
    ensures BoxOf(b.Resume().0, view) == BoxOf(b, view).Resume().0
    ensures OutcomeIn(b.Resume().1, view) == BoxOf(b, view).Resume().1
  {
  }

  lemma OfferSeen(s: Sub, e: Envelope)
    requires s.principal.Named()
    ensures ReaderOf(s.Offer(e)) ==
            if Concerns(s.principal.View(), e.event, e.owner)
            then ReaderOf(s).Offer(FrameOf(e, s.principal.View())) else ReaderOf(s)
  {
    NamedSees(s.principal, e);
    PutSeen(s.box, e, s.principal.View());
  }

  // ------------------------------------------------------------------ publish

  lemma PushTail(buffer: seq<Envelope>, view: Option<string>, events: seq<Event>, size: nat, e: Envelope)
    requires TailOf(buffer, view, events, size)
    requires Belongs(e, view) && e.IdIn(view) == Some(|events| + 1)
    ensures TailOf(Push(buffer, size, e), view, events + [e.event], size)
  {
    var longer := buffer + [e];
    var events' := events + [e.event];
    assert forall i :: 0 <= i < |longer| ==>
      && Belongs(longer[i], view)
      && FrameOf(longer[i], view) == Frame(events'[|events'| - |longer| + i], |events'| - |longer| + i + 1);
  }

  lemma StampIds<C>(h: Hub<C>, event: Event, owner: Option<string>, view: Option<string>)
    requires Counting(h)
    ensures var e := Stamp(h, event, owner);
            var numbered := Concerns(view, event, owner) && !(event.Resync? && view.Some? && view.value !in h.views);
            e.IdIn(view) == if numbered then Some(NextIdOf(h, view)) else None
  {
  }

  lemma PublishedBuffer<C>(h: Hub<C>, event: Event, owner: Option<string>, n: string)
    requires Inv(h) && n in Published(h, event, owner).views
    ensures BufferOk(Published(h, event, owner).views[n].buffer, Some(n))
  {
    StampIds(h, event, owner, Some(n));
  }

  lemma PublishedSub<C>(h: Hub<C>, event: Event, owner: Option<string>, c: C)
    requires Counting(h) && c in h.subs && SubOk(h, h.subs[c])
    ensures SubOk(Published(h, event, owner), Published(h, event, owner).subs[c])
  {
    NamedSees(h.subs[c].principal, Stamp(h, event, owner));
    StampIds(h, event, owner, h.subs[c].principal.View());
  }

  lemma PublishedInv<C>(h: Hub<C>, event: Event, owner: Option<string>)
    requires Inv(h)
    ensures Inv(Published(h, event, owner))
  {
    var h' := Published(h, event, owner);
    forall n | n in h'.views ensures BufferOk(h'.views[n].buffer, Some(n)) {
      PublishedBuffer(h, event, owner, n);
    }
    forall c | c in h'.subs ensures SubOk(h', h'.subs[c]) {
      PublishedSub(h, event, owner, c);
    }
    CountingKept(h, Publish(event, owner));
  }

  lemma PublishedNumbers<C>(h: Hub<C>, view: Option<string>, event: Event, owner: Option<string>)
    requires Counting(h)
    ensures var e := Stamp(h, event, owner);
            var h' := Published(h, event, owner);
            if e.IdIn(view).Some? then
              && NextIdOf(h', view) == NextIdOf(h, view) + 1
              && BufferOf(h', view) == Push(BufferOf(h, view), h.bufferSize, e)
              && (view.Some? ==> view.value in h'.views)
            else
              && NextIdOf(h', view) == NextIdOf(h, view)
              && BufferOf(h', view) == BufferOf(h, view)
              && (view.Some? ==> (view.value in h'.views <==> view.value in h.views))
  {
  }

  lemma OfferedReaders<C>(subs: map<C, Sub>, view: Option<string>, e: Envelope)
    requires forall c :: c in subs ==> subs[c].principal.Named()
    ensures var readers := ReadersOf(subs, view);
            ReadersOf(OfferAll(subs, e), view) ==
            if Concerns(view, e.event, e.owner) then map c | c in readers :: readers[c].Offer(FrameOf(e, view))
            else readers
  {
    var readers := ReadersOf(subs, view);
    var offered := ReadersOf(OfferAll(subs, e), view);
    assert offered.Keys == readers.Keys;
    forall c | c in readers
      ensures offered[c] == if Concerns(view, e.event, e.owner) then readers[c].Offer(FrameOf(e, view)) else readers[c]
    {
      OfferSeen(subs[c], e);
    }
  }

  lemma UnbornHasNoReaders<C>(h: Hub<C>, view: Option<string>)
    requires Inv(h) && view.Some? && view.value !in h.views
    ensures ReadersOf(h.subs, view) == map[]
  {
    forall c | c in h.subs ensures h.subs[c].principal.View() != view {
      assert SubOk(h, h.subs[c]);
    }
  }

  lemma PublishedRefines<C>(h: Hub<C>, view: Option<string>, l: Log<C>, event: Event, owner: Option<string>)
    requires Inv(h) && Refines(h, view, l)
    ensures Refines(Published(h, event, owner), view,
                    if Concerns(view, event, owner) then Appended(l, event) else l)
  {
    var e := Stamp(h, event, owner);
    StampIds(h, event, owner, view);
    PublishedNumbers(h, view, event, owner);
    forall c | c in h.subs ensures h.subs[c].principal.Named() { assert SubOk(h, h.subs[c]); }
    OfferedReaders(h.subs, view, e);
    if e.IdIn(view).Some? {
      PushTail(BufferOf(h, view), view, l.events, h.bufferSize, e);
    } else if Concerns(view, event, owner) {
      UnbornHasNoReaders(h, view);
    }
  }

  // ------------------------------------------------------------------ subscribe

  lemma {:induction false} ReplayedSeen(
    s: Sub, buffer: seq<Envelope>, last: int, events: seq<Event>, base: nat)
    requires s.principal.Named() && base > 0 && base + |buffer| == |events| + 1
    requires forall i :: 0 <= i < |buffer| ==>
               && Belongs(buffer[i], s.principal.View())
               && FrameOf(buffer[i], s.principal.View()) == Frame(events[base + i - 1], base + i)
    ensures ReaderOf(Replayed(s, buffer, s.principal.View(), last)) ==
            Replay(ReaderOf(s), events, Max(base, last + 1))
    decreases |buffer|
  {
    if buffer != [] {
      OfferSeen(s, buffer[0]);
      ReplayedSeen(if base > last then s.Offer(buffer[0]) else s, buffer[1..], last, events, base + 1);
    }
  }

  lemma WithViewKept<C>(h: Hub<C>, view: Option<string>, own: Option<string>)
    requires Inv(h)
    ensures var h' := WithView(h, own);
            && Inv(h')
            && NextIdOf(h', view) == NextIdOf(h, view) && BufferOf(h', view) == BufferOf(h, view)
            && (view.Some? ==> (view.value in h'.views <==> view.value in h.views || view == own))
  {
    var h' := WithView(h, own);
    forall c | c in h'.subs ensures SubOk(h', h'.subs[c]) {
      assert SubOk(h, h.subs[c]);
    }
  }

  lemma OpenedSeen<C>(h: Hub<C>, l: Log<C>, p: Principal, feed: Option<string>, last: Option<int>)
    requires Inv(h) && p.Named() && Refines(h, p.View(), l)
    ensures ReaderOf(Opened(h, p, feed, last)) == OpenedReader(l, feed, last)
  {
    if last.Some? {
      var view := p.View();
      var s := Sub(p, feed, NewMailbox(h.queueSize));
      var nextId := NextIdOf(h, view);
      var buffer := BufferOf(h, view);
      assert OldestIn(buffer, view, nextId) == l.Oldest();
      var gap := GapEnvelope(h.nextId, view, nextId);
      OfferSeen(s, gap);
      var s' := if IsGap(last.value, l.Oldest(), nextId) then s.Offer(gap) else s;
      ReplayedSeen(s', buffer, last.value, l.events, l.Oldest());
    }
  }

  lemma {:induction false} ReplayedOk(s: Sub, buffer: seq<Envelope>, last: int)
    requires BufferOk(buffer, s.principal.View())
    requires forall i :: 0 <= i < |s.box.queue| && s.box.queue[i].Some? ==>
               s.box.queue[i].value.IdIn(s.principal.View()).Some?
    ensures var s' := Replayed(s, buffer, s.principal.View(), last);
            && s'.principal == s.principal && s'.feed == s.feed && s'.box.maxsize == s.box.maxsize
            && forall i :: 0 <= i < |s'.box.queue| && s'.box.queue[i].Some? ==>
                 s'.box.queue[i].value.IdIn(s.principal.View()).Some?
    decreases |buffer|
  {
    if buffer != [] {
      assert Belongs(buffer[0], s.principal.View());
      ReplayedOk(if IdOr0(buffer[0], s.principal.View()) > last then s.Offer(buffer[0]) else s, buffer[1..], last);
    }
  }

  lemma OpenedOk<C>(h: Hub<C>, p: Principal, feed: Option<string>, last: Option<int>)
    requires Inv(h) && p.Named() && (p.View().Some? ==> p.View().value in h.views)
    ensures SubOk(h, Opened(h, p, feed, last))
  {
    if last.Some? {
      var view := p.View();
      var s := Sub(p, feed, NewMailbox(h.queueSize));
      var nextId := NextIdOf(h, view);
      var buffer := BufferOf(h, view);
      var s' := if IsGap(last.value, OldestIn(buffer, view, nextId), nextId)
                then s.Offer(GapEnvelope(h.nextId, view, nextId)) else s;
      if view.None? {
        assert forall e: Envelope :: e.IdIn(view).Some?;
      }
      ReplayedOk(s', buffer, last.value);
    }
  }

  lemma SubscribedInv<C>(h: Hub<C>, c: C, p: Principal, feed: Option<string>, last: Option<int>)
    requires Inv(h) && p.Named()
    ensures Inv(Subscribed(h, c, p, feed, last))
  {
    var h' := WithView(h, p.View());
    var h'' := Subscribed(h, c, p, feed, last);
    WithViewKept(h, p.View(), p.View());
    OpenedOk(h', p, feed, last);
    forall k | k in h''.subs ensures SubOk(h'', h''.subs[k]) {
      assert SubOk(h', h''.subs[k]);
    }
  }

  lemma SubscribedRefines<C>(
    h: Hub<C>, view: Option<string>, l: Log<C>, c: C, p: Principal, feed: Option<string>, last: Option<int>)
    requires Inv(h) && p.Named() && c !in h.subs && Refines(h, view, l)
    ensures Refines(Subscribed(h, c, p, feed, last), view,
                    if p.View() == view then Acted(l, Attach(c, feed, last)) else l)
  {
    WithViewKept(h, view, p.View());
    var h' := WithView(h, p.View());
    if p.View() == view {
      OpenedSeen(h', l.(live := true), p, feed, last);
      assert OpenedReader(l.(live := true), feed, last) == OpenedReader(l, feed, last);
    }
    var s := Opened(h', p, feed, last);
    OpenedPrincipal(h', p, feed, last);
    AddedReader(h.subs, view, c, s);
  }

  lemma AddedReader<C>(subs: map<C, Sub>, view: Option<string>, c: C, s: Sub)
    requires c in subs ==> subs[c].principal.View() == s.principal.View()
    ensures ReadersOf(subs[c := s], view) ==
            if s.principal.View() == view then ReadersOf(subs, view)[c := ReaderOf(s)] else ReadersOf(subs, view)
  {
  }

  lemma OpenedPrincipal<C>(h: Hub<C>, p: Principal, feed: Option<string>, last: Option<int>)
    requires Counting(h)
    ensures Opened(h, p, feed, last).principal == p
  {
    if last.Some? {
      var view := p.View();
      var s := Sub(p, feed, NewMailbox(h.queueSize));
      var s' := if IsGap(last.value, OldestIn(BufferOf(h, view), view, NextIdOf(h, view)), NextIdOf(h, view))
                then s.Offer(GapEnvelope(h.nextId, view, NextIdOf(h, view))) else s;
      ReplayedPrincipal(s', BufferOf(h, view), view, last.value);
    }
  }

  lemma ReplayedPrincipal(s: Sub, buffer: seq<Envelope>, view: Option<string>, last: int)
    ensures Replayed(s, buffer, view, last).principal == s.principal
    decreases |buffer|
  {
  }

  // ------------------------------------------------------------------ a connection's own steps

  lemma BoxStepInv<C>(h: Hub<C>, c: C, box: Mailbox<Envelope>)
    requires Inv(h) && c in h.subs
    requires box.maxsize == h.queueSize
    requires forall i :: 0 <= i < |box.queue| && box.queue[i].Some? ==> Some(box.queue[i].value) in h.subs[c].box.queue
    ensures Inv(h.(subs := h.subs[c := h.subs[c].(box := box)]))
  {
    var h' := h.(subs := h.subs[c := h.subs[c].(box := box)]);
    forall k | k in h'.subs ensures SubOk(h', h'.subs[k]) {
      assert SubOk(h, h.subs[k]);
    }
  }

  lemma BoxStepRefines<C>(h: Hub<C>, view: Option<string>, l: Log<C>, c: C, box: Mailbox<Envelope>)
    requires Refines(h, view, l) && c in h.subs
    ensures Refines(h.(subs := h.subs[c := h.subs[c].(box := box)]), view,
                    if h.subs[c].principal.View() == view
                    then l.(readers := l.readers[c := l.readers[c].(box := BoxOf(box, view))]) else l)
  {
    AddedReader(h.subs, view, c, h.subs[c].(box := box));
  }

  lemma DetachRefines<C>(h: Hub<C>, view: Option<string>, l: Log<C>, c: C)
    requires Refines(h, view, l)
    ensures Refines(h.(subs := h.subs - {c}), view, l.(readers := l.readers - {c}))
  {
    assert ReadersOf(h.subs - {c}, view) == ReadersOf(h.subs, view) - {c};
  }

  // ------------------------------------------------------------------ one step, then a history

  lemma NextInv<C>(h: Hub<C>, step: Step<C>)
    requires Inv(h) && Enabled(h, step)
    ensures Inv(Next(h, step))
  {
    match step
    case Publish(e, o) => PublishedInv(h, e, o);
    case Subscribe(c, p, f, l) => SubscribedInv(h, c, p, f, l);
    case Close(c) =>
      assert SubOk(h, h.subs[c]);
      BoxStepInv(h, c, h.subs[c].box.Close());
    case Consume(c) =>
      assert SubOk(h, h.subs[c]);
      BoxStepInv(h, c, h.subs[c].box.Resume().0);
    case Unsubscribe(c) =>
      var h' := Next(h, step);
      forall k | k in h'.subs ensures SubOk(h', h'.subs[k]) {
        assert SubOk(h, h.subs[k]);
      }
  }

  lemma NextRefines<C>(h: Hub<C>, view: Option<string>, l: Log<C>, step: Step<C>)
    requires Inv(h) && Enabled(h, step) && Refines(h, view, l)
    ensures Refines(Next(h, step), view, ActAll(l, ActsOf(step, view, l.readers.Keys)))
  {
    var acts := ActsOf(step, view, l.readers.Keys);
    if acts != [] {
      assert acts[1..] == [];
      assert ActAll(l, acts) == Acted(l, acts[0]);
    }
    match step
    case Publish(e, o) => PublishedRefines(h, view, l, e, o);
    case Subscribe(c, p, f, last) => SubscribedRefines(h, view, l, c, p, f, last);
    case Close(c) =>
      CloseSeen(h.subs[c].box, view);
      BoxStepRefines(h, view, l, c, h.subs[c].box.Close());
    case Consume(c) =>
      ResumeSeen(h.subs[c].box, view);
      BoxStepRefines(h, view, l, c, h.subs[c].box.Resume().0);
    case Unsubscribe(c) =>
      DetachRefines(h, view, l, c);
      if c !in l.readers {
        assert l.readers - {c} == l.readers;
      }
  }

  lemma {:induction false} ActAllConcat<C>(l: Log<C>, a: seq<Act<C>>, b: seq<Act<C>>)
    ensures ActAll(l, a + b) == ActAll(ActAll(l, a), b)
    ensures SeenAll(l, a + b) == SeenAll(l, a) + SeenAll(ActAll(l, a), b)
    decreases |a|
  {
    if a == [] {
      assert a + b == b;
    } else {
      assert (a + b)[1..] == a[1..] + b;
      ActAllConcat(Acted(l, a[0]), a[1..], b);
      Regroup(Seen(l, a[0]), SeenAll(Acted(l, a[0]), a[1..]), SeenAll(ActAll(l, a), b));
    }
  }

  // The simulation, over any history from any state: the view's log and readers are what the
  // acts concerning it make them, and its connections receive exactly what the log gives.
  lemma {:induction false} Simulation<C>(h: Hub<C>, view: Option<string>, l: Log<C>, t: seq<Step<C>>)
    requires Inv(h) && Refines(h, view, l) && Runs(h, t)
    ensures var acts := Restrict(t, view, l.readers.Keys);
            && Inv(Run(h, t))
            && Refines(Run(h, t), view, ActAll(l, acts))
            && Received(h, t, view) == SeenAll(l, acts)
    decreases |t|
  {
    if t != [] {
      var own := l.readers.Keys;
      var acts := ActsOf(t[0], view, own);
      var l' := ActAll(l, acts);
      NextInv(h, t[0]);
      NextRefines(h, view, l, t[0]);
      OwnKept(l, t[0], view);
      Simulation(Next(h, t[0]), view, l', t[1..]);
      ActAllConcat(l, acts, Restrict(t[1..], view, OwnAfter(t[0], view, own)));
      StepSeen(h, view, l, t[0]);
    }
  }

  lemma OwnKept<C>(l: Log<C>, step: Step<C>, view: Option<string>)
    ensures ActAll(l, ActsOf(step, view, l.readers.Keys)).readers.Keys == OwnAfter(step, view, l.readers.Keys)
  {
    var acts := ActsOf(step, view, l.readers.Keys);
    if acts != [] {
      assert acts[1..] == [];
      assert ActAll(l, acts) == Acted(l, acts[0]);
    }
  }

  lemma StepSeen<C>(h: Hub<C>, view: Option<string>, l: Log<C>, step: Step<C>)
    requires Refines(h, view, l) && Counting(h) && Enabled(h, step)
    ensures SeenAll(l, ActsOf(step, view, l.readers.Keys)) == ReceivedNow(h, step, view)
  {
    var acts := ActsOf(step, view, l.readers.Keys);
    if acts != [] {
      assert acts[1..] == [];
    }
    if step.Consume? {
      ResumeSeen(h.subs[step.conn].box, view);
    }
  }
}
