/** What the hub promises its clients: no interference between Owners, and streams that end. */
module EventDelivery {
  import opened Basics
  import opened EventModel
  import opened EventReference
  import opened EventRefinement

  lemma NewHubRefines<C>(bufferSize: nat, queueSize: int, view: Option<string>)
    ensures Inv(NewHub<C>(bufferSize, queueSize))
    ensures Refines(NewHub<C>(bufferSize, queueSize), view, NewLog(bufferSize, queueSize, view))
  {
  }

  // A narrow Principal's view is unaffected by everyone else: two histories that agree on the
  // view's own events, the resyncs and the view's own connections give those connections the
  // same frames (event and id), the same replay-gap answers and the same closures.
  lemma NonInterference<C>(
    bufferSize: nat, queueSize: int, p: Principal, t1: seq<Step<C>>, t2: seq<Step<C>>)
    requires !p.SeesEveryOwner()
    requires var h := NewHub<C>(bufferSize, queueSize); Runs(h, t1) && Runs(h, t2)
    requires Restrict(t1, p.View(), {}) == Restrict(t2, p.View(), {})
    ensures var h := NewHub<C>(bufferSize, queueSize);
            && Received(h, t1, p.View()) == Received(h, t2, p.View())
            && ReadersOf(Run(h, t1).subs, p.View()) == ReadersOf(Run(h, t2).subs, p.View())
            && NextIdOf(Run(h, t1), p.View()) == NextIdOf(Run(h, t2), p.View())
  {
    var h := NewHub<C>(bufferSize, queueSize);
    var l := NewLog<C>(bufferSize, queueSize, p.View());
    NewHubRefines<C>(bufferSize, queueSize, p.View());
    assert l.readers.Keys == {};
    Simulation(h, p.View(), l, t1);
    Simulation(h, p.View(), l, t2);
  }

  // Another Owner's event, and another view's connections, are no step of this view at all.
  lemma ForeignStepsVanish<C>(step: Step<C>, view: Option<string>, own: set<C>)
    requires view.Some?
    requires step.Publish? ==> step.event.Data? && step.owner != view
    requires step.Subscribe? ==> step.principal.View() != view
    requires step.Close? || step.Unsubscribe? || step.Consume? ==> step.conn !in own
    ensures Restrict([step], view, own) == []
  {
    assert [step][1..] == [];
  }

  // Every envelope waiting for a subscriber has an id in that subscriber's view.
  lemma QueuedEnvelopesHaveIds<C>(bufferSize: nat, queueSize: int, t: seq<Step<C>>, c: C, i: nat)
    requires Runs(NewHub<C>(bufferSize, queueSize), t)
    requires var h := Run(NewHub<C>(bufferSize, queueSize), t); c in h.subs && i < |h.subs[c].box.queue|
    ensures var s := Run(NewHub<C>(bufferSize, queueSize), t).subs[c];
            s.box.queue[i].Some? ==> s.box.queue[i].value.IdIn(s.principal.View()).Some?
  {
    var h := NewHub<C>(bufferSize, queueSize);
    NewHubRefines<C>(bufferSize, queueSize, None);
    Simulation(h, None, NewLog(bufferSize, queueSize, None), t);
    assert SubOk(Run(h, t), Run(h, t).subs[c]);
  }

  // ------------------------------------------------------------------ a closed stream ends

  // The sentinel comes last and only once closed, and a closed consumer never waits.
  ghost predicate Ending<T>(b: Mailbox<T>) {
    && (!b.closed ==> forall i :: 0 <= i < |b.queue| ==> b.queue[i].Some?)
    && (forall i :: 0 <= i < |b.queue| - 1 ==> b.queue[i].Some?)
    && (b.closed && b.phase.Ready? ==> b.queue != [])
    && (b.phase.Done? ==> b.closed)
  }

  lemma EndingKept<T>(b: Mailbox<T>, x: T)
    requires Ending(b)
    ensures Ending(b.Put(x)) && Ending(b.Close()) && Ending(b.Resume().0)
  {
  }

  lemma {:induction false} ReplayedEnding(s: Sub, buffer: seq<Envelope>, view: Option<string>, last: int)
    requires Ending(s.box)
    ensures Ending(Replayed(s, buffer, view, last).box)
    decreases |buffer|
  {
    if buffer != [] {
      EndingKept(s.box, buffer[0]);
      ReplayedEnding(if IdOr0(buffer[0], view) > last then s.Offer(buffer[0]) else s, buffer[1..], view, last);
    }
  }

  ghost predicate AllEnding<C>(h: Hub<C>) {
    forall c :: c in h.subs ==> Ending(h.subs[c].box)
  }

  lemma NextEnding<C>(h: Hub<C>, step: Step<C>)
    requires Counting(h) && Enabled(h, step) && AllEnding(h)
    ensures AllEnding(Next(h, step))
  {
    match step
    case Publish(e, o) =>
      var env := Stamp(h, e, o);
      forall c | c in h.subs ensures Ending(h.subs[c].Offer(env).box) { EndingKept(h.subs[c].box, env); }
    case Subscribe(c, p, f, l) =>
      var h' := WithView(h, p.View());
      if l.Some? {
        var s := Sub(p, f, NewMailbox(h.queueSize));
        var view := p.View();
        var nextId := NextIdOf(h', view);
        var gap := GapEnvelope(h'.nextId, view, nextId);
        EndingKept(s.box, gap);
        var s' := if IsGap(l.value, OldestIn(BufferOf(h', view), view, nextId), nextId) then s.Offer(gap) else s;
        ReplayedEnding(s', BufferOf(h', view), view, l.value);
      }
    case Close(c) => EndingKept(h.subs[c].box, GapEnvelope(1, None, 1));
    case Consume(c) => EndingKept(h.subs[c].box, GapEnvelope(1, None, 1));
    case Unsubscribe(_) =>
  }

  lemma {:induction false} RunEnding<C>(h: Hub<C>, t: seq<Step<C>>)
    requires Counting(h) && Runs(h, t) && AllEnding(h)
    ensures AllEnding(Run(h, t))
    decreases |t|
  {
    if t != [] {
      NextEnding(h, t[0]);
      CountingKept(h, t[0]);
      RunEnding(Next(h, t[0]), t[1..]);
    }
  }

  function Items<T>(queue: seq<Option<T>>): seq<T> {
    if queue == [] then []
    else if queue[0].Some? then [queue[0].value] + Items(queue[1..])
    else Items(queue[1..])
  }

  // What a consumer that keeps resuming gets, and whether it returned, within n resumptions.
  function Drained<T>(b: Mailbox<T>, n: nat): (seq<T>, bool)
    decreases n
  {
    if n == 0 then ([], false)
    else
      var (b', o) := b.Resume();
      match o
      case Ended => ([], true)
      case Blocked => Drained(b', n - 1)
      case Got(x) => var (xs, ended) := Drained(b', n - 1); ([x] + xs, ended)
  }

  lemma {:induction false} ClosedDrains<T>(b: Mailbox<T>)
    requires Ending(b) && b.closed && !b.phase.Done?
    ensures Drained(b, |b.queue| + 1) == (Items(b.queue), true)
    decreases |b.queue|
  {
    if b.queue == [] {
    } else if b.queue[0].None? {
      assert |b.queue| == 1;
      assert b.queue == [None];
      assert b.queue[1..] == [];
      assert Items(b.queue) == [];
    } else {
      var b' := b.Resume().0;
      EndingKept(b, b.queue[0].value);
      ClosedDrains(b');
    }
  }

  // After any history, the consumer of a closed stream gets everything still queued, in order,
  // and then returns, within one resumption more than its queue is long; it never hangs. The
  // same once its stream is closed by unsubscribing, whatever state that finds it in.
  lemma ClosedStreamsEnd<C>(bufferSize: nat, queueSize: int, t: seq<Step<C>>, c: C)
    requires Runs(NewHub<C>(bufferSize, queueSize), t)
    requires var h := Run(NewHub<C>(bufferSize, queueSize), t);
             c in h.subs && !h.subs[c].box.phase.Done?
    ensures var box := Run(NewHub<C>(bufferSize, queueSize), t).subs[c].box;
            && (box.closed ==> Drained(box, |box.queue| + 1) == (Items(box.queue), true))
            && Drained(box.Close(), |box.Close().queue| + 1) == (Items(box.queue), true)
  {
    var h := NewHub<C>(bufferSize, queueSize);
    RunEnding(h, t);
    var box := Run(h, t).subs[c].box;
    if box.closed {
      ClosedDrains(box);
    } else {
      ClosingKeepsItems(box);
      ClosedDrains(box.Close());
    }
  }

  lemma ClosingKeepsItems<T>(b: Mailbox<T>)
    requires Ending(b)
    ensures Ending(b.Close()) && Items(b.Close().queue) == Items(b.queue)
  {
    ItemsConcat(b.queue, [None]);
    var end: seq<Option<T>> := [None];
    assert end[1..] == [];
  }

  lemma {:induction false} ItemsConcat<T>(a: seq<Option<T>>, b: seq<Option<T>>)
    ensures Items(a + b) == Items(a) + Items(b)
  {
    if a == [] {
      assert a + b == b;
    } else {
      assert (a + b)[1..] == a[1..] + b;
      ItemsConcat(a[1..], b);
    }
  }
}
