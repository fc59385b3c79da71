/** One connection of any Principal, with any Feed filter: which frames it gets, exactly. */
module EventStreams {
  import opened Basics
  import opened EventModel
  import opened EventReference
  import opened EventRefinement
  import opened EventDelivery
  import opened EventReplay

  // SYSTEM, an Admin session or the open-mode Admin; never a key.
  predicate EveryOwner(p: Principal) {
    p.via == System || (p.admin && (p.via == Session || p.via == Open))
  }

  // This publish gives `p` an event: any at all to who sees every Owner; else the Principal's own,
  // and a resync once its view is there to number it.
  predicate Addresses<C>(h: Hub<C>, step: Step<C>, p: Principal) {
    && step.Publish?
    && (|| EveryOwner(p)
        || (step.event.Data? && step.owner.Some? && step.owner == p.username)
        || (step.event.Resync? && p.username.Some? && p.username.value in h.views))
  }

  function SentNow<C>(h: Hub<C>, step: Step<C>, p: Principal): seq<Event> {
    if Addresses(h, step, p) then [step.event] else []
  }

  // The events a history gives `p`; the first has id 1.
  function Sent<C>(h: Hub<C>, t: seq<Step<C>>, p: Principal): seq<Event>
    requires Counting(h) && Runs(h, t)
    decreases |t|
  {
    if t == [] then []
    else
      CountingKept(h, t[0]);
      SentNow(h, t[0], p) + Sent(Next(h, t[0]), t[1..], p)
  }

  function HeardNow<C>(h: Hub<C>, step: Step<C>, c: C, p: Principal): seq<Frame>
    requires Enabled(h, step)
  {
    if step == Consume(c) && h.subs[c].box.Resume().1.Got?
    then [FrameOf(h.subs[c].box.Resume().1.item, p.View())] else []
  }

  // The frames connection `c` of `p` takes from its queue over a history.
  function Heard<C>(h: Hub<C>, t: seq<Step<C>>, c: C, p: Principal): seq<Frame>
    requires Counting(h) && Runs(h, t)
    decreases |t|
  {
    if t == [] then []
    else
      CountingKept(h, t[0]);
      HeardNow(h, t[0], c, p) + Heard(Next(h, t[0]), t[1..], c, p)
  }

  // Events k, k + 1, ... of `sent` that a stream with this filter carries.
  function Matching(sent: seq<Event>, k: nat, feed: Option<string>): seq<Frame>
    requires k > 0
    decreases |sent| + 1 - k
  {
    if k > |sent| then []
    else
      var event := sent[k - 1];
      (if feed.None? || event.Resync? || event.feed == feed then [Frame(event, k)] else [])
      + Matching(sent, k + 1, feed)
  }

  // The first of n events that a buffer of this size still holds, n + 1 when it holds none.
  function FirstHeld(n: nat, size: nat): nat {
    if n > size then n - size + 1 else 1
  }

  // What a stream opens with, and the first event it goes on with.
  function Opening(n: nat, size: nat, last: Option<int>): seq<Frame> {
    if last.Some? && (last.value < FirstHeld(n, size) - 1 || last.value > n)
    then [Frame(Resync("replay-gap"), n)] else []
  }

  function From(n: nat, size: nat, last: Option<int>): (k: nat)
    ensures 0 < k <= n + 1
  {
    if last.None? || last.value >= n then n + 1
    else if last.value < FirstHeld(n, size) then FirstHeld(n, size)
    else last.value + 1
  }

  lemma {:induction false} MatchingMore(sent: seq<Event>, k: nat, feed: Option<string>, e: Event)
    requires 0 < k <= |sent| + 1
    ensures Matching(sent + [e], k, feed) ==
            Matching(sent, k, feed)
            + if feed.None? || e.Resync? || e.feed == feed then [Frame(e, |sent| + 1)] else []
    decreases |sent| + 1 - k
  {
    if k <= |sent| {
      MatchingMore(sent, k + 1, feed, e);
    } else {
      assert Matching(sent + [e], k + 1, feed) == [];
    }
  }

  // What a connection has and what waits for it, against what is due to it.
  ghost predicate StreamOk(
    heard: seq<Frame>, r: Reader, opening: seq<Frame>, sent: seq<Event>, from: nat, feed: Option<string>) {
    && r.feed == feed && 0 < from <= |sent| + 1
    && var due := opening + Matching(sent, from, feed);
    if r.box.closed then Waiting(heard, r) <= due else Waiting(heard, r) == due
  }

  lemma OfferedOk(
    heard: seq<Frame>, r: Reader, opening: seq<Frame>, sent: seq<Event>, from: nat, feed: Option<string>, e: Event)
    requires StreamOk(heard, r, opening, sent, from, feed)
    ensures StreamOk(heard, r.Offer(Frame(e, |sent| + 1)), opening, sent + [e], from, feed)
  {
    var f := Frame(e, |sent| + 1);
    MatchingMore(sent, from, feed, e);
    PutItems(r.box, f);
    if r.Offer(f).box != r.box && !r.box.Full() {
      assert Waiting(heard, r.Offer(f)) == Waiting(heard, r) + [f];
      assert opening + Matching(sent + [e], from, feed) == opening + Matching(sent, from, feed) + [f];
    } else {
      assert Waiting(heard, r.Offer(f)) == Waiting(heard, r);
      assert opening + Matching(sent, from, feed) <= opening + Matching(sent + [e], from, feed);
    }
  }

  lemma {:induction false} ReplayOk(
    r: Reader, opening: seq<Frame>, sent: seq<Event>, from: nat, feed: Option<string>, k: nat)
    requires 0 < k <= |sent| + 1 && StreamOk([], r, opening, sent[..k - 1], from, feed)
    ensures StreamOk([], Replay(r, sent, k), opening, sent, from, feed)
    decreases |sent| + 1 - k
  {
    if k <= |sent| {
      assert sent[..k] == sent[..k - 1] + [sent[k - 1]];
      OfferedOk([], r, opening, sent[..k - 1], from, feed, sent[k - 1]);
      ReplayOk(r.Offer(Frame(sent[k - 1], k)), opening, sent, from, feed, k + 1);
    } else {
      assert sent[..k - 1] == sent;
    }
  }

  // A new reader with its opening in the queue.
  function Opens(feed: Option<string>, queueSize: int, opening: seq<Frame>): Reader
    requires |opening| <= 1
  {
    var r := Reader(feed, NewMailbox<Frame>(queueSize));
    if opening == [] then r else r.Offer(opening[0])
  }

  lemma OpensWithGap(feed: Option<string>, queueSize: int, n: nat, size: nat, last: Option<int>)
    ensures var r := Opens(feed, queueSize, Opening(n, size, last));
            r.feed == feed && !r.box.closed && Items(r.box.queue) == Opening(n, size, last)
  {
    PutItems(NewMailbox<Frame>(queueSize), Frame(Resync("replay-gap"), n));
  }

  // A subscription replays from the first event it is to go on with.
  lemma OpenedFrom<C>(l: Log<C>, feed: Option<string>, last: Option<int>)
    ensures var n := |l.events|;
            OpenedReader(l, feed, last) ==
            Replay(Opens(feed, l.queueSize, Opening(n, l.bufferSize, last)), l.events, From(n, l.bufferSize, last))
  {
    var n := |l.events|;
    var r := Opens(feed, l.queueSize, Opening(n, l.bufferSize, last));
    assert l.Oldest() == FirstHeld(n, l.bufferSize);
    if last.Some? {
      var k := Max(l.Oldest(), last.value + 1);
      assert OpenedReader(l, feed, last) == Replay(r, l.events, k);
      assert k > n ==> Replay(r, l.events, k) == r == Replay(r, l.events, n + 1);
    }
  }

  // A new connection holds its opening and the buffered events it is to go on with.
  lemma OpensOk<C>(l: Log<C>, feed: Option<string>, last: Option<int>)
    ensures var n := |l.events|;
            StreamOk([], OpenedReader(l, feed, last), Opening(n, l.bufferSize, last), l.events,
                     From(n, l.bufferSize, last), feed)
  {
    var n := |l.events|;
    var opening, from := Opening(n, l.bufferSize, last), From(n, l.bufferSize, last);
    var r := Opens(feed, l.queueSize, opening);
    OpensWithGap(feed, l.queueSize, n, l.bufferSize, last);
    OpenedFrom(l, feed, last);
    assert Matching(l.events[..from - 1], from, feed) == [];
    assert opening + [] == opening && Waiting([], r) == opening;
    ReplayOk(r, opening, l.events, from, feed, from);
  }

  // ------------------------------------------------------------------ one step of the hub

  lemma AddressesView<C>(h: Hub<C>, step: Step<C>, p: Principal)
    requires p.Named()
    ensures Addresses(h, step, p) <==> Numbered(h, p.View(), step)
  {
  }

  // The connection at one point of a history: its view's next id and its own queue.
  ghost predicate Streams<C>(
    h: Hub<C>, c: C, p: Principal, sent: seq<Event>,
    heard: seq<Frame>, opening: seq<Frame>, from: nat, feed: Option<string>) {
    && p.Named() && c in h.subs && h.subs[c].principal == p
    && (p.View().Some? ==> p.View().value in h.views)
    && NextIdOf(h, p.View()) == |sent| + 1
    && StreamOk(heard, ReaderOf(h.subs[c]), opening, sent, from, feed)
  }

  lemma PublishStreams<C>(
    h: Hub<C>, step: Step<C>, c: C, p: Principal, sent: seq<Event>,
    heard: seq<Frame>, opening: seq<Frame>, from: nat, feed: Option<string>)
    requires Counting(h) && step.Publish? && Streams(h, c, p, sent, heard, opening, from, feed)
    ensures Streams(Next(h, step), c, p, sent + SentNow(h, step, p), heard, opening, from, feed)
  {
    var view, e := p.View(), Stamp(h, step.event, step.owner);
    StampIds(h, step.event, step.owner, view);
    PublishedNumbers(h, view, step.event, step.owner);
    OfferSeen(h.subs[c], e);
    AddressesView(h, step, p);
    if Addresses(h, step, p) {
      OfferedOk(heard, ReaderOf(h.subs[c]), opening, sent, from, feed, step.event);
    } else {
      assert sent + [] == sent;
    }
  }

  lemma BoxStreams<C>(
    h: Hub<C>, step: Step<C>, c: C, p: Principal, sent: seq<Event>,
    heard: seq<Frame>, opening: seq<Frame>, from: nat, feed: Option<string>)
    requires Counting(h) && Enabled(h, step) && (step == Consume(c) || step == Close(c))
    requires Streams(h, c, p, sent, heard, opening, from, feed)
    ensures Streams(Next(h, step), c, p, sent, heard + HeardNow(h, step, c, p), opening, from, feed)
  {
    var r := ReaderOf(h.subs[c]);
    if step == Consume(c) {
      ResumeSeen(h.subs[c].box, p.View());
      ReadItems(heard, r);
    } else {
      CloseSeen(h.subs[c].box, p.View());
      PutItems(r.box, Frame(Resync("replay-gap"), 0));
    }
    assert heard + [] == heard;
  }

  lemma StepStreams<C>(
    h: Hub<C>, step: Step<C>, c: C, p: Principal, sent: seq<Event>,
    heard: seq<Frame>, opening: seq<Frame>, from: nat, feed: Option<string>)
    requires Counting(h) && Enabled(h, step) && step != Unsubscribe(c)
    requires Streams(h, c, p, sent, heard, opening, from, feed)
    ensures Streams(Next(h, step), c, p, sent + SentNow(h, step, p), heard + HeardNow(h, step, c, p),
                    opening, from, feed)
  {
    assert sent + [] == sent && heard + [] == heard;
    if step.Publish? {
      PublishStreams(h, step, c, p, sent, heard, opening, from, feed);
    } else if step == Consume(c) || step == Close(c) {
      BoxStreams(h, step, c, p, sent, heard, opening, from, feed);
    }
  }

  // ------------------------------------------------------------------ a history of the hub

  // A history is its first step and then the rest.
  lemma FirstThenRest<C>(h: Hub<C>, t: seq<Step<C>>, c: C, p: Principal)
    requires Counting(h) && Runs(h, t) && t != []
    ensures Enabled(h, t[0]) && Counting(Next(h, t[0])) && Runs(Next(h, t[0]), t[1..])
    ensures Run(h, t) == Run(Next(h, t[0]), t[1..])
    ensures Sent(h, t, p) == SentNow(h, t[0], p) + Sent(Next(h, t[0]), t[1..], p)
    ensures Heard(h, t, c, p) == HeardNow(h, t[0], c, p) + Heard(Next(h, t[0]), t[1..], c, p)
  {
    CountingKept(h, t[0]);
  }

  lemma {:induction false} RunStreams<C>(
    h: Hub<C>, t: seq<Step<C>>, c: C, p: Principal, sent: seq<Event>,
    heard: seq<Frame>, opening: seq<Frame>, from: nat, feed: Option<string>)
    requires Counting(h) && Runs(h, t) && Unsubscribe(c) !in t
    requires Streams(h, c, p, sent, heard, opening, from, feed)
    ensures Streams(Run(h, t), c, p, sent + Sent(h, t, p), heard + Heard(h, t, c, p), opening, from, feed)
    decreases |t|
  {
    if t == [] {
      assert sent + [] == sent && heard + [] == heard;
    } else {
      var step, rest := t[0], t[1..];
      FirstThenRest(h, t, c, p);
      StepStreams(h, step, c, p, sent, heard, opening, from, feed);
      var h' := Next(h, step);
      RunStreams(h', rest, c, p, sent + SentNow(h, step, p), heard + HeardNow(h, step, c, p), opening, from, feed);
      Regroup(sent, SentNow(h, step, p), Sent(h', rest, p));
      Regroup(heard, HeardNow(h, step, c, p), Heard(h', rest, c, p));
    }
  }

  predicate Born<C>(h: Hub<C>, p: Principal, l: Log<C>) {
    l.live <==> p.View().None? || p.View().value in h.views
  }

  lemma StepLogged<C>(h: Hub<C>, p: Principal, l: Log<C>, step: Step<C>)
    requires Counting(h) && Enabled(h, step) && p.Named() && Born(h, p, l)
    ensures var l' := ActAll(l, ActsOf(step, p.View(), l.readers.Keys));
            Born(Next(h, step), p, l') && l'.events == l.events + SentNow(h, step, p)
  {
    OneAct(l, ActsOf(step, p.View(), l.readers.Keys));
    AddressesView(h, step, p);
  }

  // The events of the view's log are those addressed to the Principal.
  lemma {:induction false} SentLogged<C>(h: Hub<C>, p: Principal, l: Log<C>, t: seq<Step<C>>)
    requires Counting(h) && Runs(h, t) && p.Named() && Born(h, p, l)
    ensures ActAll(l, Restrict(t, p.View(), l.readers.Keys)).events == l.events + Sent(h, t, p)
    decreases |t|
  {
    if t != [] {
      var acts := ActsOf(t[0], p.View(), l.readers.Keys);
      var l' := ActAll(l, acts);
      StepLogged(h, p, l, t[0]);
      OwnKept(l, t[0], p.View());
      CountingKept(h, t[0]);
      var h', rest := Next(h, t[0]), t[1..];
      SentLogged(h', p, l', rest);
      ActAllConcat(l, acts, Restrict(rest, p.View(), l'.readers.Keys));
      Regroup(l.events, SentNow(h, t[0], p), Sent(h', rest, p));
    }
  }

  // ------------------------------------------------------------------ any connection of any history

  // A connection opened after one history and kept over another.
  predicate Connects<C>(
    h: Hub<C>, before: seq<Step<C>>, c: C, p: Principal, feed: Option<string>, last: Option<int>, after: seq<Step<C>>)
    requires Counting(h)
  {
    && p.Named() && Runs(h, before)
    && var now := Run(h, before);
    && Enabled(now, Subscribe(c, p, feed, last)) && Unsubscribe(c) !in after
    && (CountingKept(now, Subscribe(c, p, feed, last)); Runs(Subscribed(now, c, p, feed, last), after))
  }

  // What it had by then: every frame taken, and every frame waiting.
  function Carried<C>(h: Hub<C>, after: seq<Step<C>>, c: C, p: Principal): seq<Frame>
    requires Counting(h) && Runs(h, after) && c in Run(h, after).subs
  {
    Heard(h, after, c, p) + Items(BoxOf(Run(h, after).subs[c].box, p.View()).queue)
  }

  lemma {:induction false} ConfigKept<C>(h: Hub<C>, t: seq<Step<C>>)
    requires Counting(h) && Runs(h, t)
    ensures Run(h, t).bufferSize == h.bufferSize
    decreases |t|
  {
    if t != [] {
      CountingKept(h, t[0]);
      ConfigKept(Next(h, t[0]), t[1..]);
    }
  }

  // The view after any history: its log is what was sent.
  lemma HistoryLogged<C>(bufferSize: nat, queueSize: int, t: seq<Step<C>>, p: Principal) returns (l: Log<C>)
    requires p.Named() && Runs(NewHub<C>(bufferSize, queueSize), t)
    ensures var h := Run(NewHub<C>(bufferSize, queueSize), t);
            Inv(h) && Refines(h, p.View(), l) && l.bufferSize == bufferSize
    ensures l.events == Sent(NewHub<C>(bufferSize, queueSize), t, p)
  {
    var h := NewHub<C>(bufferSize, queueSize);
    var l0 := NewLog<C>(bufferSize, queueSize, p.View());
    NewHubRefines<C>(bufferSize, queueSize, p.View());
    Simulation(h, p.View(), l0, t);
    SentLogged(h, p, l0, t);
    ConfigKept(h, t);
    l := ActAll(l0, Restrict(t, p.View(), l0.readers.Keys));
  }

  // As a connection opens, it waits with its opening and what it is to go on with.
  lemma JoinedStreams<C>(h: Hub<C>, l: Log<C>, c: C, p: Principal, feed: Option<string>, last: Option<int>)
    requires Inv(h) && Refines(h, p.View(), l) && Enabled(h, Subscribe(c, p, feed, last))
    ensures var n := |l.events|;
            var joined := Subscribed(h, c, p, feed, last);
            && Counting(joined)
            && Streams(joined, c, p, l.events, [], Opening(n, l.bufferSize, last), From(n, l.bufferSize, last), feed)
  {
    SubscribedInv(h, c, p, feed, last);
    SubscribedRefines(h, p.View(), l, c, p, feed, last);
    OpenedPrincipal(WithView(h, p.View()), p, feed, last);
    OpensOk(l, feed, last);
    var l' := Acted(l, Attach(c, feed, last));
    assert l'.readers[c] == ReaderOf(Subscribed(h, c, p, feed, last).subs[c]);
  }

  // An open stream has carried, or holds, its opening and then every event it is to carry; a closed
  // one a beginning of that.
  lemma StreamIsExact<C>(
    bufferSize: nat, queueSize: int, before: seq<Step<C>>,
    c: C, p: Principal, feed: Option<string>, last: Option<int>, after: seq<Step<C>>)
    requires Connects(NewHub<C>(bufferSize, queueSize), before, c, p, feed, last, after)
    ensures var h := NewHub<C>(bufferSize, queueSize);
            var joined := Subscribed(Run(h, before), c, p, feed, last);
            && Counting(joined) && c in Run(joined, after).subs
            && var n := |Sent(h, before, p)|;
            var sent := Sent(h, before, p) + Sent(joined, after, p);
            var due := Opening(n, bufferSize, last) + Matching(sent, From(n, bufferSize, last), feed);
            var carried := Carried(joined, after, c, p);
            if Run(joined, after).subs[c].box.closed then carried <= due else carried == due
  {
    var h := Run(NewHub<C>(bufferSize, queueSize), before);
    var l := HistoryLogged<C>(bufferSize, queueSize, before, p);
    var n := |l.events|;
    JoinedStreams(h, l, c, p, feed, last);
    RunStreams(Subscribed(h, c, p, feed, last), after, c, p, l.events, [],
               Opening(n, bufferSize, last), From(n, bufferSize, last), feed);
    assert forall heard: seq<Frame> :: [] + heard == heard;
  }

  lemma {:induction false} MatchingHas(sent: seq<Event>, k: nat, feed: Option<string>, f: Frame)
    requires k > 0
    ensures f in Matching(sent, k, feed) <==>
            && k <= f.id <= |sent| && f.event == sent[f.id - 1]
            && (feed.None? || f.event.Resync? || f.event.feed == feed)
    decreases |sent| + 1 - k
  {
    if k <= |sent| {
      MatchingHas(sent, k + 1, feed, f);
    }
  }

  // A stream of one Feed carries nothing of another Feed and nothing without a Feed but resyncs; and
  // while it is open, each of the Principal's events of that Feed, and each resync, after the id it
  // was opened with is among what it carried, unless a gap told that events up to it may be lost.
  lemma FilteredStream<C>(
    bufferSize: nat, queueSize: int, before: seq<Step<C>>,
    c: C, p: Principal, feed: string, last: Option<int>, after: seq<Step<C>>)
    requires Connects(NewHub<C>(bufferSize, queueSize), before, c, p, Some(feed), last, after)
    ensures var h := NewHub<C>(bufferSize, queueSize);
            var joined := Subscribed(Run(h, before), c, p, Some(feed), last);
            && Counting(joined) && c in Run(joined, after).subs
            && var n := |Sent(h, before, p)|;
            var sent := Sent(h, before, p) + Sent(joined, after, p);
            var carried := Carried(joined, after, c, p);
            && (forall f :: f in carried ==> f.event.Resync? || (f.event.Data? && f.event.feed == Some(feed)))
            && (!Run(joined, after).subs[c].box.closed ==>
                  forall i :: Later(last, n) <= i < |sent| && (sent[i].Resync? || sent[i].feed == Some(feed)) ==>
                    Frame(sent[i], i + 1) in carried || (i < n && Frame(Resync("replay-gap"), n) in carried))
  {
    var h := NewHub<C>(bufferSize, queueSize);
    var joined := Subscribed(Run(h, before), c, p, Some(feed), last);
    StreamIsExact(bufferSize, queueSize, before, c, p, Some(feed), last, after);
    var n := |Sent(h, before, p)|;
    var sent := Sent(h, before, p) + Sent(joined, after, p);
    DueIsFiltered(sent, n, bufferSize, last, feed, Carried(joined, after, c, p));
    if !Run(joined, after).subs[c].box.closed {
      DueIsComplete(sent, n, bufferSize, last, feed);
    }
  }

  // The id after which a stream is to carry events.
  function Later(last: Option<int>, n: nat): nat {
    if last.None? then n else if last.value < 0 then 0 else last.value
  }

  lemma DueIsFiltered(sent: seq<Event>, n: nat, size: nat, last: Option<int>, feed: string, carried: seq<Frame>)
    requires carried <= Opening(n, size, last) + Matching(sent, From(n, size, last), Some(feed))
    ensures forall f :: f in carried ==> f.event.Resync? || (f.event.Data? && f.event.feed == Some(feed))
  {
    forall f | f in carried ensures f.event.Resync? || (f.event.Data? && f.event.feed == Some(feed)) {
      MatchingHas(sent, From(n, size, last), Some(feed), f);
      assert f in Opening(n, size, last) + Matching(sent, From(n, size, last), Some(feed));
    }
  }

  lemma DueIsComplete(sent: seq<Event>, n: nat, size: nat, last: Option<int>, feed: string)
    requires n <= |sent|
    ensures var due := Opening(n, size, last) + Matching(sent, From(n, size, last), Some(feed));
            forall i :: Later(last, n) <= i < |sent| && (sent[i].Resync? || sent[i].feed == Some(feed)) ==>
              Frame(sent[i], i + 1) in due || (i < n && Frame(Resync("replay-gap"), n) in due)
  {
    var from := From(n, size, last);
    var due := Opening(n, size, last) + Matching(sent, from, Some(feed));
    forall i | Later(last, n) <= i < |sent| && (sent[i].Resync? || sent[i].feed == Some(feed))
      ensures Frame(sent[i], i + 1) in due || (i < n && Frame(Resync("replay-gap"), n) in due)
    {
      MatchingHas(sent, from, Some(feed), Frame(sent[i], i + 1));
      if i + 1 < from {
        assert Opening(n, size, last)[0] in due;
      }
    }
  }

  // ------------------------------------------------------------------ whose events

  lemma {:induction false} SentAreOwn<C>(h: Hub<C>, t: seq<Step<C>>, p: Principal, e: Event)
    requires Counting(h) && Runs(h, t) && e in Sent(h, t, p) && !EveryOwner(p)
    ensures e.Resync? || (p.username.Some? && Publish(e, p.username) in t)
    decreases |t|
  {
    CountingKept(h, t[0]);
    if e in Sent(Next(h, t[0]), t[1..], p) {
      SentAreOwn(Next(h, t[0]), t[1..], p, e);
    }
  }

  // An API key, even an Admin's, and a Member's session carry their own User's events alone.
  lemma OnlyOwnEvents<C>(
    bufferSize: nat, queueSize: int, before: seq<Step<C>>,
    c: C, p: Principal, feed: Option<string>, last: Option<int>, after: seq<Step<C>>)
    requires Connects(NewHub<C>(bufferSize, queueSize), before, c, p, feed, last, after)
    requires p.via == ApiKey || (p.via != System && !p.admin)
    ensures var h := NewHub<C>(bufferSize, queueSize);
            var joined := Subscribed(Run(h, before), c, p, feed, last);
            && Counting(joined) && c in Run(joined, after).subs
            && forall f :: f in Carried(joined, after, c, p) ==>
                 f.event.Resync? || (p.username.Some? && Publish(f.event, p.username) in before + after)
  {
    var h := NewHub<C>(bufferSize, queueSize);
    var joined := Subscribed(Run(h, before), c, p, feed, last);
    StreamIsExact(bufferSize, queueSize, before, c, p, feed, last, after);
    var n := |Sent(h, before, p)|;
    var sent := Sent(h, before, p) + Sent(joined, after, p);
    forall f | f in Carried(joined, after, c, p)
      ensures f.event.Resync? || (p.username.Some? && Publish(f.event, p.username) in before + after)
    {
      assert f in Opening(n, bufferSize, last) + Matching(sent, From(n, bufferSize, last), feed);
      MatchingHas(sent, From(n, bufferSize, last), feed, f);
      if f.event in Sent(h, before, p) {
        SentAreOwn(h, before, p, f.event);
      } else if f.event in Sent(joined, after, p) {
        SentAreOwn(joined, after, p, f.event);
      }
    }
  }
}
