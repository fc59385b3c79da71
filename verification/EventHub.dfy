/**
 The hub and its subscriptions as the api runs them, proved to compute the functions of
 EventModel.dfy (src/copycast/adapters/api/events.py:120-346).
 */
module EventHub {
  import opened Basics
  import opened EventModel

  class Subscription {
    const principal: Principal
    const feed: Option<string>
    const maxsize: int
    var queue: seq<Option<Envelope>>
    var closed: bool
    var dropped: nat
    var phase: Phase

    function State(): Sub
      reads this
    {
      Sub(principal, feed, Mailbox(maxsize, queue, closed, dropped, phase))
    }

    constructor (principal: Principal, feed: Option<string>, maxsize: int)
      ensures State() == Sub(principal, feed, NewMailbox(maxsize))
    {
      this.principal, this.feed, this.maxsize := principal, feed, maxsize;
      queue, closed, dropped, phase := [], false, 0, Ready;
    }

    predicate QueueFull()
      reads this
    {
      maxsize > 0 && |queue| >= maxsize
    }

    method Offer(e: Envelope)
      modifies this
      ensures State() == old(State()).Offer(e)
      ensures feed.Some? && e.event.Data? && e.event.feed != feed ==> State() == old(State())
    {
      if closed || !e.VisibleTo(principal) {
        return;
      }
      if feed.Some? && !e.event.Resync? && e.event.FeedId() != feed {
        return;
      }
      if QueueFull() {
        dropped := dropped + 1;
        Close();
      } else {
        queue := queue + [Some(e)];
      }
    }

    method Close()
      modifies this
      ensures State() == old(State()).(box := old(State()).box.Close())
    {
      if closed {
        return;
      }
      closed := true;
      if !QueueFull() {
        queue := queue + [None];
      }
    }

    // The `async for` of one consumer, from one suspension to the next.
    method Resume() returns (o: Outcome<Envelope>)
      modifies this
      ensures State() == old(State()).(box := old(State()).box.Resume().0)
      ensures o == old(State()).box.Resume().1
    {
      if phase.Done? {
        return Ended;
      }
      if phase.Yielded? && closed && queue == [] {
        phase := Done;
        return Ended;
      }
      if queue == [] {
        phase := Ready;
        return Blocked;
      }
      var head := queue[0];
      queue := queue[1..];
      match head
      case None =>
        phase := Done;
        o := Ended;
      case Some(e) =>
        phase := Yielded;
        o := Got(e);
    }
  }

  lemma EnsuredNone(views: map<string, View>)
    ensures Ensured(views, {}) == views
  {
  }

  lemma EnsuredOneMore(views: map<string, View>, names: set<string>, name: string)
    ensures Ensured(Ensured(views, names), {name}) == Ensured(views, names + {name})
  {
  }

  class Hub {
    const bufferSize: nat
    const queueSize: int
    var nextId: nat
    var buffer: seq<Envelope>
    var views: map<string, View>
    var subscribers: set<Subscription>

    ghost function State(): EventModel.Hub<Subscription>
      reads this, subscribers
    {
      EventModel.Hub(bufferSize, queueSize, nextId, buffer, views, map s | s in subscribers :: s.State())
    }

    ghost predicate Valid()
      reads this, subscribers
    {
      Counting(State())
    }

    constructor (bufferSize: nat, queueSize: int)
      ensures Valid() && subscribers == {}
      ensures State() == NewHub(bufferSize, queueSize)
    {
      this.bufferSize, this.queueSize := bufferSize, queueSize;
      nextId, buffer, views, subscribers := 1, [], map[], {};
    }

    method EnsureView(name: string)
      modifies this`views
      ensures views == Ensured(old(views), {name})
    {
      if name !in views {
        views := views[name := NEW_VIEW];
      }
    }

    method EnsureViews(names: set<string>)
      modifies this`views
      ensures views == Ensured(old(views), names)
    {
      var rest := names;
      ghost var done := {};
      EnsuredNone(views);
      while rest != {}
        invariant done + rest == names
        invariant views == Ensured(old(views), done)
        decreases |rest|
      {
        var name :| name in rest;
        EnsuredOneMore(old(views), done, name);
        EnsureView(name);
        rest, done := rest - {name}, done + {name};
      }
    }

    // Number and buffer `e` in each of its views.
    method AdvanceViews(names: set<string>, e: Envelope)
      requires names <= views.Keys
      modifies this`views
      ensures views == Advance(old(views), names, bufferSize, e)
    {
      var rest := names;
      while rest != {}
        invariant rest <= names
        invariant views == Advance(old(views), names - rest, bufferSize, e)
        decreases |rest|
      {
        var name :| name in rest;
        views := views[name := View(Push(views[name].buffer, bufferSize, e), views[name].nextId + 1)];
        rest := rest - {name};
      }
      assert names - rest == names;
    }

    // Offer `e` to every subscriber, in any order.
    method FanOut(e: Envelope)
      modifies subscribers
      ensures forall s :: s in subscribers ==> s.State() == old(s.State()).Offer(e)
    {
      var rest := subscribers;
      while rest != {}
        invariant rest <= subscribers
        invariant forall s :: s in subscribers ==>
                    s.State() == if s in rest then old(s.State()) else old(s.State()).Offer(e)
        decreases |rest|
      {
        var s :| s in rest;
        s.Offer(e);
        rest := rest - {s};
      }
    }

    // The envelope's numbers, in the instance view and in each of its views, and its place in
    // their buffers.
    method Number(event: Event, owner: Option<string>) returns (e: Envelope)
      requires nextId > 0
      modifies this`nextId, this`buffer, this`views
      ensures e == Stamp(old(State()), event, owner)
      ensures nextId == old(nextId) + 1 && buffer == Push(old(buffer), bufferSize, e)
      ensures var names := Targets(old(views), event, owner);
              views == Advance(Ensured(old(views), names), names, bufferSize, e)
    {
      var names := if event.Resync? then views.Keys else if owner.Some? then {owner.value} else {};
      EnsureViews(names);
      e := Envelope(nextId, event, owner, map n | n in names :: views[n].nextId);
      nextId := nextId + 1;
      buffer := Push(buffer, bufferSize, e);
      AdvanceViews(names, e);
    }

    method Publish(event: Event, owner: Option<string>) returns (e: Envelope)
      requires Valid()
      modifies this, subscribers
      ensures Valid() && subscribers == old(subscribers)
      ensures e == Stamp(old(State()), event, owner)
      ensures State() == Published(old(State()), event, owner)
    {
      ghost var before := State();
      e := Number(event, owner);
      assert State().subs == before.subs;
      FanOut(e);
      assert State().subs == OfferAll(before.subs, e);
      CountingKept(before, Step<Subscription>.Publish(event, owner));
    }

    // Offer `s` every envelope of `tail` after `last`.
    method ReplayTo(s: Subscription, tail: seq<Envelope>, view: Option<string>, last: int)
      modifies s
      ensures s.State() == Replayed(old(s.State()), tail, view, last)
    {
      var i := 0;
      while i < |tail|
        invariant 0 <= i <= |tail|
        invariant Replayed(s.State(), tail[i..], view, last) == Replayed(old(s.State()), tail, view, last)
      {
        if tail[i].IdIn(view).GetOr(0) > last {
          s.Offer(tail[i]);
        }
        i := i + 1;
      }
    }

    // Everything a new subscription is offered before its first live event.
    method OpenFrom(s: Subscription, last: int)
      requires nextId > 0 && NextIdOf(State(), s.principal.View()) > 0 && s !in subscribers
      requires s.principal.View().Some? ==> s.principal.View().value in views
      requires s.State() == Sub(s.principal, s.feed, NewMailbox(queueSize))
      modifies s
      ensures s.State() == Opened(State(), s.principal, s.feed, Some(last))
    {
      var view := s.principal.View();
      var tail := if view.None? then buffer else views[view.value].buffer;
      var next := if view.None? then nextId else views[view.value].nextId;
      var oldest := if tail == [] then next else tail[0].IdIn(view).GetOr(0);
      if last + 1 < oldest || last >= next {
        s.Offer(Envelope(nextId - 1, Resync(REPLAY_GAP), None,
                         if view.None? then map[] else map[view.value := next - 1]));
      }
      ReplayTo(s, tail, view, last);
    }

    method Subscribe(principal: Principal, feed: Option<string>, last: Option<int>) returns (s: Subscription)
      requires Valid()
      modifies this
      ensures Valid() && fresh(s) && subscribers == old(subscribers) + {s}
      ensures State() == Subscribed(old(State()), s, principal, feed, last)
    {
      s := new Subscription(principal, feed, queueSize);
      var view := principal.View();
      if view.Some? {
        EnsureView(view.value);
      }
      ghost var h := WithView(old(State()), view);
      assert State() == h;
      if last.Some? {
        OpenFrom(s, last.value);
      }
      assert State() == h && s.State() == Opened(h, principal, feed, last);
      subscribers := subscribers + {s};
      assert State() == h.(subs := h.subs[s := s.State()]);
    }

    method Unsubscribe(s: Subscription)
      requires Valid() && s in subscribers
      modifies this`subscribers, s
      ensures Valid() && subscribers == old(subscribers) - {s}
      ensures State() == Next(old(State()), Step<Subscription>.Unsubscribe(s))
      ensures s.closed && s.State() == old(s.State()).(box := old(s.State()).box.Close())
    {
      subscribers := subscribers - {s};
      s.Close();
    }
  }
}
