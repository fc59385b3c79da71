/**
 The EventHub's values and the meaning of each of its operations on them
 (src/copycast/adapters/api/events.py). The classes in EventHub.dfy are proved to compute
 exactly these functions; EventDelivery.dfy and EventReplay.dfy prove what the functions promise.
 */
module EventModel {
  import opened Basics

  datatype Event =
    | Resync(reason: string)
    | Data(name: string, feed: Option<string>, body: string)
  {
    // `event_feed_id`: a resync concerns no Feed.
    function FeedId(): Option<string> {
      if Data? then feed else None
    }
  }

  const REPLAY_GAP := "replay-gap"

  datatype Via = Session | ApiKey | Open | System

  datatype Principal = Principal(username: Option<string>, admin: bool, via: Via) {
    predicate SeesEveryOwner() {
      via.System? || (admin && !via.ApiKey?)
    }

    // The id view this Principal reads: None is the instance view.
    function View(): Option<string> {
      if SeesEveryOwner() then None else Some(username.GetOr(""))
    }

    // Only SYSTEM has no username (src/copycast/domain/users.py:56-58).
    predicate Named() {
      SeesEveryOwner() || username.Some?
    }
  }

  datatype Envelope = Envelope(id: nat, event: Event, owner: Option<string>, viewIds: map<string, nat>) {
    predicate VisibleTo(p: Principal) {
      event.Resync? || p.SeesEveryOwner() || (owner.Some? && owner == p.username)
    }

    function IdIn(view: Option<string>): Option<nat> {
      if view.None? then Some(id)
      else if view.value in viewIds then Some(viewIds[view.value])
      else None
    }
  }

  // Where a consumer's `async for` stands: about to take from the queue, suspended at a
  // `yield`, or returned.
  datatype Phase = Ready | Yielded | Done

  datatype Outcome<T> = Got(item: T) | Blocked | Ended

  // A bounded queue and its consumer; a None element is the sentinel that ends the stream.
  // As in asyncio, a queue whose maxsize is not positive is never full.
  datatype Mailbox<T> = Mailbox(maxsize: int, queue: seq<Option<T>>, closed: bool, dropped: nat, phase: Phase) {
    predicate Full() {
      maxsize > 0 && |queue| >= maxsize
    }

    function Close(): Mailbox<T> {
      if closed then this
      else if Full() then this.(closed := true)
      else this.(closed := true, queue := queue + [None])
    }

    function Put(x: T): Mailbox<T> {
      if closed then this
      else if Full() then this.(dropped := dropped + 1).Close()
      else this.(queue := queue + [Some(x)])
    }

    // The consumer resumes and runs to its next `yield`, its return, or a blocking get.
    function Resume(): (Mailbox<T>, Outcome<T>) {
      if phase.Done? || (phase.Yielded? && closed && queue == []) then (this.(phase := Done), Ended)
      else if queue == [] then (this.(phase := Ready), Blocked)
      else if queue[0].None? then (this.(phase := Done, queue := queue[1..]), Ended)
      else (this.(phase := Yielded, queue := queue[1..]), Got(queue[0].value))
    }
  }

  function NewMailbox<T>(maxsize: int): Mailbox<T> {
    Mailbox(maxsize, [], false, 0, Ready)
  }

  predicate Passes(feed: Option<string>, event: Event) {
    feed.None? || event.Resync? || event.FeedId() == feed
  }

  datatype Sub = Sub(principal: Principal, feed: Option<string>, box: Mailbox<Envelope>) {
    predicate Wants(e: Envelope) {
      e.VisibleTo(principal) && Passes(feed, e.event)
    }

    function Offer(e: Envelope): Sub {
      if Wants(e) then this.(box := box.Put(e)) else this
    }
  }

  // `deque(maxlen=size).append(x)`
  function Push<T>(buffer: seq<T>, size: nat, x: T): seq<T> {
    var longer := buffer + [x];
    if |longer| > size then longer[|longer| - size..] else longer
  }

  datatype View = View(buffer: seq<Envelope>, nextId: nat)

  const NEW_VIEW := View([], 1)

  // The hub; `subs` are its current subscribers, named by their connection.
  datatype Hub<C> = Hub(
    bufferSize: nat,
    queueSize: int,
    nextId: nat,
    buffer: seq<Envelope>,
    views: map<string, View>,
    subs: map<C, Sub>)

  function NewHub<C>(bufferSize: nat, queueSize: int): Hub<C> {
    Hub(bufferSize, queueSize, 1, [], map[], map[])
  }

  function Ensured(views: map<string, View>, names: set<string>): map<string, View> {
    map n | n in views.Keys + names :: if n in views then views[n] else NEW_VIEW
  }

  function Targets(views: map<string, View>, event: Event, owner: Option<string>): set<string> {
    if event.Resync? then views.Keys
    else if owner.Some? then {owner.value}
    else {}
  }

  function Stamp<C>(h: Hub<C>, event: Event, owner: Option<string>): Envelope {
    var names := Targets(h.views, event, owner);
    var views := Ensured(h.views, names);
    Envelope(h.nextId, event, owner, map n | n in names :: views[n].nextId)
  }

  function Advance(views: map<string, View>, names: set<string>, size: nat, e: Envelope): map<string, View> {
    map n | n in views ::
      if n in names then View(Push(views[n].buffer, size, e), views[n].nextId + 1) else views[n]
  }

  function OfferAll<C>(subs: map<C, Sub>, e: Envelope): map<C, Sub> {
    map c | c in subs :: subs[c].Offer(e)
  }

  function Published<C>(h: Hub<C>, event: Event, owner: Option<string>): Hub<C> {
    var e := Stamp(h, event, owner);
    var names := Targets(h.views, event, owner);
    h.(nextId := h.nextId + 1,
       buffer := Push(h.buffer, h.bufferSize, e),
       views := Advance(Ensured(h.views, names), names, h.bufferSize, e),
       subs := OfferAll(h.subs, e))
  }

  function IdOr0(e: Envelope, view: Option<string>): nat {
    e.IdIn(view).GetOr(0)
  }

  // Offer every buffered envelope after `last`, oldest first.
  function Replayed(s: Sub, buffer: seq<Envelope>, view: Option<string>, last: int): Sub
    decreases |buffer|
  {
    if buffer == [] then s
    else
      var s' := if IdOr0(buffer[0], view) > last then s.Offer(buffer[0]) else s;
      Replayed(s', buffer[1..], view, last)
  }

  function BufferOf<C>(h: Hub<C>, view: Option<string>): seq<Envelope> {
    match view
    case None => h.buffer
    case Some(n) => if n in h.views then h.views[n].buffer else []
  }

  function NextIdOf<C>(h: Hub<C>, view: Option<string>): nat {
    match view
    case None => h.nextId
    case Some(n) => if n in h.views then h.views[n].nextId else 1
  }

  function OldestIn(buffer: seq<Envelope>, view: Option<string>, nextId: nat): nat {
    if buffer == [] then nextId else IdOr0(buffer[0], view)
  }

  // Whether `last` is answered with a replay-gap resync.
  predicate IsGap(last: int, oldest: nat, nextId: nat) {
    last + 1 < oldest || last >= nextId
  }

  // The replay-gap resync, numbered with the last id of the view it is sent in.
  function GapEnvelope(instanceNext: nat, view: Option<string>, nextId: nat): Envelope
    requires instanceNext > 0 && nextId > 0
  {
    Envelope(instanceNext - 1, Resync(REPLAY_GAP), None,
             if view.None? then map[] else map[view.value := nextId - 1])
  }

  function Opened<C>(h: Hub<C>, p: Principal, feed: Option<string>, last: Option<int>): Sub
    requires h.nextId > 0 && NextIdOf(h, p.View()) > 0
  {
    var s := Sub(p, feed, NewMailbox(h.queueSize));
    if last.None? then s
    else
      var view := p.View();
      var nextId := NextIdOf(h, view);
      var buffer := BufferOf(h, view);
      var s' := if IsGap(last.value, OldestIn(buffer, view, nextId), nextId)
                then s.Offer(GapEnvelope(h.nextId, view, nextId)) else s;
      Replayed(s', buffer, view, last.value)
  }

  function WithView<C>(h: Hub<C>, view: Option<string>): Hub<C> {
    if view.None? then h else h.(views := Ensured(h.views, {view.value}))
  }

  function Subscribed<C>(h: Hub<C>, c: C, p: Principal, feed: Option<string>, last: Option<int>): Hub<C>
    requires h.nextId > 0 && NextIdOf(h, p.View()) > 0
  {
    var h' := WithView(h, p.View());
    h'.(subs := h'.subs[c := Opened(h', p, feed, last)])
  }

  // ------------------------------------------------------------------ histories

  datatype Step<C> =
    | Publish(event: Event, owner: Option<string>)
    | Subscribe(conn: C, principal: Principal, feed: Option<string>, last: Option<int>)
    | Close(conn: C)
    | Unsubscribe(conn: C)
    | Consume(conn: C)

  // A connection is a fresh object; its other steps come while the hub knows it.
  predicate Enabled<C>(h: Hub<C>, step: Step<C>) {
    match step
    case Publish(_, _) => true
    case Subscribe(c, p, _, _) => c !in h.subs && p.Named()
    case Close(c) => c in h.subs
    case Unsubscribe(c) => c in h.subs
    case Consume(c) => c in h.subs
  }

  predicate Counting<C>(h: Hub<C>) {
    h.nextId > 0 && forall n :: n in h.views ==> h.views[n].nextId > 0
  }

  function Next<C>(h: Hub<C>, step: Step<C>): Hub<C>
    requires Counting(h) && Enabled(h, step)
  {
    match step
    case Publish(e, o) => Published(h, e, o)
    case Subscribe(c, p, f, l) => Subscribed(h, c, p, f, l)
    case Close(c) => h.(subs := h.subs[c := h.subs[c].(box := h.subs[c].box.Close())])
    case Unsubscribe(c) => h.(subs := h.subs - {c})
    case Consume(c) => h.(subs := h.subs[c := h.subs[c].(box := h.subs[c].box.Resume().0)])
  }

  lemma CountingKept<C>(h: Hub<C>, step: Step<C>)
    requires Counting(h) && Enabled(h, step)
    ensures Counting(Next(h, step))
  {
  }

  // A history the hub can live through from `h`.
  predicate Runs<C>(h: Hub<C>, t: seq<Step<C>>)
    requires Counting(h)
    decreases |t|
  {
    t == [] || (Enabled(h, t[0]) && (CountingKept(h, t[0]); Runs(Next(h, t[0]), t[1..])))
  }

  function Run<C>(h: Hub<C>, t: seq<Step<C>>): (h': Hub<C>)
    requires Counting(h) && Runs(h, t)
    ensures Counting(h')
    decreases |t|
  {
    if t == [] then h
    else
      CountingKept(h, t[0]);
      Run(Next(h, t[0]), t[1..])
  }
}
