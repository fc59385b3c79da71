/**
 Replicas serving one Feed each from its own list, the shared level or a render, in any
 interleaving (src/copycast/adapters/api/cache.py:172-201, 257-295): whatever a request is
 answered with is the rendering of that Feed at the entry's own revision, never older than
 the revision it asked for.
 */
module CacheCoherence {
  import opened Basics
  import opened CacheModel
  import FeedCache

  // What does not change: the libraries, how a Feed renders at a revision, the key scope and
  // the capacity of each replica's list.
  datatype Site = Site(libs: Libs, render: (string, int) -> Rendered, scope: string, capacity: nat) {
    function Entry(feed: string, revision: int): CachedFeed {
      BuildEntry(libs, render(feed, revision))
    }

    ghost predicate Sound() {
      libs.Sound() && capacity > 0 && forall f, r :: render(f, r).revision == r
    }

    function BodyKey(feed: string, revision: int): string {
      Key(SHARED_PREFIX, scope, feed, revision)
    }

    function LockKey(feed: string, revision: int): string {
      Key(LOCK_PREFIX, scope, feed, revision)
    }
  }

  // Where one request stands in `fetch`.
  datatype Stage =
    | Local
    | Shared
    | Locking
    | Waiting
    | Rendering
    | Built(rendered: Rendered)
    | Putting(entry: CachedFeed)
    | Answered(answer: Option<CachedFeed>)

  datatype Fetch = Fetch(replica: nat, feed: string, asked: int, stage: Stage)

  // The database's current revision of a Feed, and whether the Feed still exists.
  datatype Head = Head(revision: int, present: bool)

  datatype State = State(
    heads: map<string, Head>,
    replicas: map<nat, FeedCache.Lru>,
    store: map<string, Bytes>,
    fetches: map<nat, Fetch>)

  // `failed` marks a call to the shared level that raised.
  datatype Step =
    | Publish(feed: string, revision: int)
    | Remove(feed: string)
    | Expire(key: string)
    | Invalidate(replica: nat, feed: string)
    | Request(fetch: nat, replica: nat, feed: string)
    | AskLocal(fetch: nat, hasShared: bool)
    | AskShared(fetch: nat, failed: bool)
    | TryLock(fetch: nat, failed: bool)
    | Poll(fetch: nat, failed: bool)
    | StopWaiting(fetch: nat)
    | Render(fetch: nat)
    | KeepBuilt(fetch: nat, hasShared: bool)
    | Put(fetch: nat, failed: bool)

  predicate At(s: State, k: nat, stage: Stage) {
    k in s.fetches && s.fetches[k].stage == stage && s.fetches[k].replica in s.replicas
  }

  predicate Enabled(s: State, step: Step) {
    match step
    case Publish(feed, revision) => feed in s.heads ==> revision >= s.heads[feed].revision
    case Remove(feed) => feed in s.heads
    case Expire(_) => true
    case Invalidate(replica, _) => replica in s.replicas
    case Request(k, replica, feed) =>
      k !in s.fetches && replica in s.replicas && feed in s.heads && s.heads[feed].present
    case AskLocal(k, _) => At(s, k, Local)
    case AskShared(k, _) => At(s, k, Shared)
    case TryLock(k, _) => At(s, k, Locking)
    case Poll(k, _) => At(s, k, Waiting)
    case StopWaiting(k) => At(s, k, Waiting)
    case Render(k) => At(s, k, Rendering)
    case KeepBuilt(k, _) =>
      k in s.fetches && s.fetches[k].stage.Built? && s.fetches[k].replica in s.replicas
    case Put(k, _) => k in s.fetches && s.fetches[k].stage.Putting?
  }

  function Moved(s: State, k: nat, stage: Stage): State
    requires k in s.fetches
  {
    s.(fetches := s.fetches[k := s.fetches[k].(stage := stage)])
  }

  function Listed(site: Site, s: State, k: nat, entry: CachedFeed): State
    requires k in s.fetches && s.fetches[k].replica in s.replicas
  {
    var f := s.fetches[k];
    s.(replicas := s.replicas[f.replica := FeedCache.Kept(s.replicas[f.replica], site.capacity, f.feed, entry)])
  }

  // `SharedFeedCache.get`: a failed or unreadable value is a miss.
  function Found(site: Site, s: State, f: Fetch, failed: bool): Option<CachedFeed> {
    var key := site.BodyKey(f.feed, f.asked);
    if failed || key !in s.store then None else Decode(site.libs, s.store[key])
  }

  function AnsweredOr(site: Site, s: State, k: nat, failed: bool, otherwise: Stage): State
    requires k in s.fetches && s.fetches[k].replica in s.replicas
  {
    match Found(site, s, s.fetches[k], failed)
    case None => Moved(s, k, otherwise)
    case Some(e) => Moved(Listed(site, s, k, e), k, Answered(Some(e)))
  }

  function Next(site: Site, s: State, step: Step): State
    requires Enabled(s, step)
  {
    match step
    case Publish(feed, revision) => s.(heads := s.heads[feed := Head(revision, true)])
    case Remove(feed) => s.(heads := s.heads[feed := s.heads[feed].(present := false)])
    case Expire(key) => s.(store := s.store - {key})
    case Invalidate(r, feed) => s.(replicas := s.replicas[r := FeedCache.Dropped(s.replicas[r], feed)])
    case Request(k, r, feed) =>
      s.(fetches := s.fetches[k := Fetch(r, feed, s.heads[feed].revision, Local)])
    case AskLocal(k, hasShared) =>
      var f := s.fetches[k];
      var l := s.replicas[f.replica];
      if FeedCache.Hits(l, f.feed, f.asked) then
        Moved(s.(replicas := s.replicas[f.replica := FeedCache.Refreshed(l, f.feed)]), k,
              Answered(Some(l.entries[f.feed])))
      else Moved(s, k, if hasShared then Shared else Rendering)
    case AskShared(k, failed) => AnsweredOr(site, s, k, failed, Locking)
    case TryLock(k, failed) =>
      var key := site.LockKey(s.fetches[k].feed, s.fetches[k].asked);
      if failed then Moved(s, k, Rendering)
      else if key in s.store then Moved(s, k, Waiting)
      else Moved(s.(store := s.store[key := [49]]), k, Rendering)
    case Poll(k, failed) => AnsweredOr(site, s, k, failed, Waiting)
    case StopWaiting(k) => Moved(s, k, Rendering)
    case Render(k) =>
      var feed := s.fetches[k].feed;
      if feed in s.heads && s.heads[feed].present
      then Moved(s, k, Built(site.render(feed, s.heads[feed].revision)))
      else Moved(s, k, Answered(None))
    case KeepBuilt(k, hasShared) =>
      var entry := BuildEntry(site.libs, s.fetches[k].stage.rendered);
      Moved(Listed(site, s, k, entry), k, if hasShared then Putting(entry) else Answered(Some(entry)))
    case Put(k, failed) =>
      var entry := s.fetches[k].stage.entry;
      var s' := Moved(s, k, Answered(Some(entry)));
      if failed then s'
      else s'.(store := s.store[site.BodyKey(s.fetches[k].feed, entry.revision) := Encode(site.libs, entry)])
  }

  // ------------------------------------------------------------------ the invariant

  // An entry of `feed` that is its rendering at the entry's own revision.
  predicate Genuine(site: Site, feed: string, entry: CachedFeed) {
    entry == site.Entry(feed, entry.revision)
  }

  ghost predicate ListsGenuine(site: Site, s: State) {
    forall r, feed :: r in s.replicas && feed in s.replicas[r].entries ==>
      Genuine(site, feed, s.replicas[r].entries[feed])
  }

  ghost predicate ListsValid(site: Site, s: State) {
    forall r :: r in s.replicas ==> FeedCache.Valid(s.replicas[r], site.capacity)
  }

  ghost predicate StoreGenuine(site: Site, s: State) {
    forall feed, revision :: site.BodyKey(feed, revision) in s.store ==>
      s.store[site.BodyKey(feed, revision)] == Encode(site.libs, site.Entry(feed, revision))
  }

  ghost predicate FetchOk(site: Site, s: State, f: Fetch) {
    && f.feed in s.heads && f.asked <= s.heads[f.feed].revision
    && (f.stage.Built? ==> f.stage.rendered.revision >= f.asked
                           && f.stage.rendered == site.render(f.feed, f.stage.rendered.revision))
    && (f.stage.Putting? ==> f.stage.entry.revision >= f.asked && Genuine(site, f.feed, f.stage.entry))
    && (f.stage.Answered? && f.stage.answer.Some? ==>
          f.stage.answer.value.revision >= f.asked && Genuine(site, f.feed, f.stage.answer.value))
  }

  ghost predicate Inv(site: Site, s: State) {
    && ListsValid(site, s) && ListsGenuine(site, s) && StoreGenuine(site, s)
    && forall k :: k in s.fetches ==> FetchOk(site, s, s.fetches[k])
  }

  lemma ListedOk(site: Site, s: State, k: nat, entry: CachedFeed)
    requires site.Sound() && ListsValid(site, s) && ListsGenuine(site, s)
    requires k in s.fetches && s.fetches[k].replica in s.replicas && Genuine(site, s.fetches[k].feed, entry)
    ensures ListsValid(site, Listed(site, s, k, entry)) && ListsGenuine(site, Listed(site, s, k, entry))
  {
    var f := s.fetches[k];
    FeedCache.KeptShape(s.replicas[f.replica], site.capacity, f.feed, entry);
  }

  // A body found in the shared level is the rendering at the revision asked for.
  lemma FoundGenuine(site: Site, s: State, f: Fetch, failed: bool)
    requires site.Sound() && StoreGenuine(site, s)
    ensures var found := Found(site, s, f, failed);
            found.Some? ==> found.value.revision == f.asked && Genuine(site, f.feed, found.value)
  {
    RoundTrip(site.libs, site.Entry(f.feed, f.asked));
  }

  lemma StoredGenuine(site: Site, s: State, feed: string, entry: CachedFeed)
    requires StoreGenuine(site, s) && Genuine(site, feed, entry)
    ensures StoreGenuine(site, s.(store := s.store[site.BodyKey(feed, entry.revision) := Encode(site.libs, entry)]))
  {
    forall feed', revision' | site.BodyKey(feed', revision') == site.BodyKey(feed, entry.revision)
      ensures feed' == feed && revision' == entry.revision
    {
      KeysDistinct(site.scope, feed', revision', feed, entry.revision);
    }
  }

  lemma LockedGenuine(site: Site, s: State, feed: string, asked: int, mark: Bytes)
    requires StoreGenuine(site, s)
    ensures StoreGenuine(site, s.(store := s.store[site.LockKey(feed, asked) := mark]))
  {
    forall feed', revision' ensures site.BodyKey(feed', revision') != site.LockKey(feed, asked) {
      KeysDistinct(site.scope, feed, asked, feed', revision');
    }
  }

  lemma MovedInv(site: Site, s: State, k: nat, stage: Stage)
    requires Inv(site, s) && k in s.fetches && FetchOk(site, s, s.fetches[k].(stage := stage))
    ensures Inv(site, Moved(s, k, stage))
  {
    var s' := Moved(s, k, stage);
    forall j | j in s'.fetches ensures FetchOk(site, s', s'.fetches[j]) {
      if j != k {
        assert FetchOk(site, s, s.fetches[j]);
      }
    }
  }

  lemma ListedInv(site: Site, s: State, k: nat, entry: CachedFeed)
    requires site.Sound() && Inv(site, s)
    requires k in s.fetches && s.fetches[k].replica in s.replicas && Genuine(site, s.fetches[k].feed, entry)
    ensures Inv(site, Listed(site, s, k, entry))
  {
    ListedOk(site, s, k, entry);
    var s' := Listed(site, s, k, entry);
    forall j | j in s'.fetches ensures FetchOk(site, s', s'.fetches[j]) {
      assert FetchOk(site, s, s.fetches[j]);
    }
  }

  lemma AnsweredOrInv(site: Site, s: State, k: nat, failed: bool, otherwise: Stage)
    requires site.Sound() && Inv(site, s)
    requires k in s.fetches && s.fetches[k].replica in s.replicas
    requires otherwise.Locking? || otherwise.Waiting?
    ensures Inv(site, AnsweredOr(site, s, k, failed, otherwise))
  {
    FoundGenuine(site, s, s.fetches[k], failed);
    assert FetchOk(site, s, s.fetches[k]);
    var found := Found(site, s, s.fetches[k], failed);
    if found.Some? {
      ListedInv(site, s, k, found.value);
      MovedInv(site, Listed(site, s, k, found.value), k, Answered(found));
    } else {
      MovedInv(site, s, k, otherwise);
    }
  }

  lemma AskLocalInv(site: Site, s: State, k: nat, hasShared: bool)
    requires site.Sound() && Inv(site, s) && Enabled(s, AskLocal(k, hasShared))
    ensures Inv(site, Next(site, s, AskLocal(k, hasShared)))
  {
    var f := s.fetches[k];
    var l := s.replicas[f.replica];
    assert FetchOk(site, s, f);
    if FeedCache.Hits(l, f.feed, f.asked) {
      FeedCache.RefreshedShape(l, site.capacity, f.feed);
      var s' := s.(replicas := s.replicas[f.replica := FeedCache.Refreshed(l, f.feed)]);
      forall j | j in s'.fetches ensures FetchOk(site, s', s'.fetches[j]) {
        assert FetchOk(site, s, s.fetches[j]);
      }
      assert Genuine(site, f.feed, l.entries[f.feed]);
      MovedInv(site, s', k, Answered(Some(l.entries[f.feed])));
    } else {
      MovedInv(site, s, k, if hasShared then Shared else Rendering);
    }
  }

  // A step that changes none of the fetches.
  lemma OutsideInv(site: Site, s: State, step: Step)
    requires site.Sound() && Inv(site, s) && Enabled(s, step)
    requires step.Publish? || step.Remove? || step.Expire? || step.Invalidate? || step.Request?
    ensures Inv(site, Next(site, s, step))
  {
    var s' := Next(site, s, step);
    if step.Invalidate? {
      FeedCache.DroppedShape(s.replicas[step.replica], site.capacity, step.feed);
    }
    forall j | j in s'.fetches ensures FetchOk(site, s', s'.fetches[j]) {
      if j in s.fetches {
        assert FetchOk(site, s, s.fetches[j]);
      }
    }
  }

  lemma TryLockInv(site: Site, s: State, k: nat, failed: bool)
    requires site.Sound() && Inv(site, s) && Enabled(s, TryLock(k, failed))
    ensures Inv(site, Next(site, s, TryLock(k, failed)))
  {
    var f := s.fetches[k];
    assert FetchOk(site, s, f);
    var key := site.LockKey(f.feed, f.asked);
    if failed {
      MovedInv(site, s, k, Rendering);
    } else if key in s.store {
      MovedInv(site, s, k, Waiting);
    } else {
      LockedGenuine(site, s, f.feed, f.asked, [49]);
      var s' := s.(store := s.store[key := [49]]);
      forall j | j in s'.fetches ensures FetchOk(site, s', s'.fetches[j]) {
        assert FetchOk(site, s, s.fetches[j]);
      }
      MovedInv(site, s', k, Rendering);
    }
  }

  lemma PutInv(site: Site, s: State, k: nat, failed: bool)
    requires site.Sound() && Inv(site, s) && Enabled(s, Put(k, failed))
    ensures Inv(site, Next(site, s, Put(k, failed)))
  {
    var f := s.fetches[k];
    assert FetchOk(site, s, f);
    MovedInv(site, s, k, Answered(Some(f.stage.entry)));
    var s1 := Moved(s, k, Answered(Some(f.stage.entry)));
    if !failed {
      StoredGenuine(site, s1, f.feed, f.stage.entry);
      var s' := Next(site, s, Put(k, failed));
      forall j | j in s'.fetches ensures FetchOk(site, s', s'.fetches[j]) {
        assert FetchOk(site, s1, s1.fetches[j]);
      }
    }
  }

  lemma BuildInv(site: Site, s: State, step: Step)
    requires site.Sound() && Inv(site, s) && Enabled(s, step) && (step.Render? || step.KeepBuilt?)
    ensures Inv(site, Next(site, s, step))
  {
    var k := step.fetch;
    var f := s.fetches[k];
    assert FetchOk(site, s, f);
    if step.Render? {
      MovedInv(site, s, k, if s.heads[f.feed].present then Built(site.render(f.feed, s.heads[f.feed].revision))
                           else Answered(None));
    } else {
      var entry := BuildEntry(site.libs, f.stage.rendered);
      ListedInv(site, s, k, entry);
      MovedInv(site, Listed(site, s, k, entry), k, if step.hasShared then Putting(entry) else Answered(Some(entry)));
    }
  }

  lemma NextInv(site: Site, s: State, step: Step)
    requires site.Sound() && Inv(site, s) && Enabled(s, step)
    ensures Inv(site, Next(site, s, step))
  {
    match step
    case AskLocal(k, hasShared) => AskLocalInv(site, s, k, hasShared);
    case AskShared(k, failed) => AnsweredOrInv(site, s, k, failed, Locking);
    case TryLock(k, failed) => TryLockInv(site, s, k, failed);
    case Poll(k, failed) => AnsweredOrInv(site, s, k, failed, Waiting);
    case StopWaiting(k) =>
      assert FetchOk(site, s, s.fetches[k]);
      MovedInv(site, s, k, Rendering);
    case Render(_) => BuildInv(site, s, step);
    case KeepBuilt(_, _) => BuildInv(site, s, step);
    case Put(k, failed) => PutInv(site, s, k, failed);
    case _ => OutsideInv(site, s, step);
  }

  predicate Runs(site: Site, s: State, steps: seq<Step>)
    decreases |steps|
  {
    steps == [] || (Enabled(s, steps[0]) && Runs(site, Next(site, s, steps[0]), steps[1..]))
  }

  function Run(site: Site, s: State, steps: seq<Step>): State
    requires Runs(site, s, steps)
    decreases |steps|
  {
    if steps == [] then s else Run(site, Next(site, s, steps[0]), steps[1..])
  }

  lemma {:induction false} RunInv(site: Site, s: State, steps: seq<Step>)
    requires site.Sound() && Inv(site, s) && Runs(site, s, steps)
    ensures Inv(site, Run(site, s, steps))
    decreases |steps|
  {
    if steps != [] {
      NextInv(site, s, steps[0]);
      RunInv(site, Next(site, s, steps[0]), steps[1..]);
    }
  }

  function NewSite(heads: map<string, Head>, replicas: set<nat>): State {
    State(heads, map r | r in replicas :: FeedCache.EMPTY, map[], map[])
  }

  // The entry's body is the Feed's rendering at the entry's revision, its date and type are that
  // rendering's, and its tag and its gzip body are made of that body.
  ghost predicate Renders(site: Site, feed: string, e: CachedFeed) {
    var r := site.render(feed, e.revision);
    && e.body == r.body && e.lastModified == r.lastModified && e.contentType == r.contentType
    && e.etag == site.libs.etag(r.body) && e.gzipBody == Some(site.libs.compress(r.body))
  }

  // Whatever the replicas do, every answered request got the rendering of its Feed at the
  // entry's own revision, which is not older than the revision it asked for; and so does
  // every entry waiting in any list.
  lemma AnswersAreRenderings(
    site: Site, heads: map<string, Head>, replicas: set<nat>, steps: seq<Step>, k: nat, r: nat, feed: string)
    requires site.Sound() && Runs(site, NewSite(heads, replicas), steps)
    ensures var s := Run(site, NewSite(heads, replicas), steps);
            && (k in s.fetches && s.fetches[k].stage.Answered? && s.fetches[k].stage.answer.Some? ==>
                  var f := s.fetches[k];
                  var e := f.stage.answer.value;
                  Renders(site, f.feed, e) && e.revision >= f.asked)
            && (r in s.replicas && feed in s.replicas[r].entries ==>
                  Renders(site, feed, s.replicas[r].entries[feed]))
  {
    RunInv(site, NewSite(heads, replicas), steps);
    var s := Run(site, NewSite(heads, replicas), steps);
    if k in s.fetches {
      assert FetchOk(site, s, s.fetches[k]);
    }
    if r in s.replicas && feed in s.replicas[r].entries {
      assert Genuine(site, feed, s.replicas[r].entries[feed]);
    }
  }

  // ------------------------------------------------------------------ once across replicas

  predicate Asks(s: State, k: nat, feed: string, revision: int) {
    k in s.fetches && s.fetches[k].feed == feed && s.fetches[k].asked == revision
  }

  // The requests for this revision that are to render it.
  function Renderers(s: State, feed: string, revision: int): set<nat> {
    set k | k in s.fetches && Asks(s, k, feed, revision) && s.fetches[k].stage.Rendering?
  }

  // The requests for this revision reach the shared level, and its lock does not fail, does not
  // expire and is waited for.
  predicate Undisturbed(site: Site, s: State, step: Step, feed: string, revision: int) {
    match step
    case AskLocal(k, hasShared) => Asks(s, k, feed, revision) ==> hasShared
    case TryLock(k, failed) => Asks(s, k, feed, revision) ==> !failed
    case StopWaiting(k) => !Asks(s, k, feed, revision)
    case Expire(key) => key != site.LockKey(feed, revision)
    case _ => true
  }

  predicate AllUndisturbed(site: Site, s: State, steps: seq<Step>, feed: string, revision: int)
    requires Runs(site, s, steps)
    decreases |steps|
  {
    steps == [] ||
    (Undisturbed(site, s, steps[0], feed, revision)
     && AllUndisturbed(site, Next(site, s, steps[0]), steps[1..], feed, revision))
  }

  predicate RendersNow(s: State, step: Step, feed: string, revision: int) {
    step.Render? && Asks(s, step.fetch, feed, revision)
  }

  // How often this revision was rendered for a request.
  function TimesRendered(site: Site, s: State, steps: seq<Step>, feed: string, revision: int): nat
    requires Runs(site, s, steps)
    decreases |steps|
  {
    if steps == [] then 0
    else
      (if RendersNow(s, steps[0], feed, revision) then 1 else 0)
      + TimesRendered(site, Next(site, s, steps[0]), steps[1..], feed, revision)
  }

  // Without the lock nobody has rendered, or is to; with it, at most one.
  ghost predicate OneRenders(site: Site, s: State, feed: string, revision: int, n: nat) {
    && n + |Renderers(s, feed, revision)| <= 1
    && (site.LockKey(feed, revision) !in s.store ==> n == 0 && Renderers(s, feed, revision) == {})
  }

  lemma LockKeysDistinct(site: Site, feed: string, revision: int, feed': string, revision': int)
    requires site.LockKey(feed, revision) == site.LockKey(feed', revision')
    ensures feed == feed' && revision == revision'
  {
    var prefix := LOCK_PREFIX + site.scope;
    SignedHasNoColon(revision);
    SignedHasNoColon(revision');
    LastColon(prefix + feed, prefix + feed', Signed(revision), Signed(revision'));
    assert feed == (prefix + feed)[|prefix|..] && feed' == (prefix + feed')[|prefix|..];
    SignedInjective(revision, revision');
  }

  // The lock is gained: one is to render, and none was before.
  lemma LockGained(site: Site, s: State, k: nat, feed: string, revision: int, n: nat)
    requires Enabled(s, TryLock(k, false)) && OneRenders(site, s, feed, revision, n)
    requires Undisturbed(site, s, TryLock(k, false), feed, revision)
    ensures OneRenders(site, Next(site, s, TryLock(k, false)), feed, revision, n)
  {
    var s', f := Next(site, s, TryLock(k, false)), s.fetches[k];
    if Asks(s, k, feed, revision) {
      if site.LockKey(feed, revision) in s.store {
        assert Renderers(s', feed, revision) == Renderers(s, feed, revision);
      } else {
        assert Renderers(s', feed, revision) == {k};
      }
    } else {
      assert Renderers(s', feed, revision) == Renderers(s, feed, revision);
      if site.LockKey(f.feed, f.asked) == site.LockKey(feed, revision) {
        LockKeysDistinct(site, f.feed, f.asked, feed, revision);
      }
    }
  }

  lemma RenderTaken(site: Site, s: State, k: nat, feed: string, revision: int, n: nat)
    requires Enabled(s, Render(k)) && Asks(s, k, feed, revision) && OneRenders(site, s, feed, revision, n)
    ensures OneRenders(site, Next(site, s, Render(k)), feed, revision, n + 1)
  {
    var s' := Next(site, s, Render(k));
    assert k in Renderers(s, feed, revision);
    assert Renderers(s', feed, revision) == Renderers(s, feed, revision) - {k};
  }

  // Any other step adds no request that is to render this revision, and keeps its lock.
  lemma OthersRenderNot(site: Site, s: State, step: Step, feed: string, revision: int)
    requires Enabled(s, step) && Undisturbed(site, s, step, feed, revision)
    requires !RendersNow(s, step, feed, revision) && !(step.TryLock? && !step.failed)
    ensures Renderers(Next(site, s, step), feed, revision) <= Renderers(s, feed, revision)
    ensures site.LockKey(feed, revision) in s.store ==> site.LockKey(feed, revision) in Next(site, s, step).store
  {
  }

  lemma StepRendersOnce(site: Site, s: State, step: Step, feed: string, revision: int, n: nat)
    requires Enabled(s, step) && Undisturbed(site, s, step, feed, revision)
    requires OneRenders(site, s, feed, revision, n)
    ensures OneRenders(site, Next(site, s, step), feed, revision,
                       n + if RendersNow(s, step, feed, revision) then 1 else 0)
  {
    if RendersNow(s, step, feed, revision) {
      RenderTaken(site, s, step.fetch, feed, revision, n);
    } else if step.TryLock? && !step.failed {
      LockGained(site, s, step.fetch, feed, revision, n);
    } else {
      OthersRenderNot(site, s, step, feed, revision);
      SubsetSize(Renderers(Next(site, s, step), feed, revision), Renderers(s, feed, revision));
    }
  }

  lemma {:induction false} RunRendersOnce(
    site: Site, s: State, steps: seq<Step>, feed: string, revision: int, n: nat)
    requires Runs(site, s, steps) && AllUndisturbed(site, s, steps, feed, revision)
    requires OneRenders(site, s, feed, revision, n)
    ensures n + TimesRendered(site, s, steps, feed, revision) <= 1
    decreases |steps|
  {
    if steps != [] {
      StepRendersOnce(site, s, steps[0], feed, revision, n);
      RunRendersOnce(site, Next(site, s, steps[0]), steps[1..], feed, revision,
                     n + if RendersNow(s, steps[0], feed, revision) then 1 else 0);
    }
  }

  // However many requests of however many replicas ask for one revision, it is rendered once at
  // most, unless one of them has no shared level, or the lock fails, expires or is not waited for.
  lemma RendersOnce(
    site: Site, heads: map<string, Head>, replicas: set<nat>, steps: seq<Step>, feed: string, revision: int)
    requires Runs(site, NewSite(heads, replicas), steps)
    requires AllUndisturbed(site, NewSite(heads, replicas), steps, feed, revision)
    ensures TimesRendered(site, NewSite(heads, replicas), steps, feed, revision) <= 1
  {
    assert Renderers(NewSite(heads, replicas), feed, revision) == {};
    RunRendersOnce(site, NewSite(heads, replicas), steps, feed, revision, 0);
  }
}
