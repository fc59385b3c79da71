/**
 The audio player's save and reload machine (web/src/stores/player.ts). Positions are `real`
 seconds, `now` is wall-clock milliseconds. A call's storage writes may be refused, so what
 storage holds afterwards is given with the call and checked against what was written.
 */
module Player {
  import opened Basics
  import opened Listening

  const SAVE_INTERVAL_MS := 5_000

  // `playUrl` is whether the track's URL is one a reload takes back.
  datatype Track = Track(itemId: string, playUrl: bool, durationSeconds: Option<real>)

  datatype Restored = Restored(itemId: string, t: real)

  datatype State = State(
    track: Option<Track>, playing: bool, currentTime: real, duration: Option<real>, rate: real,
    restored: Option<Restored>, lastSavedAt: int,
    snapshot: Option<Track>, savedRate: real, listening: map<string, Entry>)

  datatype Call =
    | Load(now: int)                  // a new page
    | ReloadPlayer(now: int)
    | Save(ending: bool, now: int)
    | Finish(now: int)
    | Play(next: Track, now: int)
    | Pause
    | Resume
    | TogglePlay
    | Stop(now: int)
    | Fail
    | Seek(seconds: real)
    | SetRate(rate: real)
    | Report(playing: Option<bool>, time: Option<real>, duration: Option<Option<real>>, now: int)

  // ------------------------------------------------------------------ saving

  function KnownDuration(s: State): Option<real> {
    if s.duration.Some? && s.duration.value > 0.0 then s.duration
    else if s.track.Some? && s.track.value.durationSeconds.Some? && s.track.value.durationSeconds.value > 0.0
      then s.track.value.durationSeconds
    else None
  }

  // Nothing was heard since the track came up at this point.
  predicate AtRest(s: State) {
    s.track.None? || s.restored == Some(Restored(s.track.value.itemId, s.currentTime))
  }

  function EntryOf(s: State, ending: bool, now: int): Entry
    requires s.track.Some?
  {
    var d := KnownDuration(s);
    var previous := Find(s.listening, s.track.value.itemId);
    Entry(s.currentTime, d, now,
          || (ending && d.Some? && d.value - s.currentTime < FINISHED_TAIL_SECONDS)
          || (previous.Some? && previous.value.finished && s.currentTime <= RESUME_MIN_SECONDS))
  }

  // What storage may hold after a save.
  ghost predicate Saves(s: State, ending: bool, now: int, stored: map<string, Entry>) {
    if AtRest(s) then stored == s.listening
    else Written(s.listening, s.track.value.itemId, EntryOf(s, ending, now), stored)
  }

  function Saved(s: State, now: int, stored: map<string, Entry>): State {
    if AtRest(s) then s else s.(restored := None, lastSavedAt := now, listening := stored)
  }

  // ------------------------------------------------------------------ starting

  function ReadSnapshot(s: State): Option<Track> {
    if s.snapshot.Some? && s.snapshot.value.itemId != "" && s.snapshot.value.playUrl then s.snapshot else None
  }

  function StartDuration(entry: Option<Entry>, track: Track): Option<real> {
    if entry.Some? && entry.value.d.Some? then entry.value.d
    else if track.durationSeconds.Some? then track.durationSeconds
    else Some(0.0)
  }

  // Bring a track up at its resume point.
  function Started(s: State, track: Track, playing: bool, now: int): State {
    var entry := Find(s.listening, track.itemId);
    var t := ResumeAt(entry, now);
    s.(track := Some(track), playing := playing, currentTime := t,
       duration := StartDuration(entry, track), restored := Some(Restored(track.itemId, t)))
  }

  function Idle(s: State): State {
    s.(track := None, playing := false, currentTime := 0.0, duration := Some(0.0))
  }

  function Initial(s: State, now: int): State {
    var idle := Idle(s.(rate := s.savedRate, lastSavedAt := 0));
    if ReadSnapshot(s).None? then idle else Started(idle, ReadSnapshot(s).value, false, now)
  }

  function Sought(s: State, seconds: real): real {
    var low := if seconds > 0.0 then seconds else 0.0;
    if s.duration.Some? && s.duration.value > 0.0 && low > s.duration.value then s.duration.value else low
  }

  function Reported(s: State, c: Call): State
    requires c.Report?
  {
    s.(playing := c.playing.GetOr(s.playing), currentTime := c.time.GetOr(s.currentTime),
       duration := c.duration.GetOr(s.duration))
  }

  predicate ReportSaves(s: State, c: Call)
    requires c.Report?
  {
    c.time.Some? && s.track.Some? && c.now - s.lastSavedAt >= SAVE_INTERVAL_MS
  }

  // ------------------------------------------------------------------ one call

  predicate Toggles(s: State, c: Call) {
    c.Play? && s.track.Some? && s.track.value.itemId == c.next.itemId
  }

  // The listening entries storage may hold after a call.
  ghost predicate Stores(s: State, c: Call, stored: map<string, Entry>) {
    match c
    case Save(ending, now) => Saves(s, ending, now, stored)
    case Stop(now) => Saves(s, true, now, stored)
    case Play(_, now) => if Toggles(s, c) then stored == s.listening else Saves(s, true, now, stored)
    case Finish(now) =>
      if s.track.None? then stored == s.listening
      else Written(s.listening, s.track.value.itemId, Entry(s.currentTime, KnownDuration(s), now, true), stored)
    case Report(_, _, _, now) =>
      if ReportSaves(s, c) then Saves(Reported(s, c), false, now, stored) else stored == s.listening
    case _ => stored == s.listening
  }

  // The track a reload finds after a call, when storage takes it.
  function SnapshotFor(s: State, c: Call): Option<Track> {
    match c
    case Play(next, _) => if Toggles(s, c) then s.snapshot else Some(next)
    case Stop(_) => None
    case Fail => None
    case _ => s.snapshot
  }

  // All the rest of the new state.
  function After(s: State, c: Call, stored: map<string, Entry>): State {
    match c
    case Load(now) => Initial(s.(restored := None), now)
    case ReloadPlayer(now) => Initial(s, now)
    case Save(_, now) => Saved(s, now, stored)
    case Finish(now) => if s.track.None? then s else s.(playing := false, lastSavedAt := now, listening := stored)
    case Play(next, now) =>
      if Toggles(s, c) then s.(playing := !s.playing) else Started(Saved(s, now, stored), next, true, now)
    case Pause => s.(playing := false)
    case Resume => if s.track.Some? then s.(playing := true) else s
    case TogglePlay => if s.track.None? then s else s.(playing := !s.playing)
    case Stop(now) => Idle(Saved(s, now, stored))
    case Fail => s.(playing := false)
    case Seek(seconds) => s.(currentTime := Sought(s, seconds))
    case SetRate(rate) => s.(rate := rate, savedRate := rate)
    case Report(_, _, _, now) => if ReportSaves(s, c) then Saved(Reported(s, c), now, stored) else Reported(s, c)
  }

  ghost predicate Next(s: State, c: Call, s': State) {
    && Stores(s, c, s'.listening)
    && (s'.snapshot == s.snapshot || s'.snapshot == SnapshotFor(s, c))
    && s' == After(s, c, s'.listening).(snapshot := s'.snapshot)
  }

  // ------------------------------------------------------------------ nothing heard, nothing saved

  // The call leaves the position where it is: every call but the end of the track and a move.
  predicate Still(s: State, c: Call) {
    match c
    case Finish(_) => false
    case Seek(seconds) => Sought(s, seconds) == s.currentTime
    case Report(_, time, _, _) => time.None? || time.value == s.currentTime
    case _ => true
  }

  // A run of such calls.
  ghost predicate StillRun(states: seq<State>, calls: seq<Call>) {
    && |states| == |calls| + 1
    && forall i :: 0 <= i < |calls| ==> Next(states[i], calls[i], states[i + 1]) && Still(states[i], calls[i])
  }

  lemma StartedAtRest(s: State, track: Track, playing: bool, now: int)
    ensures AtRest(Started(s, track, playing, now)) && Started(s, track, playing, now).listening == s.listening
  {
  }

  lemma StillStep(s: State, c: Call, s': State)
    requires AtRest(s) && Next(s, c, s') && Still(s, c)
    ensures AtRest(s') && s'.listening == s.listening
  {
  }

  // However often the page is reloaded, saved, paused, stopped or played from where it stands,
  // whatever the times, no listening entry is touched.
  lemma {:induction false} RestingRunWritesNothing(states: seq<State>, calls: seq<Call>)
    requires StillRun(states, calls) && AtRest(states[0])
    ensures AtRest(states[|calls|]) && states[|calls|].listening == states[0].listening
    decreases |calls|
  {
    if calls != [] {
      var n := |calls| - 1;
      assert StillRun(states[..|calls|], calls[..n]);
      RestingRunWritesNothing(states[..|calls|], calls[..n]);
      StillStep(states[n], calls[n], states[|calls|]);
    }
  }

  // A reload writes nothing and is at rest, whatever came before it.
  lemma LoadIsAtRest(s: State, c: Call, s': State)
    requires (c.Load? || c.ReloadPlayer?) && Next(s, c, s')
    ensures AtRest(s') && s'.listening == s.listening
    ensures s'.track.Some? ==> s'.currentTime == ResumeAt(Find(s.listening, s'.track.value.itemId), c.now)
  {
  }

  // So the auto-rewind never compounds: at a reload after any number of such calls, reloads
  // among them, the track stands where the first entry says, at most 20 s back.
  lemma RewindNeverCompounds(states: seq<State>, calls: seq<Call>, c: Call, s': State)
    requires StillRun(states, calls) && AtRest(states[0])
    requires (c.Load? || c.ReloadPlayer?) && Next(states[|calls|], c, s') && s'.track.Some?
    ensures var entry := Find(states[0].listening, s'.track.value.itemId);
            && s'.currentTime == ResumeAt(entry, c.now)
            && (entry.Some? && !StartsOver(entry.value) ==>
                  entry.value.t - 20.0 <= s'.currentTime && (entry.value.t >= 0.0 ==> s'.currentTime <= entry.value.t))
  {
    RestingRunWritesNothing(states, calls);
    LoadIsAtRest(states[|calls|], c, s');
    var entry := Find(states[0].listening, s'.track.value.itemId);
    if entry.Some? {
      ResumeBounds(entry.value, c.now, c.now);
    }
  }

  // ------------------------------------------------------------------ from any state

  // What such a run may change, begun anywhere: only the position of the track that was up then,
  // and only to where it stood.
  ghost predicate KeptSince(s0: State, s: State) {
    && (forall id <- s.listening ::
          || (id in s0.listening && s.listening[id] == s0.listening[id])
          || (s0.track.Some? && id == s0.track.value.itemId && s.listening[id].t == s0.currentTime))
    && (AtRest(s) || (s0.track.Some? && s.track.Some? && s.track.value.itemId == s0.track.value.itemId
                      && s.currentTime == s0.currentTime))
  }

  lemma WriteKeeps(s0: State, s: State, e: Entry, stored: map<string, Entry>)
    requires KeptSince(s0, s) && !AtRest(s) && e.t == s.currentTime
    requires Written(s.listening, s.track.value.itemId, e, stored)
    ensures forall id <- stored ::
              || (id in s0.listening && stored[id] == s0.listening[id])
              || (s0.track.Some? && id == s0.track.value.itemId && stored[id].t == s0.currentTime)
  {
    forall id | id in stored
      ensures || (id in s0.listening && stored[id] == s0.listening[id])
              || (s0.track.Some? && id == s0.track.value.itemId && stored[id].t == s0.currentTime)
    {
      if stored != s.listening {
        assert stored[id] == s.listening[s.track.value.itemId := e][id];
      }
    }
  }

  lemma SavesKeep(s0: State, s: State, ending: bool, now: int, stored: map<string, Entry>)
    requires KeptSince(s0, s) && Saves(s, ending, now, stored)
    ensures KeptSince(s0, Saved(s, now, stored))
  {
    if !AtRest(s) {
      WriteKeeps(s0, s, EntryOf(s, ending, now), stored);
    }
  }

  lemma KeptStep(s0: State, s: State, c: Call, s': State)
    requires KeptSince(s0, s) && Next(s, c, s') && Still(s, c)
    ensures KeptSince(s0, s')
  {
    match c
    case Save(ending, now) => SavesKeep(s0, s, ending, now, s'.listening);
    case Stop(now) => SavesKeep(s0, s, true, now, s'.listening);
    case Play(next, now) =>
      if !Toggles(s, c) {
        SavesKeep(s0, s, true, now, s'.listening);
        StartedAtRest(Saved(s, now, s'.listening), next, true, now);
      }
    case Report(_, _, _, now) =>
      if ReportSaves(s, c) {
        assert KeptSince(s0, Reported(s, c));
        SavesKeep(s0, Reported(s, c), false, now, s'.listening);
      }
    case _ =>
  }

  lemma {:induction false} StillRunKeeps(states: seq<State>, calls: seq<Call>)
    requires StillRun(states, calls)
    ensures KeptSince(states[0], states[|calls|])
    decreases |calls|
  {
    if calls != [] {
      var n := |calls| - 1;
      assert StillRun(states[..|calls|], calls[..n]);
      StillRunKeeps(states[..|calls|], calls[..n]);
      KeptStep(states[0], states[n], calls[n], states[|calls|]);
    }
  }

  // Writing an entry that is there already drops none.
  lemma RewriteDropsNone(before: map<string, Entry>, id: string, e: Entry, stored: map<string, Entry>)
    requires id in before && |before| <= MAX_ENTRIES && Written(before, id, e, stored)
    ensures stored.Keys == before.Keys
  {
    assert before[id := e].Keys == before.Keys;
    assert |before[id := e]| == |before[id := e].Keys| == |before.Keys| == |before|;
  }

  lemma StillStepSpares(s0: State, s: State, c: Call, s': State)
    requires KeptSince(s0, s) && Next(s, c, s') && Still(s, c)
    requires s0.track.Some? && s0.track.value.itemId in s.listening && |s.listening| <= MAX_ENTRIES
    ensures s'.listening.Keys == s.listening.Keys
  {
    if s'.listening != s.listening {
      var u := if c.Report? then Reported(s, c) else s;
      var e := match c
        case Save(ending, now) => EntryOf(u, ending, now)
        case Report(_, _, _, now) => EntryOf(u, false, now)
        case Stop(now) => EntryOf(u, true, now)
        case Play(_, now) => EntryOf(u, true, now)
        case _ => Entry(0.0, None, 0, false);
      assert !AtRest(u);
      RewriteDropsNone(s.listening, s0.track.value.itemId, e, s'.listening);
    }
  }

  // Such a run drops no entry, once the track's own is stored.
  lemma {:induction false} StillRunSpares(states: seq<State>, calls: seq<Call>)
    requires StillRun(states, calls)
    requires states[0].track.Some? && states[0].track.value.itemId in states[0].listening
    requires |states[0].listening| <= MAX_ENTRIES
    ensures states[|calls|].listening.Keys == states[0].listening.Keys
    decreases |calls|
  {
    if calls != [] {
      var n := |calls| - 1;
      assert StillRun(states[..|calls|], calls[..n]);
      StillRunSpares(states[..|calls|], calls[..n]);
      StillRunKeeps(states[..|calls|], calls[..n]);
      assert |states[n].listening| == |states[n].listening.Keys| == |states[0].listening|;
      StillStepSpares(states[0], states[n], calls[n], states[|calls|]);
    }
  }

  // A position that was heard comes back: saved where storage takes it, and after any such run a
  // reload resumes that track there, at most 20 s back (or at the start when it starts over).
  lemma HeardPositionComesBack(
    s: State, ending: bool, now: int, saved: State, states: seq<State>, calls: seq<Call>, c: Call, s': State)
    requires !AtRest(s) && Next(s, Save(ending, now), saved)
    requires Trimmed(s.listening[s.track.value.itemId := EntryOf(s, ending, now)], saved.listening)
    requires |set k <- s.listening | k != s.track.value.itemId && s.listening[k].at >= now| < MAX_ENTRIES
    requires StillRun(states, calls) && states[0] == saved
    requires (c.Load? || c.ReloadPlayer?) && Next(states[|calls|], c, s')
    requires s'.track.Some? && s'.track.value.itemId == s.track.value.itemId
    ensures s.track.value.itemId in saved.listening && saved.listening[s.track.value.itemId].t == s.currentTime
    ensures s.track.value.itemId in states[|calls|].listening
    ensures var entry := states[|calls|].listening[s.track.value.itemId];
            && entry.t == s.currentTime
            && (if StartsOver(entry) then s'.currentTime == 0.0
                else && s.currentTime - 20.0 <= s'.currentTime
                     && (s.currentTime >= 0.0 ==> s'.currentTime <= s.currentTime))
  {
    var item := s.track.value.itemId;
    var all := s.listening[item := EntryOf(s, ending, now)];
    assert (set k <- all | k != item && all[k].at >= all[item].at)
        == (set k <- s.listening | k != item && s.listening[k].at >= now);
    DroppedWhenOld(all, saved.listening, item);
    StillRunSpares(states, calls);
    StillRunKeeps(states, calls);
    LoadIsAtRest(states[|calls|], c, s');
    ResumeBounds(states[|calls|].listening[item], c.now, c.now);
  }

  // ------------------------------------------------------------------ what is stored is read back

  ghost predicate Sound(s: State) {
    s.currentTime >= 0.0 && forall id <- s.listening :: IsEntry(s.listening[id])
  }

  lemma StoresSound(s: State, id: string, e: Entry, stored: map<string, Entry>)
    requires Sound(s) && IsEntry(e) && Written(s.listening, id, e, stored)
    ensures forall k <- stored :: IsEntry(stored[k])
  {
    assert stored == s.listening || forall k <- stored :: stored[k] == s.listening[id := e][k];
  }

  // As long as the element reports no negative position, every entry stored is one that reading
  // takes back, and the position stays at or after the start.
  lemma SoundStep(s: State, c: Call, s': State)
    requires Sound(s) && Next(s, c, s')
    requires c.Report? && c.time.Some? ==> c.time.value >= 0.0
    ensures Sound(s')
  {
    var u := if c.Report? then Reported(s, c) else s;
    assert KnownDuration(u).None? || KnownDuration(u).value > 0.0;
    if s'.listening != s.listening {
      var id := u.track.value.itemId;
      var e := match c
        case Save(ending, now) => EntryOf(u, ending, now)
        case Finish(now) => Entry(u.currentTime, KnownDuration(u), now, true)
        case Report(_, _, _, now) => EntryOf(u, false, now)
        case Stop(now) => EntryOf(u, true, now)
        case Play(_, now) => EntryOf(u, true, now)
        case _ => Entry(0.0, None, 0, false);
      StoresSound(u, id, e, s'.listening);
    }
    if c.Load? || c.ReloadPlayer? || c.Play? {
      var entry := if s'.track.Some? then Find(s'.listening, s'.track.value.itemId) else None;
      if entry.Some? && s'.track.Some? {
        ResumeBounds(entry.value, c.now, c.now);
      }
    }
  }

  // ------------------------------------------------------------------ Finished

  // The Episode ends within 30 s of where it stands, as far as its length is known.
  predicate NearKnownEnd(s: State) {
    KnownDuration(s).Some? && KnownDuration(s).value - s.currentTime < FINISHED_TAIL_SECONDS
  }

  // Storage took the entry a finish, or a save, writes of the track that is up.
  ghost predicate TookFinish(s: State, now: int, stored: map<string, Entry>) {
    s.track.Some? && Find(stored, s.track.value.itemId) == Some(Entry(s.currentTime, KnownDuration(s), now, true))
  }

  ghost predicate TookSave(s: State, ending: bool, now: int, stored: map<string, Entry>) {
    s.track.Some? && Find(stored, s.track.value.itemId) == Some(EntryOf(s, ending, now))
  }

  // A save of a Finished Episode that storage takes keeps it Finished exactly when it is within
  // its first 10 s, or is being stopped near a known end.
  lemma FinishedStaysIff(s: State, ending: bool, now: int, s': State)
    requires Next(s, Save(ending, now), s') && !AtRest(s) && TookSave(s, ending, now, s'.listening)
    requires s.track.value.itemId in s.listening && s.listening[s.track.value.itemId].finished
    ensures s'.listening[s.track.value.itemId].finished
       <==> s.currentTime <= RESUME_MIN_SECONDS || (ending && NearKnownEnd(s))
  {
  }

  // Played to its end and reloaded, an Episode starts over.
  lemma FinishedStartsOver(s: State, s1: State, s2: State, ended: int, now: int)
    requires Next(s, Finish(ended), s1) && TookFinish(s, ended, s1.listening)
    requires Next(s1, Load(now), s2) && s2.track.Some? && s2.track.value.itemId == s.track.value.itemId
    ensures s2.currentTime == 0.0
  {
  }

  // With a save in between (a pause, a seek, a hidden page), it starts over exactly when the save
  // had nothing to write, it stood in its first 10 s, its end is known to be within 30 s, or the
  // auto-rewind takes it back to its start.
  lemma FinishedStartsOverIff(
    s: State, s1: State, s2: State, s3: State, ended: int, ending: bool, saved: int, now: int)
    requires Next(s, Finish(ended), s1) && TookFinish(s, ended, s1.listening)
    requires Next(s1, Save(ending, saved), s2) && (!AtRest(s1) ==> TookSave(s1, ending, saved, s2.listening))
    requires Next(s2, Load(now), s3) && s3.track.Some? && s3.track.value.itemId == s.track.value.itemId
    ensures s3.currentTime == 0.0
       <==> || AtRest(s) || s.currentTime <= RESUME_MIN_SECONDS || NearKnownEnd(s)
            || s.currentTime <= Rewind(now - saved)
  {
  }

  // ------------------------------------------------------------------ Finished, over whole runs

  // The state a call saves, if it saves: nothing is saved at rest.
  function SavePoint(s: State, c: Call): Option<State> {
    var u := if c.Report? then Reported(s, c) else s;
    if AtRest(u) then None
    else
      match c
      case Save(_, _) => Some(u)
      case Stop(_) => Some(u)
      case Play(_, _) => if Toggles(s, c) then None else Some(u)
      case Report(_, _, _, _) => if ReportSaves(s, c) then Some(u) else None
      case _ => None
  }

  function Ending(c: Call): bool {
    match c
    case Save(ending, _) => ending
    case Report(_, _, _, _) => false
    case _ => true
  }

  function TimeOf(c: Call): int {
    match c
    case Load(now) => now
    case ReloadPlayer(now) => now
    case Save(_, now) => now
    case Finish(now) => now
    case Play(_, now) => now
    case Stop(now) => now
    case Report(_, _, _, now) => now
    case _ => 0
  }

  // Storage takes every save of the run.
  ghost predicate SavesTaken(states: seq<State>, calls: seq<Call>)
    requires |states| == |calls| + 1
  {
    forall i :: 0 <= i < |calls| && SavePoint(states[i], calls[i]).Some? ==>
      TookSave(SavePoint(states[i], calls[i]).value, Ending(calls[i]), TimeOf(calls[i]), states[i + 1].listening)
  }

  // The last call that saved; the number of calls when none did.
  function LastSave(states: seq<State>, calls: seq<Call>): (i: nat)
    requires |states| == |calls| + 1
    ensures i <= |calls| && (i < |calls| ==> SavePoint(states[i], calls[i]).Some?)
    ensures forall k :: (if i < |calls| then i + 1 else 0) <= k < |calls| ==> SavePoint(states[k], calls[k]).None?
  {
    if calls == [] then 0
    else
      var n := |calls| - 1;
      if SavePoint(states[n], calls[n]).Some? then n
      else
        var i := LastSave(states[..|calls|], calls[..n]);
        if i < n then i else |calls|
  }

  // What storage holds of an Episode finished at c and left alone since: the finished entry, or
  // the last save's, Finished only where that starts over anyway.
  ghost predicate HoldsFinish(states: seq<State>, calls: seq<Call>, itemId: string, c: real)
    requires |states| == |calls| + 1
  {
    var i := LastSave(states, calls);
    var entry := Find(states[|calls|].listening, itemId);
    && entry.Some? && entry.value.t == c
    && if i == |calls| then entry.value.finished
       else
         var u := SavePoint(states[i], calls[i]).value;
         && u.currentTime == c && entry.value.d == KnownDuration(u) && entry.value.at == TimeOf(calls[i])
         && (entry.value.finished ==> c <= RESUME_MIN_SECONDS || NearKnownEnd(u))
         && (c <= RESUME_MIN_SECONDS ==> entry.value.finished)
  }

  // A call that does not move the position saves only the track that was up, where it stood.
  lemma SavePointIs(s0: State, s: State, c: Call)
    requires KeptSince(s0, s) && Still(s, c) && SavePoint(s, c).Some?
    ensures var u := SavePoint(s, c).value;
            s0.track.Some? && u.track == s.track && u.track.value.itemId == s0.track.value.itemId
            && u.currentTime == s0.currentTime && u.listening == s.listening
  {
  }

  lemma NoSavePoint(s: State, c: Call, s': State)
    requires Next(s, c, s') && Still(s, c) && SavePoint(s, c).None?
    ensures s'.listening == s.listening
  {
  }

  lemma {:induction false} FinishHeld(states: seq<State>, calls: seq<Call>)
    requires StillRun(states, calls) && SavesTaken(states, calls) && states[0].track.Some?
    requires var e := Find(states[0].listening, states[0].track.value.itemId);
             e.Some? && e.value.finished && e.value.t == states[0].currentTime
    ensures HoldsFinish(states, calls, states[0].track.value.itemId, states[0].currentTime)
    decreases |calls|
  {
    if calls != [] {
      var n := |calls| - 1;
      var before := states[..|calls|];
      assert StillRun(before, calls[..n]) && SavesTaken(before, calls[..n]);
      FinishHeld(before, calls[..n]);
      StillRunKeeps(before, calls[..n]);
      FinishHeldStep(states, calls);
    }
  }

  lemma FinishHeldStep(states: seq<State>, calls: seq<Call>)
    requires calls != [] && StillRun(states, calls) && SavesTaken(states, calls) && states[0].track.Some?
    requires KeptSince(states[0], states[|calls| - 1])
    requires HoldsFinish(states[..|calls|], calls[..|calls| - 1], states[0].track.value.itemId, states[0].currentTime)
    ensures HoldsFinish(states, calls, states[0].track.value.itemId, states[0].currentTime)
  {
    var n := |calls| - 1;
    var s, c, s' := states[n], calls[n], states[n + 1];
    if SavePoint(s, c).Some? {
      SavePointIs(states[0], s, c);
    } else {
      NoSavePoint(s, c, s');
      var i := LastSave(states[..|calls|], calls[..n]);
      assert i < n ==> states[..|calls|][i] == states[i] && calls[..n][i] == calls[i];
    }
  }

  // Nothing was saved in the run, the Episode stands in its first 10 s, its end was known to be
  // within 30 s at the last save, or the auto-rewind for the time since reaches its start.
  ghost predicate BackToStart(states: seq<State>, calls: seq<Call>, position: real, now: int)
    requires |states| == |calls| + 1
  {
    var i := LastSave(states, calls);
    || i == |calls| || position <= RESUME_MIN_SECONDS
    || NearKnownEnd(SavePoint(states[i], calls[i]).value) || position <= Rewind(now - TimeOf(calls[i]))
  }

  lemma HeldStartsOverIff(states: seq<State>, calls: seq<Call>, itemId: string, position: real, now: int)
    requires |states| == |calls| + 1 && HoldsFinish(states, calls, itemId, position)
    ensures ResumeAt(Find(states[|calls|].listening, itemId), now) == 0.0 <==> BackToStart(states, calls, position, now)
  {
  }

  // Played to its end, then any run of calls that does not move the position, all of whose saves
  // storage takes, then a reload: the Episode starts over exactly in these cases.
  lemma FinishedRunStartsOverIff(
    s: State, ended: int, states: seq<State>, calls: seq<Call>, c: Call, s': State)
    requires StillRun(states, calls) && SavesTaken(states, calls)
    requires Next(s, Finish(ended), states[0]) && TookFinish(s, ended, states[0].listening)
    requires (c.Load? || c.ReloadPlayer?) && Next(states[|calls|], c, s')
    requires s'.track.Some? && s'.track.value.itemId == s.track.value.itemId
    ensures s'.currentTime == 0.0 <==> BackToStart(states, calls, s.currentTime, c.now)
  {
    var itemId := s.track.value.itemId;
    FinishHeld(states, calls);
    LoadIsAtRest(states[|calls|], c, s');
    HeldStartsOverIff(states, calls, itemId, s.currentTime, c.now);
  }

  // A run of calls from a new page over empty storage.
  ghost predicate RunFromNew(states: seq<State>, calls: seq<Call>) {
    && |states| == |calls| + 1
    && states[0] == Initial(NO_STATE, 0)
    && forall i :: 0 <= i < |calls| ==> Next(states[i], calls[i], states[i + 1])
  }

  const NO_STATE := State(None, false, 0.0, Some(0.0), 1.0, None, 0, None, 1.0, map[])

  // So "played to the end starts over" fails: an Episode of unknown length is played to its end,
  // the page is hidden, which saves it, and after a reload it resumes at the end.
  lemma FinishedIsLost(track: Track) returns (states: seq<State>, calls: seq<Call>)
    requires track.itemId != "" && track.playUrl && track.durationSeconds.None?
    ensures RunFromNew(states, calls)
    ensures calls == [Play(track, 0), Report(None, Some(1800.0), None, 1), Finish(2), Save(false, 3), Load(4)]
    ensures states[5].track == Some(track) && states[5].currentTime == 1800.0
  {
    var id := track.itemId;
    calls := [Play(track, 0), Report(None, Some(1800.0), None, 1), Finish(2), Save(false, 3), Load(4)];
    var s0 := Initial(NO_STATE, 0);
    var s1 := After(s0, calls[0], map[]).(snapshot := Some(track));
    var s2 := After(s1, calls[1], map[]);
    var s3 := After(s2, calls[2], map[id := Entry(1800.0, None, 2, true)]);
    var s4 := After(s3, calls[3], map[id := Entry(1800.0, None, 3, false)]);
    var s5 := After(s4, calls[4], s4.listening);
    states := [s0, s1, s2, s3, s4, s5];
    PlayedAndReported(track, s0, s1, s2);
    FinishedAndSaved(track, s2, s3, s4);
    assert Next(s4, calls[4], s5);
  }

  lemma PlayedAndReported(track: Track, s0: State, s1: State, s2: State)
    requires track.durationSeconds.None?
    requires s0 == Initial(NO_STATE, 0)
    requires s1 == After(s0, Play(track, 0), map[]).(snapshot := Some(track))
    requires s2 == After(s1, Report(None, Some(1800.0), None, 1), map[])
    ensures Next(s0, Play(track, 0), s1) && Next(s1, Report(None, Some(1800.0), None, 1), s2)
    ensures s2 == State(Some(track), true, 1800.0, Some(0.0), 1.0, Some(Restored(track.itemId, 0.0)), 0,
                        Some(track), 1.0, map[])
  {
  }

  lemma FinishedAndSaved(track: Track, s2: State, s3: State, s4: State)
    requires track.durationSeconds.None?
    requires s2 == State(Some(track), true, 1800.0, Some(0.0), 1.0, Some(Restored(track.itemId, 0.0)), 0,
                         Some(track), 1.0, map[])
    requires s3 == After(s2, Finish(2), map[track.itemId := Entry(1800.0, None, 2, true)])
    requires s4 == After(s3, Save(false, 3), map[track.itemId := Entry(1800.0, None, 3, false)])
    ensures Next(s2, Finish(2), s3) && Next(s3, Save(false, 3), s4)
    ensures s4.listening == map[track.itemId := Entry(1800.0, None, 3, false)] && s4.snapshot == Some(track)
  {
    var finished, hidden := Entry(1800.0, None, 2, true), Entry(1800.0, None, 3, false);
    assert s2.listening[track.itemId := finished] == map[track.itemId := finished];
    assert s3.listening[track.itemId := hidden] == map[track.itemId := hidden];
    assert |map[track.itemId := finished]| == 1 && |map[track.itemId := hidden]| == 1;
  }

  // ------------------------------------------------------------------ the store

  class PlayerStore {
    const listening: ListeningStore
    var track: Option<Track>
    var playing: bool
    var currentTime: real
    var duration: Option<real>
    var rate: real
    var restored: Option<Restored>
    var lastSavedAt: int
    var snapshot: Option<Track>
    var savedRate: real

    function Value(): State
      reads this, listening
    {
      State(track, playing, currentTime, duration, rate, restored, lastSavedAt, snapshot, savedRate, listening.entries)
    }

    // A new page over what storage holds.
    constructor (listening: ListeningStore, snapshot: Option<Track>, savedRate: real, now: int)
      ensures this.listening == listening
      ensures Value() == Initial(
        State(None, false, 0.0, Some(0.0), savedRate, None, 0, snapshot, savedRate, listening.entries), now)
    {
      this.listening := listening;
      this.snapshot, this.savedRate := snapshot, savedRate;
      restored := None;
      track, playing, currentTime, duration, rate, lastSavedAt := None, false, 0.0, Some(0.0), savedRate, 0;
      new;
      InitialState(now);
    }

    method InitialState(now: int)
      modifies this
      ensures Value() == Initial(old(Value()), now)
    {
      track, playing, currentTime, duration, rate, lastSavedAt := None, false, 0.0, Some(0.0), savedRate, 0;
      var last := ReadSnapshot(Value());
      if last.None? {
        return;
      }
      var entry := Find(listening.entries, last.value.itemId);
      currentTime := ResumeAt(entry, now);
      restored := Some(Restored(last.value.itemId, currentTime));
      track := last;
      duration := StartDuration(entry, last.value);
    }

    method ReloadPlayer(now: int)
      modifies this
      ensures Next(old(Value()), Call.ReloadPlayer(now), Value())
    {
      InitialState(now);
    }

    // Nothing to save without a track, nor while it stands where it came up.
    method SaveListening(ending: bool, now: int, accepted: bool)
      modifies this, listening
      ensures Next(old(Value()), Save(ending, now), Value())
      ensures Saves(old(Value()), ending, now, listening.entries)
      ensures Value() == Saved(old(Value()), now, listening.entries)
      ensures accepted && !AtRest(old(Value())) ==>
                Trimmed(old(listening.entries)[track.value.itemId := EntryOf(old(Value()), ending, now)],
                        listening.entries)
    {
      if track.None? || restored == Some(Restored(track.value.itemId, currentTime)) {
        return;
      }
      ghost var before := Value();
      restored := None;
      lastSavedAt := now;
      var d := KnownDuration(Value());
      var previous := Find(listening.entries, track.value.itemId);
      var finished :=
        || (ending && d.Some? && d.value - currentTime < FINISHED_TAIL_SECONDS)
        || (previous.Some? && previous.value.finished && currentTime <= RESUME_MIN_SECONDS);
      listening.WriteListening(track.value.itemId, Entry(currentTime, d, now, finished), accepted);
      assert Entry(currentTime, d, now, finished) == EntryOf(before, ending, now);
    }

    method FinishTrack(now: int, accepted: bool)
      modifies this, listening
      ensures Next(old(Value()), Finish(now), Value())
    {
      if track.None? {
        return;
      }
      lastSavedAt := now;
      listening.WriteListening(track.value.itemId, Entry(currentTime, KnownDuration(Value()), now, true), accepted);
      playing := false;
    }

    method Play(next: Track, now: int, accepted: bool, snapshotAccepted: bool)
      modifies this, listening
      ensures Next(old(Value()), Call.Play(next, now), Value())
      ensures snapshotAccepted ==> snapshot == SnapshotFor(old(Value()), Call.Play(next, now))
    {
      if track.Some? && track.value.itemId == next.itemId {
        playing := !playing;
        return;
      }
      if track.Some? {
        SaveListening(true, now, accepted);
      }
      var entry := Find(listening.entries, next.itemId);
      var t := ResumeAt(entry, now);
      restored := Some(Restored(next.itemId, t));
      if snapshotAccepted {
        snapshot := Some(next);
      }
      track, playing, currentTime, duration := Some(next), true, t, StartDuration(entry, next);
    }

    method Stop(now: int, accepted: bool, snapshotAccepted: bool)
      modifies this, listening
      ensures Next(old(Value()), Call.Stop(now), Value())
      ensures snapshotAccepted ==> snapshot == None
    {
      SaveListening(true, now, accepted);
      if snapshotAccepted {
        snapshot := None;
      }
      track, playing, currentTime, duration := None, false, 0.0, Some(0.0);
    }

    method Pause()
      modifies this
      ensures Next(old(Value()), Call.Pause, Value())
    {
      playing := false;
    }

    method Resume()
      modifies this
      ensures Next(old(Value()), Call.Resume, Value())
    {
      if track.Some? {
        playing := true;
      }
    }

    method TogglePlay()
      modifies this
      ensures Next(old(Value()), Call.TogglePlay, Value())
    {
      if track.None? {
        return;
      }
      if playing {
        Pause();
      } else {
        Resume();
      }
    }

    // The media failed: the track does not come back after a reload.
    method FailPlayback(snapshotAccepted: bool)
      modifies this
      ensures Next(old(Value()), Call.Fail, Value())
      ensures snapshotAccepted ==> snapshot == None
    {
      if snapshotAccepted {
        snapshot := None;
      }
      playing := false;
    }

    method SetRate(rate: real)
      modifies this
      ensures Next(old(Value()), Call.SetRate(rate), Value())
    {
      this.rate := rate;
      savedRate := rate;
    }

    method Seek(seconds: real)
      modifies this
      ensures Next(old(Value()), Call.Seek(seconds), Value())
    {
      currentTime := Sought(Value(), seconds);
    }

    // Called with what the element observed; saves the position every few seconds.
    method ReportPlayback(
      playing: Option<bool>, time: Option<real>, duration: Option<Option<real>>, now: int, accepted: bool)
      modifies this, listening
      ensures Next(old(Value()), Report(playing, time, duration, now), Value())
    {
      this.playing := playing.GetOr(this.playing);
      currentTime := time.GetOr(currentTime);
      this.duration := duration.GetOr(this.duration);
      if time.Some? && track.Some? && now - lastSavedAt >= SAVE_INTERVAL_MS {
        SaveListening(false, now, accepted);
      }
    }
  }
}
