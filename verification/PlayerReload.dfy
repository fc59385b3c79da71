/** What each call of the player leaves for the next one and for a reload (web/src/stores/player.ts:225-420). */
module PlayerReload {
  import opened Basics
  import opened Listening
  import opened Player

  predicate Reloads(c: Call) {
    c.Load? || c.ReloadPlayer?
  }

  // Nothing is up.
  predicate Empty(s: State) {
    s.track.None? && !s.playing && s.currentTime == 0.0 && s.duration == Some(0.0)
  }

  // ------------------------------------------------------------------ where an Episode resumes

  // After a minute away 3 s are heard again, after an hour 10 s, after a day 20 s; a Finished Episode,
  // one left in its first 10 s and one left in its last 30 s start over.
  lemma ResumesAt(e: Entry, nowMs: int)
    ensures var back := if nowMs - e.at > 86400000 then 20.0
                        else if nowMs - e.at > 3600000 then 10.0
                        else if nowMs - e.at > 60000 then 3.0 else 0.0;
            var over := e.finished || e.t < 10.0 || (e.d.Some? && e.d.value - e.t < 30.0);
            ResumeAt(Some(e), nowMs) == if over || e.t <= back then 0.0 else e.t - back
    ensures ResumeAt(None, nowMs) == 0.0
  {
  }

  // ------------------------------------------------------------------ what a reload brings back

  // A stopped player is empty, and so is the page after a reload, once storage forgot the track.
  lemma StoppedStaysStopped(s: State, stopped: int, s1: State, c: Call, s2: State)
    requires Next(s, Stop(stopped), s1) && Reloads(c) && Next(s1, c, s2)
    ensures Empty(s1) && (s1.snapshot == s.snapshot || s1.snapshot == None)
    ensures s1.snapshot == None ==> Empty(s2)
  {
  }

  // A failed track stays up, paused, and does not come back.
  lemma FailedStaysAway(s: State, s1: State, c: Call, s2: State)
    requires Next(s, Fail, s1) && Reloads(c) && Next(s1, c, s2)
    ensures s1.track == s.track && !s1.playing && s1.currentTime == s.currentTime && s1.listening == s.listening
    ensures s1.snapshot == None ==> Empty(s2)
  {
  }

  // The length shown at the start: the one saved, else the track's, else none.
  predicate Shows(duration: Option<real>, saved: Option<Entry>, track: Track) {
    if saved.Some? && saved.value.d.Some? then duration == saved.value.d
    else if track.durationSeconds.Some? then duration == track.durationSeconds
    else duration == Some(0.0)
  }

  // Another track starts where it was left; a reload brings it back there, paused, when storage took
  // it and it has an id and a URL of this site's own.
  lemma PlayedComesBack(s: State, next: Track, now: int, s1: State, c: Call, s2: State)
    requires s.track.Some? ==> s.track.value.itemId != next.itemId
    requires Next(s, Play(next, now), s1) && Reloads(c) && Next(s1, c, s2)
    ensures s1.track == Some(next) && s1.playing
    ensures s1.currentTime == ResumeAt(Find(s1.listening, next.itemId), now)
    ensures Shows(s1.duration, Find(s1.listening, next.itemId), next)
    ensures s1.snapshot == Some(next) ==>
              if next.itemId != "" && next.playUrl then
                && s2.track == Some(next) && !s2.playing
                && s2.currentTime == ResumeAt(Find(s1.listening, next.itemId), c.now)
                && Shows(s2.duration, Find(s1.listening, next.itemId), next)
              else Empty(s2)
  {
  }

  predicate ChangesNoRate(calls: seq<Call>) {
    forall i :: 0 <= i < |calls| ==> !calls[i].SetRate?
  }

  ghost predicate Goes(states: seq<State>, calls: seq<Call>) {
    && |states| == |calls| + 1
    && forall i :: 0 <= i < |calls| ==> Next(states[i], calls[i], states[i + 1])
  }

  // The speed last set holds over any calls, reloads among them, until it is set again.
  lemma {:induction false} SpeedStays(s: State, rate: real, states: seq<State>, calls: seq<Call>)
    requires Goes(states, calls) && ChangesNoRate(calls) && Next(s, SetRate(rate), states[0])
    ensures states[|calls|].rate == rate == states[|calls|].savedRate
    decreases |calls|
  {
    if calls != [] {
      var n := |calls| - 1;
      assert Goes(states[..|calls|], calls[..n]);
      SpeedStays(s, rate, states[..|calls|], calls[..n]);
      assert Next(states[n], calls[n], states[|calls|]);
    }
  }

  // ------------------------------------------------------------------ playing and pausing

  // Playing the track that is up, or toggling, turns playing over and changes nothing else.
  lemma PlayToggles(s: State, next: Track, now: int, s': State)
    requires s.track.Some? && s.track.value.itemId == next.itemId && Next(s, Play(next, now), s')
    ensures s' == s.(playing := !s.playing)
  {
  }

  lemma ToggledTwice(s: State, s1: State, s2: State)
    requires Next(s, TogglePlay, s1) && Next(s1, TogglePlay, s2)
    ensures s2 == s && (s.track.Some? <==> s1 != s)
  {
  }

  lemma PausesAndResumes(s: State, paused: State, resumed: State)
    requires Next(s, Pause, paused) && Next(s, Resume, resumed)
    ensures paused == s.(playing := false)
    ensures resumed == if s.track.Some? then s.(playing := true) else s
  {
  }

  // A seek goes where it is asked to, but not before the start nor past a length known to the element.
  lemma SeeksWithin(s: State, seconds: real, s': State)
    requires Next(s, Seek(seconds), s')
    ensures s' == s.(currentTime := s'.currentTime)
    ensures s'.currentTime >= 0.0
    ensures var longer := s.duration.Some? && s.duration.value > 0.0 && seconds > s.duration.value;
            s'.currentTime == if seconds < 0.0 then 0.0 else if longer then s.duration.value else seconds
  {
  }

  // ------------------------------------------------------------------ what a save writes

  // The position, the length known (the element's, else the track's, if positive), the time, and
  // whether it is Finished: stopped within 30 s of a known end, or still within 10 s of its start.
  lemma EntrySays(s: State, ending: bool, now: int)
    requires s.track.Some?
    ensures var e := EntryOf(s, ending, now);
            var id, own := s.track.value.itemId, s.track.value.durationSeconds;
            && e.t == s.currentTime && e.at == now
            && e.d == (if s.duration.Some? && s.duration.value > 0.0 then s.duration
                       else if own.Some? && own.value > 0.0 then own else None)
            && (e.finished <==>
                  || (ending && e.d.Some? && e.d.value - s.currentTime < 30.0)
                  || (id in s.listening && s.listening[id].finished && s.currentTime <= 10.0))
  {
  }

  // What was heard is written: once the element reports another position than the one the track
  // came up at, a save writes it (where storage takes it).
  lemma HeardIsWritten(s: State, time: real, told: int, s1: State, ending: bool, now: int, s2: State)
    requires s.track.Some? && s.restored == Some(Restored(s.track.value.itemId, s.currentTime)) && time != s.currentTime
    requires Next(s, Report(None, Some(time), None, told), s1) && told - s.lastSavedAt < 5000
    requires Next(s1, Save(ending, now), s2)
    ensures s1.listening == s.listening && s1.currentTime == time
    ensures Written(s.listening, s.track.value.itemId, EntryOf(s1, ending, now), s2.listening)
    ensures s2.lastSavedAt == now
  {
  }

  // Playback saves its position at most every 5 s: a report sooner than that after the last save, or
  // without a position, writes nothing; a later one writes unless nothing was heard.
  lemma ReportsSaveEveryFiveSeconds(
    s: State, playing: Option<bool>, time: Option<real>, duration: Option<Option<real>>, now: int, s': State)
    requires Next(s, Report(playing, time, duration, now), s')
    ensures time.None? || now - s.lastSavedAt < 5000 || s.track.None? ==>
              s'.listening == s.listening && s'.lastSavedAt == s.lastSavedAt
    ensures time.Some? && now - s.lastSavedAt >= 5000 && s.track.Some?
            && s.restored != Some(Restored(s.track.value.itemId, time.value)) ==>
              && s'.lastSavedAt == now && s'.restored.None?
              && exists e: Entry :: e.t == time.value && e.at == now
                                    && Written(s.listening, s.track.value.itemId, e, s'.listening)
    ensures s'.track == s.track && (time.Some? ==> s'.currentTime == time.value)
    ensures time.None? ==> s'.currentTime == s.currentTime
    ensures s'.playing == if playing.Some? then playing.value else s.playing
  {
    var c := Report(playing, time, duration, now);
    if ReportSaves(s, c) && !AtRest(Reported(s, c)) {
      var e := EntryOf(Reported(s, c), false, now);
      assert e.t == time.value && e.at == now && Written(s.listening, s.track.value.itemId, e, s'.listening);
    }
  }
}
