/**
 Exactly when the general slots and the stuck jobs together exceed the concurrency
 (src/copycast/worker/runner.py:184-188).
 */
module RunnerSlots {
  import opened Basics
  import opened RunnerModel
  import opened RunnerSafety
  import opened RunnerGuard

  // The claim in progress is to take a general slot.
  predicate ForGeneral(s: State) {
    match s.loop
    case Idle => false
    case Asking(reserved) => !reserved
    case Holding(claim) => !claim.reserved
    case Cleared(claim) => !claim.reserved
  }

  // The general slots taken and every stuck job, whichever slot it held.
  function General(s: State): nat {
    |Lane(s.running, false)| + s.stuck
  }

  // The same with the slot a claim in progress is to take.
  function Used(s: State): nat {
    General(s) + if ForGeneral(s) then 1 else 0
  }

  // A job of the reserved slot is given up while everything else is in use.
  predicate StuckWhenFull(s: State, step: Step, used: nat)
    requires Enabled(s, step)
  {
    step.MarkStuck? && s.running[step.id].claim.reserved && used == s.concurrency
  }

  lemma EndsUsed(s: State, s': State, id: nat, e: Ending)
    requires Ends(s, s', id, e)
    ensures var change := (if e.Abandoned? then 1 else 0) - (if s.running[id].claim.reserved then 0 else 1);
            Used(s') == Used(s) + change && General(s') == General(s) + change
  {
    LaneShrinks(s.running, id, false);
  }

  lemma EndingUsed(s: State, step: Step)
    requires Inv(s) && Enabled(s, step) && (step.Settle? || step.MarkStuck? || step.DrainOne?)
    ensures var reserved := s.running[step.id].claim.reserved;
            var change := (if step.MarkStuck? then 1 else 0) - (if reserved then 0 else 1);
            Used(Next(s, step)) == Used(s) + change && General(Next(s, step)) == General(s) + change
  {
    match step
    case Settle(id, result, now) => SettledUsed(s, id, result, now);
    case MarkStuck(id) =>
      MarkStuckEnds(s, id);
      EndsUsed(s, Abandon(s, id), id, Abandoned);
    case DrainOne(id, now) =>
      DrainEnds(s, id, now);
      EndsUsed(s, Drained(s, id, now), id, Handback);
  }

  lemma SettledUsed(s: State, id: nat, result: Result, now: Time)
    requires Inv(s) && id in s.running
    ensures var change := if s.running[id].claim.reserved then 0 else 1;
            var s' := Settled(s, id, result, now);
            Used(s') == Used(s) - change && General(s') == General(s) - change
  {
    SettleEnds(s, id, result, now);
    EndsUsed(s, Settled(s, id, result, now), id, EndingOf(s, id, result));
  }

  lemma StartedUsed(s: State, claim: Claim)
    requires Inv(s) && (s.loop.Holding? || s.loop.Cleared?) && s.loop.claim == claim
    ensures Used(Started(s, claim)) == Used(s)
    ensures General(Started(s, claim)) == General(s) + if claim.reserved then 0 else 1
  {
    assert claim in InHand(s) && Carries(s, claim.id);
    LaneGrows(s.running, claim.id, Entry(claim, false), false);
  }

  lemma CheckedUsed(s: State, now: Time)
    requires Inv(s) && s.loop.Holding?
    ensures Used(Checked(s, s.loop.claim, now)) <= Used(s)
    ensures General(Checked(s, s.loop.claim, now)) == General(s) + if StartsGeneral(s, Check(now)) then 1 else 0
  {
    var claim := s.loop.claim;
    assert claim in InHand(s) && Carries(s, claim.id);
    assert claim.id !in s.running;
    if !Quarantined(s, claim.job) && !Paused(s, claim.job, now) && claim.job.attempt <= 1 {
      StartedUsed(s, claim);
    }
  }

  // A step that ends nothing: it may open a general claim, start it, or drop it.
  lemma OtherUsed(s: State, step: Step)
    requires Inv(s) && Enabled(s, step) && !(step.Settle? || step.MarkStuck? || step.DrainOne?)
    ensures Used(s) <= s.concurrency ==> Used(Next(s, step)) <= s.concurrency
    ensures General(Next(s, step)) == General(s) + if StartsGeneral(s, step) then 1 else 0
  {
    if step.Check? {
      CheckedUsed(s, step.now);
    } else if step.Begin? {
      BegunUsed(s);
    } else {
      RestUsed(s, step);
    }
  }

  lemma BegunUsed(s: State)
    requires Inv(s) && s.loop.Cleared?
    ensures Used(Next(s, Begin)) == Used(s)
    ensures General(Next(s, Begin)) == General(s) + if StartsGeneral(s, Begin) then 1 else 0
  {
    var claim := s.loop.claim;
    assert claim in InHand(s) && Carries(s, claim.id);
    assert claim.id !in s.running;
    StartedUsed(s, claim);
  }

  // The steps that neither start nor end a job.
  lemma RestUsed(s: State, step: Step)
    requires Enabled(s, step)
    requires !(step.Settle? || step.MarkStuck? || step.DrainOne? || step.Check? || step.Begin?)
    ensures Used(s) <= s.concurrency ==> Used(Next(s, step)) <= s.concurrency
    ensures General(Next(s, step)) == General(s)
  {
    assert Lane(Next(s, step).running, false) == Lane(s.running, false);
  }

  // The step starts the job of a general claim: a retry that passed its check, or in the check a
  // first attempt that is neither quarantined nor paused.
  predicate StartsGeneral(s: State, step: Step)
    requires Enabled(s, step)
  {
    match step
    case Begin => !s.loop.claim.reserved
    case Check(now) =>
      var claim := s.loop.claim;
      !claim.reserved && claim.job.attempt <= 1 && !Quarantined(s, claim.job) && !Paused(s, claim.job, now)
    case _ => false
  }

  // Whatever the step, the slots spoken for stay within the concurrency, except when a job of the
  // reserved slot is given up while they are all spoken for.
  lemma UsedStaysIff(s: State, step: Step)
    requires Inv(s) && Enabled(s, step) && Used(s) <= s.concurrency
    ensures Used(Next(s, step)) <= s.concurrency <==> !StuckWhenFull(s, step, Used(s))
  {
    if step.Settle? || step.MarkStuck? || step.DrainOne? {
      EndingUsed(s, step);
    } else {
      OtherUsed(s, step);
    }
  }

  // General running jobs plus all stuck ones go past the concurrency exactly when, with those at
  // the concurrency, a job of the reserved slot is given up or a general claim still starts.
  lemma OversellsIff(s: State, step: Step)
    requires Inv(s) && Enabled(s, step) && General(s) <= s.concurrency
    ensures General(Next(s, step)) > s.concurrency <==> Oversells(s, step)
  {
    if step.Settle? || step.MarkStuck? || step.DrainOne? {
      EndingUsed(s, step);
    } else {
      OtherUsed(s, step);
    }
  }

  // ------------------------------------------------------------------ over runs

  // At every moment of the run the slots spoken for are within the concurrency.
  ghost predicate NeverOverspoken(s: State, steps: seq<Step>)
    requires Runs(s, steps)
    decreases |steps|
  {
    Used(s) <= s.concurrency && (steps == [] || NeverOverspoken(Next(s, steps[0]), steps[1..]))
  }

  ghost predicate NeverStuckWhenFull(s: State, steps: seq<Step>)
    requires Runs(s, steps)
    decreases |steps|
  {
    steps == [] || (!StuckWhenFull(s, steps[0], Used(s)) && NeverStuckWhenFull(Next(s, steps[0]), steps[1..]))
  }

  // At every moment general running jobs plus all stuck ones are.
  ghost predicate NeverOversold(s: State, steps: seq<Step>)
    requires Runs(s, steps)
    decreases |steps|
  {
    General(s) <= s.concurrency && (steps == [] || NeverOversold(Next(s, steps[0]), steps[1..]))
  }

  // With those at the concurrency, the step gives up a job of the reserved slot, or starts the job
  // of a general claim.
  predicate Oversells(s: State, step: Step)
    requires Enabled(s, step)
  {
    StuckWhenFull(s, step, General(s)) || (StartsGeneral(s, step) && General(s) == s.concurrency)
  }

  ghost predicate NeverOversells(s: State, steps: seq<Step>)
    requires Runs(s, steps)
    decreases |steps|
  {
    steps == [] || (!Oversells(s, steps[0]) && NeverOversells(Next(s, steps[0]), steps[1..]))
  }

  lemma SameConcurrency(s: State, step: Step)
    requires Enabled(s, step)
    ensures Next(s, step).concurrency == s.concurrency
  {
  }

  lemma {:induction false} OverspokenIff(s: State, steps: seq<Step>)
    requires Inv(s) && Runs(s, steps) && Used(s) <= s.concurrency
    ensures NeverOverspoken(s, steps) <==> NeverStuckWhenFull(s, steps)
    decreases |steps|
  {
    if steps != [] {
      var s' := Next(s, steps[0]);
      UsedStaysIff(s, steps[0]);
      SameConcurrency(s, steps[0]);
      if Used(s') <= s'.concurrency {
        assert Inv(s') by {
          NextInv(s, steps[0]);
        }
        OverspokenIff(s', steps[1..]);
      }
    }
  }

  lemma {:induction false} OversoldIff(s: State, steps: seq<Step>)
    requires Inv(s) && Runs(s, steps) && General(s) <= s.concurrency
    ensures NeverOversold(s, steps) <==> NeverOversells(s, steps)
    decreases |steps|
  {
    if steps != [] {
      var s' := Next(s, steps[0]);
      OversellsIff(s, steps[0]);
      SameConcurrency(s, steps[0]);
      if General(s') <= s'.concurrency {
        assert Inv(s') by {
          NextInv(s, steps[0]);
        }
        OversoldIff(s', steps[1..]);
      }
    }
  }

  // A worker's whole run keeps general running jobs and stuck jobs within the concurrency exactly
  // when, with those at the concurrency, it never gives up a job of the reserved slot nor starts
  // that of a general claim.
  lemma RunsOversellIff(worker: string, concurrency: nat, table: Table, steps: seq<Step>)
    requires Fresh(worker, table) && Runs(NewRunner(worker, concurrency, table), steps)
    ensures var s := NewRunner(worker, concurrency, table);
            NeverOversold(s, steps) <==> NeverOversells(s, steps)
  {
    NewRunnerInv(worker, concurrency, table);
    assert Lane(NewRunner(worker, concurrency, table).running, false) == {};
    OversoldIff(NewRunner(worker, concurrency, table), steps);
  }

  // It keeps those and the claim in progress within the concurrency exactly when it never gives up
  // a job of the reserved slot while they fill it.
  lemma RunsOverspeakIff(worker: string, concurrency: nat, table: Table, steps: seq<Step>)
    requires Fresh(worker, table) && Runs(NewRunner(worker, concurrency, table), steps)
    ensures var s := NewRunner(worker, concurrency, table);
            NeverOverspoken(s, steps) <==> NeverStuckWhenFull(s, steps)
  {
    NewRunnerInv(worker, concurrency, table);
    assert Lane(NewRunner(worker, concurrency, table).running, false) == {};
    OverspokenIff(NewRunner(worker, concurrency, table), steps);
  }

  // ------------------------------------------------------------------ a run that oversells

  // General slots plus every stuck job can exceed the concurrency: a stuck job that held the
  // reserved slot counts too.
  lemma StuckReservedJobOversells() returns (table: Table, s: State)
    ensures Fresh("w", table) && Reaches(NewRunner("w", 1, table), s)
    ensures General(s) > s.concurrency
  {
    table := map[0 := Row(Refresh, "f", None, false, 0), 1 := Row(ArchiveItem, "g", Some("i"), true, 0)];
    var s2 := BothLanesStart(table);
    s := GiveUp(NewRunner("w", 1, table), s2, 1);
  }

  lemma BothLanesStart(table: Table) returns (s: State)
    requires table == map[0 := Row(Refresh, "f", None, false, 0), 1 := Row(ArchiveItem, "g", Some("i"), true, 0)]
    ensures Reaches(NewRunner("w", 1, table), s) && General(s) == s.concurrency == 1
    ensures 1 in s.running && s.running[1].claim.id == 1 && s.running[1].claim.reserved
  {
    var s0 := NewRunner("w", 1, table);
    ReachesItself(s0);
    assert Lane(s0.running, false) == {} && Lane(s0.running, true) == {};
    var s1 := StartOne(s0, s0, false, 0);
    assert Lane(s1.running, true) == {};
    s := StartOne(s0, s1, true, 1);
    assert Lane(s.running, false) == {0};
  }

  lemma GiveUp(s0: State, s: State, id: nat) returns (s': State)
    requires Reaches(s0, s) && id in s.running && s.running[id].claim.id == id && s.running[id].claim.reserved
    ensures Reaches(s0, s') && General(s') == General(s) + 1 && s'.concurrency == s.concurrency
  {
    s' := Next(s, MarkStuck(id));
    ReachesNext(s0, s, MarkStuck(id));
    assert Lane(s'.running, false) == Lane(s.running, false);
  }
}
