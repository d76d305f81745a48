/** How a task comes to its end, and what interruptions do to that. */
module TaskProgress {
  import opened Domain
  import opened TaskExecution

  type Phases = seq<(nat, seq<nat>)>

  /** The ids of the pending phases that are not to be skipped. */
  function Unskipped(phases: seq<PendingPhase>): seq<nat> {
    if phases == [] then [] else (if phases[0].skip then [] else [phases[0].id]) + Unskipped(phases[1..])
  }

  /** The loop of `_begin_next_stage` takes the first of these ids. */
  ghost predicate Moved(t: Task, t': Task) {
    var ids := Unskipped(t.phases);
    && t'.interrupted == t.interrupted && t'.resumable == t.resumable && t'.killed == t.killed
    && t'.completedPhases == t.completedPhases
    && if ids == [] then
         t'.finished && t'.announced == t.announced + 1 && t'.stages == [] && t'.activated == t.activated
       else
         && t'.finished == t.finished && t'.announced == t.announced && t'.activated == t.activated + [ids[0]]
         && t'.activePhase == Some(ids[0]) && t'.activeStage.Some? && t'.activeStage.value.id == ids[0]
         && Unskipped(t'.phases) == ids[1..]
  }

  lemma {:induction false} NextStageMoves(t: Task)
    requires Matching(t)
    ensures Moved(t, NextStage(t))
    decreases |t.stages|
  {
    if t.stages == [] {
      assert Unskipped(t.phases) == [];
    } else if t.phases[0].skip {
      hide Moved;
      NextStageMoves(Popped(t));
      PoppedMoves(t, NextStage(t));
    } else {
      ActivatedMoves(t);
    }
  }

  lemma PoppedMoves(t: Task, t': Task)
    requires t.stages != [] && t.phases != [] && t.phases[0].skip && Moved(Popped(t), t')
    ensures Moved(t, t')
  {
  }

  lemma ActivatedMoves(t: Task)
    requires Matching(t) && t.stages != [] && !t.phases[0].skip
    ensures Moved(t, Activated(Popped(t), t.phases[0].id))
  {
    assert t.stages[0].id == t.phases[0].id;
  }

  // ---- what holds of a task and the events so far ----

  /** Only activated phases signal; a phase that is active, in a task that is neither finished nor waiting to
      be resumed, has not signalled. */
  ghost predicate Underway(t: Task, events: seq<Event>) {
    && t.activePhase.Some? && t.activeStage.Some?
    && (forall id: nat | Finish(id) in events :: id in t.activated)
    && (t.interrupted ==> t.resumable)
    && (t.finished <==> t.announced > 0)
    && (if t.finished then t.stages == [] || t.killed
        else t.activePhase == Some(t.activeStage.value.id) && (Signalled(t, events) ==> t.resumable))
  }

  /** The active phase has signalled that it is finished. */
  ghost predicate Signalled(t: Task, events: seq<Event>)
    requires t.activeStage.Some?
  {
    Finish(t.activeStage.value.id) in events
  }

  lemma NewIsUnsignalled(t: Task, t': Task, events: seq<Event>)
    requires TaskOk(t') && t'.activated == t.activated + [t'.activePhase.value]
    requires forall id: nat | Finish(id) in events :: id in t.activated
    ensures Finish(t'.activePhase.value) !in events
  {
    hide PendingOk;
    assert forall i | 0 <= i < |t.activated| :: t.activated[i] == t'.activated[i] < t'.activated[|t.activated|];
  }

  /** Beginning the next stage keeps this, whether or not the active phase has signalled. */
  lemma BeginNextUnderway(t: Task, events: seq<Event>)
    requires TaskOk(t) && TaskOk(BeginNext(t)) && !t.interrupted
    requires forall id: nat | Finish(id) in events :: id in t.activated
    requires (t.finished <==> t.announced > 0) && (t.finished ==> t.stages == [] || t.killed)
    ensures Underway(BeginNext(t), events)
    ensures t.killed ==> BeginNext(t) == Finished(t.(resumable := false))
    ensures !t.killed ==> Moved(t.(resumable := false), BeginNext(t))
  {
    hide PendingOk;
    var t0 := t.(resumable := false);
    if !t.killed {
      hide NextStage;
      assert Matching(t0) by { MatchingOf(t); }
      NextStageMoves(t0);
      if Unskipped(t.phases) != [] {
        assert t.stages != [] by { MatchingOf(t); }
        NewIsUnsignalled(t, BeginNext(t), events);
      }
    }
  }

  lemma MatchingOf(t: Task)
    requires TaskOk(t)
    ensures Matching(t) && |t.stages| == |t.phases|
  {
  }

  predicate InDiscipline(t: Task, events: seq<Event>, e: Event) {
    e.Finish? ==> e !in events && e.id in t.activated
  }

  lemma StepUnderway(t: Task, events: seq<Event>, e: Event)
    requires TaskOk(t) && Underway(t, events) && InDiscipline(t, events, e) && TaskOk(Step(t, e))
    requires e == Finish(t.activeStage.value.id) ==> TaskOk(Completed(t))
    ensures Underway(Step(t, e), events + [e])
  {
    hide PendingOk, HistoryOk, BeginNext;
    match e
    case Finish(id) => FinishUnderway(t, events, id);
    case Resume =>
      if !t.resumable {
        SameTask(t, t.(interrupted := false));
        BeginNextUnderway(t.(interrupted := false), events + [e]);
      }
    case _ =>
  }

  /** The task after the active phase is entered among the completed ones. */
  function Completed(t: Task): Task
    requires t.activePhase.Some? && t.activeStage.Some?
  {
    t.(completedStages := t.completedStages + [t.activeStage.value],
       completedPhases := t.completedPhases + [t.activePhase.value])
  }

  /** A phase that signals for the first time is the active one exactly if it belongs to the active stage. */
  lemma SignalOfActive(t: Task, events: seq<Event>, id: nat)
    requires TaskOk(t) && Underway(t, events) && InDiscipline(t, events, Finish(id)) && id == t.activeStage.value.id
    ensures t.activePhase.value == id
  {
    hide PendingOk;
    assert forall i | 0 <= i < |t.activated| - 1 :: t.activated[i] < Last(t.activated);
  }

  lemma FinishUnderway(t: Task, events: seq<Event>, id: nat)
    requires TaskOk(t) && Underway(t, events) && InDiscipline(t, events, Finish(id)) && TaskOk(AfterFinish(t, id))
    requires id == t.activeStage.value.id ==> TaskOk(Completed(t))
    ensures Underway(AfterFinish(t, id), events + [Finish(id)])
  {
    hide PendingOk, HistoryOk, NextStage;
    if id == t.activeStage.value.id && !t.interrupted {
      BeginNextUnderway(Completed(t), events + [Finish(id)]);
    }
  }

  lemma CompletedFirst(t: Task, events: seq<Event>)
    requires TaskOk(t) && CompletedSignalled(t, events) && t.activePhase == Some(t.activeStage.value.id)
    requires !Signalled(t, events)
    ensures TaskOk(Completed(t))
  {
    hide PendingOk;
    assert t.completedPhases != [] ==> Finish(Last(t.completedPhases)) in events;
    CompletedOk(t);
  }

  ghost predicate RunOk(t: Task, events: seq<Event>) {
    TaskOk(t) && CompletedSignalled(t, events) && Underway(t, events)
  }

  lemma StepRunOk(t: Task, events: seq<Event>, e: Event)
    requires RunOk(t, events) && InDiscipline(t, events, e)
    ensures RunOk(Step(t, e), events + [e])
  {
    hide Step, TaskOk, CompletedSignalled;
    StepOk(t, events, e);
    if e == Finish(t.activeStage.value.id) {
      SignalOfActive(t, events, e.id);
      CompletedFirst(t, events);
    }
    StepUnderway(t, events, e);
  }

  lemma StartRunOk(description: Phases)
    requires description != []
    ensures RunOk(BeginNext(Initial(description)), [])
  {
    hide TaskOk;
    StartOk(description);
  }

  lemma {:induction false} RunIsOk(description: Phases, events: seq<Event>)
    requires description != [] && Disciplined(description, events)
    ensures RunOk(After(description, events), events)
  {
    hide RunOk, Step, BeginNext;
    if events == [] {
      StartRunOk(description);
    } else {
      var pre := events[..|events| - 1];
      RunIsOk(description, pre);
      assert After(description, pre).activePhase.Some? && After(description, pre).activeStage.Some? by {
        StartedRun(After(description, pre), pre);
      }
      StepRunOk(After(description, pre), pre, Last(events));
      assert pre + [Last(events)] == events;
    }
  }

  lemma StartedRun(t: Task, events: seq<Event>)
    requires RunOk(t, events)
    ensures t.activePhase.Some? && t.activeStage.Some?
  {
  }

  // ---- one phase at a time ----

  /** Only the phase that was activated last may not have signalled; the task is announced as finished at most
      once, and only after that phase has signalled, too. */
  ghost predicate InTurn(t: Task, events: seq<Event>) {
    && (forall i | 0 <= i < |t.activated| - 1 :: Finish(t.activated[i]) in events)
    && t.announced <= 1
    && (t.announced == 1 ==> t.activePhase.Some? && Finish(t.activePhase.value) in events)
  }

  /** Beginning the next stage is in turn exactly if the active phase has signalled and the task is not
      finished. */
  lemma BeginNextInTurn(t: Task, events: seq<Event>)
    requires TaskOk(t) && TaskOk(BeginNext(t)) && !t.interrupted && t.announced <= 1
    requires forall id: nat | Finish(id) in events :: id in t.activated
    requires (t.finished <==> t.announced > 0) && (t.finished ==> t.stages == [] || t.killed)
    requires forall i | 0 <= i < |t.activated| - 1 :: Finish(t.activated[i]) in events
    ensures InTurn(BeginNext(t), events) <==> !t.finished && Finish(t.activePhase.value) in events
  {
    BeginNextUnderway(t, events);
    var t' := BeginNext(t);
    hide PendingOk, BeginNext;
    if t.killed {
    } else if Unskipped(t.phases) != [] {
      assert t'.activated[|t.activated| - 1] == t.activePhase.value;
      assert t.stages != [] by { MatchingOf(t); }
    }
  }

  lemma StepInTurn(t: Task, events: seq<Event>, e: Event)
    requires RunOk(t, events) && InDiscipline(t, events, e) && InTurn(t, events)
    ensures InTurn(Step(t, e), events + [e]) <==> (e.Resume? ==> t.resumable)
  {
    hide PendingOk, BeginNext;
    StepOk(t, events, e);
    if e.Resume? && !t.resumable {
      SameTask(t, t.(interrupted := false));
      BeginNextInTurn(t.(interrupted := false), events + [e]);
    } else if e == Finish(t.activeStage.value.id) {
      FinishInTurn(t, events);
    }
  }

  lemma FinishInTurn(t: Task, events: seq<Event>)
    requires RunOk(t, events) && InTurn(t, events) && InDiscipline(t, events, Finish(t.activeStage.value.id))
    ensures InTurn(AfterFinish(t, t.activeStage.value.id), events + [Finish(t.activeStage.value.id)])
  {
    hide PendingOk, NextStage;
    SignalOfActive(t, events, t.activeStage.value.id);
    CompletedFirst(t, events);
    StepOk(t, events, Finish(t.activeStage.value.id));
    if !t.interrupted {
      BeginNextInTurn(Completed(t), events + [Finish(t.activeStage.value.id)]);
    }
  }

  ghost predicate AlwaysInTurn(description: Phases, events: seq<Event>) {
    && (events == [] || AlwaysInTurn(description, events[..|events| - 1]))
    && InTurn(After(description, events), events)
  }

  /** Every call to resume comes while the task holds what its active phase returned on interruption. */
  predicate ResumedInTurn(description: Phases, events: seq<Event>) {
    events == [] ||
    var pre := events[..|events| - 1];
    ResumedInTurn(description, pre) && (Last(events).Resume? ==> After(description, pre).resumable)
  }

  /** Phases run one at a time, and the task is announced as finished once and after all of them, exactly if no
      call to resume comes after the phase that was interrupted gave way to the next. */
  lemma {:induction false} OneAtATimeIff(description: Phases, events: seq<Event>)
    requires description != [] && Disciplined(description, events)
    ensures AlwaysInTurn(description, events) <==> ResumedInTurn(description, events)
  {
    hide RunOk, Step, BeginNext, InTurn;
    RunIsOk(description, events);
    if events == [] {
      StartInTurn(description);
    } else {
      var pre := events[..|events| - 1];
      var t := After(description, pre);
      OneAtATimeIff(description, pre);
      RunIsOk(description, pre);
      StartedRun(t, pre);
      assert pre + [Last(events)] == events;
      if InTurn(t, pre) {
        StepInTurn(t, pre, Last(events));
      }
    }
  }

  lemma StartInTurn(description: Phases)
    requires description != []
    ensures InTurn(BeginNext(Initial(description)), [])
  {
  }

  /** Whether an interruption has not been resumed yet. */
  predicate Outstanding(events: seq<Event>) {
    events != [] && (Last(events).Interrupt? || (!Last(events).Resume? && Outstanding(events[..|events| - 1])))
  }

  /** The task is interrupted, with a callback, only while no other interruption is outstanding. */
  predicate Paired(events: seq<Event>) {
    events == [] ||
    var pre := events[..|events| - 1];
    && Paired(pre)
    && (Last(events).Interrupt? ==> Last(events).callback && !Outstanding(pre))
    && (Last(events).Resume? ==> Outstanding(pre))
  }

  /** This is so for one interruption at a time. */
  lemma {:induction false} PairedInTurn(description: Phases, events: seq<Event>)
    requires description != [] && Paired(events)
    ensures ResumedInTurn(description, events)
    ensures Outstanding(events) ==> After(description, events).interrupted && After(description, events).resumable
  {
    if events != [] {
      hide NextStage;
      var pre := events[..|events| - 1];
      PairedInTurn(description, pre);
      AlwaysActive(description, pre);
    }
  }

  lemma RunSnoc(description: Phases, events: seq<Event>, e: Event)
    requires description != []
    ensures After(description, events).activePhase.Some? && After(description, events).activeStage.Some?
    ensures After(description, events + [e]) == Step(After(description, events), e)
    ensures Disciplined(description, events + [e]) <==>
            Disciplined(description, events) && InDiscipline(After(description, events), events, e)
  {
    hide Step;
    AlwaysActive(description, events);
    assert (events + [e])[..|events|] == events;
  }

  /** It is not for two that overlap: the second call to resume starts a phase beside the active one. */
  lemma TwoAtATime(x: nat, y: nat, z: nat)
    ensures var description := [(x, []), (y, []), (z, [])];
            var events := [Interrupt(true), Interrupt(true), Resume] + [Finish(1)] + [Resume];
            && Disciplined(description, events)
            && After(description, events).activated == [1, 2, 3] && Finish(2) !in events
  {
    var d: Phases := [(x, []), (y, []), (z, [])];
    Overlapping(d);
    var events := [Interrupt(true), Interrupt(true), Resume];
    RunSnoc(d, events, Finish(1));
    RunSnoc(d, events + [Finish(1)], Resume);
    var t := After(d, []);
    assert t.stages == [Stage(2, y, []), Stage(3, z, [])];
    assert t.phases == [PendingPhase(2, false), PendingPhase(3, false)];
  }

  lemma Overlapping(description: Phases)
    requires description != []
    ensures var events := [Interrupt(true), Interrupt(true), Resume];
            && Disciplined(description, events)
            && After(description, events) == After(description, []).(interrupted := false, resumable := true)
  {
    hide BeginNext;
    RunSnoc(description, [], Interrupt(true));
    RunSnoc(description, [Interrupt(true)], Interrupt(true));
    RunSnoc(description, [Interrupt(true), Interrupt(true)], Resume);
    assert [] + [Interrupt(true)] == [Interrupt(true)];
    assert [Interrupt(true)] + [Interrupt(true)] == [Interrupt(true), Interrupt(true)];
    assert [Interrupt(true), Interrupt(true)] + [Resume] == [Interrupt(true), Interrupt(true), Resume];
  }

  // ---- interruption of a phase that finishes ----

  /** The active phase has signalled, but the task did not move on. */
  ghost predicate Stuck(t: Task, events: seq<Event>) {
    t.activeStage.Some? && !t.finished && Signalled(t, events)
  }

  /** A task becomes stuck exactly by its active phase finishing while the task is interrupted. */
  lemma StuckIff(t: Task, events: seq<Event>, e: Event)
    requires RunOk(t, events) && InDiscipline(t, events, e)
    ensures Stuck(Step(t, e), events + [e]) <==>
            Stuck(t, events) || (!t.finished && t.interrupted && e == Finish(t.activeStage.value.id))
    ensures Stuck(t, events) ==> Step(t, e).activated == t.activated && Step(t, e).announced == t.announced
  {
    hide TaskOk, CompletedSignalled, NextStage;
    StepRunOk(t, events, e);
    MatchingOf(t);
    if e.Resume? {
      NextStageMoves(t.(interrupted := false, resumable := false));
    } else if e.Finish? {
      NextStageMoves(Completed(t).(resumable := false));
    }
  }

  /** Every task with phases can get stuck at its first one. */
  lemma StuckRun(description: Phases)
    requires description != []
    ensures var events := [Interrupt(true)] + [Finish(1)];
            Disciplined(description, events) && Stuck(After(description, events), events)
  {
    RunSnoc(description, [], Interrupt(true));
    assert [] + [Interrupt(true)] == [Interrupt(true)];
    RunSnoc(description, [Interrupt(true)], Finish(1));
    var t := After(description, []);
    assert t.activated == [1] && t.activeStage.value.id == 1 && !t.finished;
    assert After(description, [Interrupt(true)] + [Finish(1)]).activeStage == t.activeStage;
  }

  /** A stuck task stays so, whatever happens: it is never announced as finished, even if it is killed. */
  lemma {:induction false} StuckForever(description: Phases, events: seq<Event>, more: seq<Event>)
    requires description != [] && Disciplined(description, events + more)
    requires Stuck(After(description, events), events)
    ensures Stuck(After(description, events + more), events + more)
    ensures After(description, events + more).activated == After(description, events).activated
  {
    hide RunOk, Step, Stuck, InDiscipline;
    if more == [] {
      assert events + more == events;
    } else {
      var pre := events + more[..|more| - 1];
      assert events + more == pre + [Last(more)];
      RunSnoc(description, pre, Last(more));
      StuckForever(description, events, more[..|more| - 1]);
      RunIsOk(description, pre);
      StuckIff(After(description, pre), pre, Last(more));
    }
  }

  function Signals(ids: seq<nat>): (r: seq<Event>)
    ensures |r| == |ids| && forall i | 0 <= i < |ids| :: r[i] == Finish(ids[i])
  {
    seq(|ids|, i requires 0 <= i < |ids| => Finish(ids[i]))
  }

  /** When the active phase signals, a task that is neither interrupted nor killed moves on. */
  lemma FinishMoves(description: Phases, events: seq<Event>)
    requires description != [] && Disciplined(description, events)
    requires var t := After(description, events); !t.finished && !t.interrupted && !Stuck(t, events)
    ensures RunOk(After(description, events), events)
    ensures var t, e := After(description, events), Finish(After(description, events).activeStage.value.id);
            && Disciplined(description, events + [e])
            && (t.killed ==> After(description, events + [e]) == Finished(Completed(t).(resumable := false)))
            && (!t.killed ==> Moved(Completed(t).(resumable := false), After(description, events + [e])))
  {
    hide HistoryOk, PendingOk, NextStage, CompletedSignalled;
    var t := After(description, events);
    RunIsOk(description, events);
    RunSnoc(description, events, Finish(t.activeStage.value.id));
    assert t.activePhase.value in t.activated by { LastActivated(t); }
    MatchingOf(t);
    NextStageMoves(Completed(t).(resumable := false));
  }

  lemma LastActivated(t: Task)
    requires HistoryOk(t)
    ensures t.activePhase.value in t.activated
  {
  }

  /** The phase `active` is running, and the phases `ids` are to follow. */
  ghost predicate Ready(t: Task, events: seq<Event>, active: nat, ids: seq<nat>) {
    && !t.finished && !t.interrupted && !t.killed && !Stuck(t, events)
    && t.activePhase == Some(active) && ids == Unskipped(t.phases)
  }

  /** Between `t` and `t'` the phases `active` and `ids` were completed, and then the task was announced
      as finished. */
  predicate Ended(t: Task, t': Task, active: nat, ids: seq<nat>) {
    && t'.finished && t'.announced == t.announced + 1 && t'.activated == t.activated + ids
    && t'.completedPhases == t.completedPhases + [active] + ids
  }

  lemma ReadyMoves(description: Phases, events: seq<Event>, active: nat, ids: seq<nat>)
    requires description != [] && Disciplined(description, events)
    requires Ready(After(description, events), events, active, ids)
    ensures var t, next := After(description, events), events + [Finish(active)];
            var t' := After(description, next);
            && Disciplined(description, next)
            && if ids == [] then Ended(t, t', active, [])
               else
                 && Ready(t', next, ids[0], ids[1..]) && t'.announced == t.announced
                 && t'.activated == t.activated + [ids[0]] && t'.completedPhases == t.completedPhases + [active]
  {
    hide After, Disciplined, TaskOk, CompletedSignalled;
    FinishMoves(description, events);
    RunIsOk(description, events + [Finish(active)]);
  }

  /** If the active phase and then every phase that is activated finishes, a task that is not interrupted, killed or
      stuck performs exactly the pending phases that are not to be skipped, in order, and is announced as finished. */
  lemma {:induction false} RunsToEnd(description: Phases, events: seq<Event>, active: nat, ids: seq<nat>)
    requires description != [] && Disciplined(description, events)
    requires Ready(After(description, events), events, active, ids)
    ensures var rest := events + Signals([active] + ids);
            Disciplined(description, rest) && Ended(After(description, events), After(description, rest), active, ids)
    decreases |ids|
  {
    hide After, Disciplined, Ready;
    ReadyMoves(description, events, active, ids);
    var next := events + [Finish(active)];
    if ids == [] {
      assert events + Signals([active] + ids) == next;
    } else {
      RunsToEnd(description, next, ids[0], ids[1..]);
      assert [ids[0]] + ids[1..] == ids;
      assert next + Signals(ids) == events + Signals([active] + ids);
    }
  }

  lemma {:induction false} NoneSkipped(stages: seq<Stage>)
    ensures Unskipped(PendingOf(stages)) == StageIds(stages)
  {
    if stages != [] {
      NoneSkipped(stages[1..]);
      assert PendingOf(stages)[1..] == PendingOf(stages[1..]);
      assert StageIds(stages) == [stages[0].id] + StageIds(stages[1..]);
    }
  }

  /** A task whose active phase finishes after the task is cancelled performs its cancellation sequence, under ids above
      all ordinary ones, and nothing else of what was pending. */
  lemma CancelledRunsSequence(description: Phases, events: seq<Event>, active: nat)
    requires description != [] && Disciplined(description, events)
    requires var t := After(description, events);
             t.cancelledOn.None? && Ready(t, events, active, Unskipped(t.phases))
    ensures After(description, events).activeStage.Some?
    ensures var t := After(description, events);
            var sequence := t.activeStage.value.cancellation;
            var ids := StageIds(CancellationStages(sequence, t.cancelId));
            var rest := events + [Cancel] + Signals([active] + ids);
            Disciplined(description, rest) && Ended(t, After(description, rest), active, ids)
  {
    var t := After(description, events);
    RunSnoc(description, events, Cancel);
    hide After, Disciplined;
    var stages := CancellationStages(t.activeStage.value.cancellation, t.cancelId);
    NoneSkipped(stages);
    RunsToEnd(description, events + [Cancel], active, StageIds(stages));
  }

  /** A task that is not finished can still be finished exactly if it is not stuck. */
  lemma FinishableIff(description: Phases, events: seq<Event>)
    requires description != [] && Disciplined(description, events) && !After(description, events).finished
    ensures Stuck(After(description, events), events) <==>
            forall more | Disciplined(description, events + more) :: !After(description, events + more).finished
  {
    hide After, Disciplined;
    var t := After(description, events);
    if Stuck(t, events) {
      forall more | Disciplined(description, events + more) ensures !After(description, events + more).finished {
        StuckForever(description, events, more);
      }
    } else {
      var more := Ending(description, events);
      assert Disciplined(description, events + more);
    }
  }

  lemma Ending(description: Phases, events: seq<Event>) returns (more: seq<Event>)
    requires description != [] && Disciplined(description, events)
    requires !After(description, events).finished && !Stuck(After(description, events), events)
    ensures Disciplined(description, events + more) && After(description, events + more).finished
  {
    hide After, Disciplined, Step, TaskOk, CompletedSignalled;
    var t := After(description, events);
    RunIsOk(description, events);
    if t.interrupted {
      ResumeReleases(description, events);
      var rest := Released(description, events + [Resume]);
      more := [Resume] + rest;
      assert events + more == events + [Resume] + rest;
    } else {
      more := Released(description, events);
    }
  }

  lemma ResumeReleases(description: Phases, events: seq<Event>)
    requires description != [] && Disciplined(description, events) && RunOk(After(description, events), events)
    requires After(description, events).interrupted
    ensures Disciplined(description, events + [Resume])
    ensures After(description, events + [Resume]) == After(description, events).(interrupted := false)
  {
    hide TaskOk, CompletedSignalled, BeginNext;
    RunSnoc(description, events, Resume);
  }

  lemma Released(description: Phases, events: seq<Event>) returns (more: seq<Event>)
    requires description != [] && Disciplined(description, events)
    requires var t := After(description, events); !t.finished && !t.interrupted && !Stuck(t, events)
    ensures Disciplined(description, events + more) && After(description, events + more).finished
  {
    hide After, Disciplined, TaskOk, CompletedSignalled;
    var t := After(description, events);
    RunIsOk(description, events);
    if t.killed {
      FinishMoves(description, events);
      more := [Finish(t.activePhase.value)];
    } else {
      RunsToEnd(description, events, t.activePhase.value, Unskipped(t.phases));
      more := Signals([t.activePhase.value] + Unskipped(t.phases));
    }
  }

  // ---- commands ----

  /** A signal of a phase that does not belong to the active stage changes nothing. */
  lemma StaleSignal(description: Phases, events: seq<Event>, id: nat)
    requires description != []
    requires var s := After(description, events).activeStage; s.Some? ==> s.value.id != id
    ensures After(description, events + [Finish(id)]) == After(description, events)
  {
    hide BeginNext;
    RunSnoc(description, events, Finish(id));
  }

  /** Only the first cancellation of a task that is not finished has an effect; it is recorded for the active phase, and
      one phase is pending then for every element of the cancellation sequence. */
  lemma CancelOnce(description: Phases, events: seq<Event>)
    requires description != []
    ensures var t, t' := After(description, events), After(description, events + [Cancel]);
            if t.cancelledOn.Some? || t.finished then t' == t
            else
              && t.activeStage.Some? && t'.cancelledOn == t.activePhase
              && t' == t.(cancelledOn := t'.cancelledOn, stages := t'.stages, phases := t'.phases)
              && |t'.stages| == |t'.phases| == |t.activeStage.value.cancellation|
              && forall i | 0 <= i < |t'.stages| ::
                   && t'.stages[i] == Stage(|description| + 1 + i, t.activeStage.value.cancellation[i], [])
                   && t'.phases[i] == PendingPhase(|description| + 1 + i, false)
  {
    RunSnoc(description, events, Cancel);
    CancelIdKept(description, events);
  }

  /** A kill and an interruption set their flags and nothing else; a task is interrupted exactly by a callback. A
      resumption ends the interruption, and changes nothing else while the task holds what its phase returned. */
  lemma CommandFlags(description: Phases, events: seq<Event>, callback: bool)
    requires description != []
    ensures var t := After(description, events);
            && After(description, events + [Kill]) == t.(killed := true)
            && After(description, events + [Interrupt(callback)]) == t.(interrupted := callback, resumable := true)
            && (t.resumable ==> After(description, events + [Resume]) == t.(interrupted := false))
  {
    hide BeginNext, After, Disciplined;
    RunSnoc(description, events, Kill);
    RunSnoc(description, events, Interrupt(callback));
    RunSnoc(description, events, Resume);
  }

  /** If there are not as many pending phases as stages, which `EveryRun` rules out, the exception is all that
      happens. */
  lemma MismatchThrows(t: Task)
    requires t.stages != [] && |t.stages| != |t.phases| && !t.interrupted && !t.killed
    ensures BeginNext(t) == t.(resumable := false, threw := true)
  {
  }

  lemma {:induction false} NextStageCancelId(t: Task)
    ensures NextStage(t).cancelId == t.cancelId
    decreases |t.stages|
  {
    if t.stages != [] && |t.stages| == |t.phases| && t.phases[0].skip {
      NextStageCancelId(Popped(t));
    }
  }

  lemma StepCancelId(t: Task, e: Event)
    requires t.activePhase.Some? && t.activeStage.Some?
    ensures Step(t, e).cancelId == t.cancelId
  {
    hide NextStage;
    match e
    case Finish(id) => NextStageCancelId(Completed(t).(resumable := false));
    case Resume => NextStageCancelId(t.(interrupted := false, resumable := false));
    case _ =>
  }

  lemma {:induction false} CancelIdKept(description: Phases, events: seq<Event>)
    requires description != []
    ensures After(description, events).cancelId == |description| + 1
  {
    if events == [] {
      NextStageCancelId(Initial(description));
    } else {
      hide Step;
      CancelIdKept(description, events[..|events| - 1]);
      AlwaysActive(description, events[..|events| - 1]);
      StepCancelId(After(description, events[..|events| - 1]), Last(events));
    }
  }

  // ---- skipping ----

  predicate IsPending(t: Task, id: nat) {
    exists i :: 0 <= i < |t.phases| && t.phases[i].id == id
  }

  /** `t'` is `t` with the flag of phase `id` set to `value`, if it is pending. */
  predicate Flagged(t: Task, t': Task, id: nat, value: bool) {
    && t' == t.(phases := t'.phases) && |t'.phases| == |t.phases|
    && forall i | 0 <= i < |t.phases| ::
         t'.phases[i] == PendingPhase(t.phases[i].id, if t.phases[i].id == id then value else t.phases[i].skip)
  }

  lemma {:induction false} SkipSets(phases: seq<PendingPhase>, id: nat, value: bool)
    requires forall i, j | 0 <= i < j < |phases| :: phases[i].id != phases[j].id
    ensures var r := SkipIn(phases, id, value);
            && |r| == |phases|
            && forall i | 0 <= i < |phases| ::
                 r[i] == PendingPhase(phases[i].id, if phases[i].id == id then value else phases[i].skip)
  {
    if phases != [] && phases[0].id != id {
      SkipSets(phases[1..], id, value);
    }
  }

  lemma PendingDistinct(t: Task)
    requires TaskOk(t)
    ensures forall i, j | 0 <= i < j < |t.phases| :: t.phases[i].id != t.phases[j].id
    ensures forall i | 0 <= i < |t.phases| :: t.activePhase.Some? && t.phases[i].id != t.activePhase.value
    ensures t.cancelledOn.None? ==> forall i | 0 <= i < |t.phases| :: t.phases[i].id < t.cancelId
  {
    assert forall i | 0 <= i < |t.phases| :: t.phases[i].id == StageIds(t.stages)[i];
  }

  /** In every run, being told to skip or not to skip a phase sets its flag if it is pending, and changes nothing
      else. */
  lemma SkipFlags(description: Phases, events: seq<Event>, id: nat, value: bool)
    requires description != [] && Disciplined(description, events)
    ensures Disciplined(description, events + [Skip(id, value)])
    ensures Flagged(After(description, events), After(description, events + [Skip(id, value)]), id, value)
  {
    hide BeginNext, TaskOk, After, Disciplined, AfterSkip;
    EveryRun(description, events);
    RunSnoc(description, events, Skip(id, value));
    SkipFlagged(After(description, events), id, value);
  }

  lemma SkipFlagged(t: Task, id: nat, value: bool)
    requires TaskOk(t) && t.activePhase.Some?
    ensures Flagged(t, AfterSkip(t, id, value), id, value)
  {
    hide TaskOk, SkipIn;
    PendingDistinct(t);
    SkipSets(t.phases, id, value);
  }

  lemma {:induction false} UnskippedMeaning(phases: seq<PendingPhase>, id: nat)
    ensures id in Unskipped(phases) <==> exists i :: 0 <= i < |phases| && phases[i] == PendingPhase(id, false)
  {
    if phases != [] {
      UnskippedMeaning(phases[1..], id);
      if i :| 0 <= i < |phases| && phases[i] == PendingPhase(id, false) {
        assert i > 0 ==> phases[1..][i - 1] == PendingPhase(id, false);
      }
      if i :| 0 <= i < |phases[1..]| && phases[1..][i] == PendingPhase(id, false) {
        assert phases[i + 1] == PendingPhase(id, false);
      }
    }
  }

  lemma {:induction false} UnskippedOrder(phases: seq<PendingPhase>)
    requires forall i, j | 0 <= i < j < |phases| :: phases[i].id < phases[j].id
    ensures Increasing(Unskipped(phases))
  {
    if phases != [] {
      var rest := Unskipped(phases[1..]);
      UnskippedOrder(phases[1..]);
      forall k | 0 <= k < |rest| ensures phases[0].id < rest[k] {
        UnskippedMeaning(phases[1..], rest[k]);
        var i :| 0 <= i < |phases[1..]| && phases[1..][i] == PendingPhase(rest[k], false);
        assert phases[i + 1].id == rest[k];
      }
    }
  }

  /** What is to be done after a phase is told to be skipped or not: what was, without it or with it, in the order of
      the ids. */
  lemma SkipChanges(description: Phases, events: seq<Event>, id: nat, value: bool)
    requires description != [] && Disciplined(description, events)
    ensures var t, t' := After(description, events), After(description, events + [Skip(id, value)]);
            && Increasing(Unskipped(t'.phases))
            && forall x :: x in Unskipped(t'.phases) <==>
                           if x == id then IsPending(t, id) && !value else x in Unskipped(t.phases)
  {
    hide Unskipped, After, Disciplined;
    var t, t' := After(description, events), After(description, events + [Skip(id, value)]);
    SkipFlags(description, events, id, value);
    EveryRun(description, events + [Skip(id, value)]);
    PendingOrder(t');
    UnskippedOrder(t'.phases);
    forall x: nat ensures x in Unskipped(t'.phases) <==>
                          if x == id then IsPending(t, id) && !value else x in Unskipped(t.phases)
    {
      UnskippedMeaning(t'.phases, x);
      UnskippedMeaning(t.phases, x);
      FlaggedHas(t, t', id, value, x);
    }
  }

  lemma PendingOrder(t: Task)
    requires TaskOk(t)
    ensures forall i, j | 0 <= i < j < |t.phases| :: t.phases[i].id < t.phases[j].id
  {
    assert forall i | 0 <= i < |t.phases| :: t.phases[i].id == StageIds(t.stages)[i];
  }

  lemma FlaggedHas(t: Task, t': Task, id: nat, value: bool, x: nat)
    requires Flagged(t, t', id, value)
    ensures (exists i :: 0 <= i < |t'.phases| && t'.phases[i] == PendingPhase(x, false)) <==>
            if x == id then IsPending(t, id) && !value
            else exists i :: 0 <= i < |t.phases| && t.phases[i] == PendingPhase(x, false)
  {
    if i :| 0 <= i < |t.phases| && t.phases[i] == PendingPhase(x, false) {
      assert x != id ==> t'.phases[i] == PendingPhase(x, false);
    }
    if i :| 0 <= i < |t'.phases| && t'.phases[i] == PendingPhase(x, false) {
      assert t.phases[i].id == x;
    }
    if i :| 0 <= i < |t.phases| && t.phases[i].id == id {
      assert !value ==> t'.phases[i] == PendingPhase(id, false);
    }
  }

  /** The task performs exactly what is left after one of its phases is told to be skipped. */
  lemma SkippedRunsToEnd(description: Phases, events: seq<Event>, active: nat, id: nat) returns (ids: seq<nat>)
    requires description != [] && Disciplined(description, events)
    requires var t := After(description, events); Ready(t, events, active, Unskipped(t.phases))
    ensures id !in ids && Increasing(ids)
    ensures forall x :: x in ids <==> x != id && x in Unskipped(After(description, events).phases)
    ensures var rest := events + [Skip(id, true)] + Signals([active] + ids);
            Disciplined(description, rest) && Ended(After(description, events), After(description, rest), active, ids)
  {
    hide After, Disciplined, Unskipped;
    SkipFlags(description, events, id, true);
    SkipChanges(description, events, id, true);
    var next := events + [Skip(id, true)];
    ids := Unskipped(After(description, next).phases);
    RunsToEnd(description, next, active, ids);
  }

  /** Phase `id` is not to be performed: it has not been, is not pending without being skipped, and cannot be part of a
      cancellation to come. */
  ghost predicate Passed(t: Task, id: nat) {
    && id !in t.activated && (forall i | 0 <= i < |t.phases| && t.phases[i].id == id :: t.phases[i].skip)
    && (t.cancelledOn.None? ==> id < t.cancelId)
  }

  lemma {:induction false} NextStagePasses(t: Task, id: nat)
    requires Passed(t, id)
    ensures Passed(NextStage(t), id)
    decreases |t.stages|
  {
    if t.stages != [] && |t.stages| == |t.phases| {
      assert Passed(Popped(t), id);
      if t.phases[0].skip {
        NextStagePasses(Popped(t), id);
      }
    }
  }

  lemma {:induction false} SkipPasses(phases: seq<PendingPhase>, other: nat, value: bool, id: nat)
    requires forall i | 0 <= i < |phases| && phases[i].id == id :: phases[i].skip
    requires other == id ==> value
    ensures forall i | 0 <= i < |SkipIn(phases, other, value)| && SkipIn(phases, other, value)[i].id == id ::
              SkipIn(phases, other, value)[i].skip
  {
    if phases != [] && phases[0].id != other {
      SkipPasses(phases[1..], other, value, id);
    }
  }

  lemma StepPasses(t: Task, e: Event, id: nat)
    requires t.activePhase.Some? && t.activeStage.Some? && Passed(t, id) && e != Skip(id, false)
    ensures Passed(Step(t, e), id)
  {
    hide NextStage;
    match e
    case Finish(_) => NextStagePasses(Completed(t).(resumable := false), id);
    case Resume => NextStagePasses(t.(interrupted := false, resumable := false), id);
    case Skip(other, value) => SkipPasses(t.phases, other, value, id);
    case _ =>
  }

  /** A pending phase that is told to be skipped, and not told otherwise afterwards, is never activated. */
  lemma {:induction false} SkippedIsPassed(description: Phases, events: seq<Event>, id: nat, more: seq<Event>)
    requires description != [] && Disciplined(description, events) && IsPending(After(description, events), id)
    requires Skip(id, false) !in more
    ensures id !in After(description, events + [Skip(id, true)] + more).activated
    ensures Passed(After(description, events + [Skip(id, true)] + more), id)
  {
    hide Step, After, Disciplined;
    var next := events + [Skip(id, true)];
    if more == [] {
      assert next + more == next;
      SkipFlags(description, events, id, true);
      EveryRun(description, events);
      PendingIsNew(After(description, events), id);
    } else {
      hide Passed;
      var pre := more[..|more| - 1];
      SkippedIsPassed(description, events, id, pre);
      assert next + more == next + pre + [Last(more)];
      RunSnoc(description, next + pre, Last(more));
      StepPasses(After(description, next + pre), Last(more), id);
      PassedIs(After(description, next + more), id);
    }
  }

  lemma PassedIs(t: Task, id: nat)
    requires Passed(t, id)
    ensures id !in t.activated
  {
  }

  lemma PendingIsNew(t: Task, id: nat)
    requires TaskOk(t) && IsPending(t, id)
    ensures id !in t.activated && (t.cancelledOn.None? ==> id < t.cancelId)
  {
    PendingDistinct(t);
    var i :| 0 <= i < |t.phases| && t.phases[i].id == id;
    assert t.stages[i].id == id;
    assert forall k | 0 <= k < |t.activated| :: t.activated[k] <= Last(t.activated);
  }
}
