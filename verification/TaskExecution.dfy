/** `Task::Active`: runs the phases of a task one after the other, and replaces those that are still
    pending by a cancellation sequence when the task is cancelled. */
module TaskExecution {
  import opened Domain

  /** A phase to be performed: an opaque description, and the descriptions of what to do instead of the
      rest if the task is cancelled during it. */
  datatype Stage = Stage(id: nat, description: nat, cancellation: seq<nat>)

  datatype PendingPhase = PendingPhase(id: nat, skip: bool)

  /** The fields of `Task::Active`, and what can be seen from outside: which phases were activated, and
      how often the task announced that it is finished. `threw` records the exception for a
      mismatch of the pending stages and phases. */
  datatype Task = Task(
    stages: seq<Stage>,
    phases: seq<PendingPhase>,
    activeStage: Option<Stage>,
    activePhase: Option<nat>,
    completedStages: seq<Stage>,
    completedPhases: seq<nat>,
    interrupted: bool,
    resumable: bool,
    cancelledOn: Option<nat>,
    killed: bool,
    finished: bool,
    cancelId: nat,
    activated: seq<nat>,
    announced: nat,
    threw: bool)

  function PendingOf(stages: seq<Stage>): (r: seq<PendingPhase>)
    ensures |r| == |stages|
    ensures forall i | 0 <= i < |stages| :: r[i] == PendingPhase(stages[i].id, false)
  {
    seq(|stages|, i requires 0 <= i < |stages| => PendingPhase(stages[i].id, false))
  }

  /** `Builder::add_phase` numbers the phases from one on. */
  function Built(phases: seq<(nat, seq<nat>)>): (r: seq<Stage>)
    ensures |r| == |phases|
    ensures forall i | 0 <= i < |phases| :: r[i] == Stage(i + 1, phases[i].0, phases[i].1)
  {
    seq(|phases|, i requires 0 <= i < |phases| => Stage(i + 1, phases[i].0, phases[i].1))
  }

  function CancellationStages(sequence: seq<nat>, firstId: nat): (r: seq<Stage>)
    ensures |r| == |sequence|
    ensures forall i | 0 <= i < |sequence| :: r[i] == Stage(firstId + i, sequence[i], [])
  {
    seq(|sequence|, i requires 0 <= i < |sequence| => Stage(firstId + i, sequence[i], []))
  }

  function Finished(t: Task): Task {
    t.(finished := true, announced := t.announced + 1)
  }

  /** The first pending stage is taken off. */
  function Popped(t: Task): Task
    requires t.stages != [] && t.phases != []
  {
    t.(stages := t.stages[1..], phases := t.phases[1..], activeStage := Some(t.stages[0]))
  }

  function Activated(t: Task, id: nat): Task {
    t.(activePhase := Some(id), activated := t.activated + [id])
  }

  /** The loop of `_begin_next_stage`: pending phases are taken off until one is not to be skipped. */
  function NextStage(t: Task): Task
    decreases |t.stages|
  {
    if t.stages == [] then Finished(t)
    else if |t.stages| != |t.phases| then t.(threw := true)
    else if t.phases[0].skip then NextStage(Popped(t))
    else Activated(Popped(t), t.phases[0].id)
  }

  /** `_begin_next_stage` */
  function BeginNext(t: Task): Task {
    if t.interrupted then t
    else if t.killed then Finished(t.(resumable := false))
    else NextStage(t.(resumable := false))
  }

  function Initial(phases: seq<(nat, seq<nat>)>): Task {
    Task(Built(phases), PendingOf(Built(phases)), None, None, [], [], false, false, None, false, false,
         |phases| + 1, [], 0, false)
  }

  // ---- events ----

  datatype Event =
    | Finish(id: nat)
    | Cancel
    | Kill
    | Skip(id: nat, value: bool)
    | Interrupt(callback: bool)
    | Resume

  /** `_finish_phase` */
  function AfterFinish(t: Task, id: nat): Task
    requires t.activePhase.Some?
  {
    if t.activeStage.None? || t.activeStage.value.id != id then t
    else BeginNext(t.(completedStages := t.completedStages + [t.activeStage.value],
                      completedPhases := t.completedPhases + [t.activePhase.value]))
  }

  /** `cancel`, up to the call that tells the active phase. */
  function AfterCancel(t: Task): Task
    requires t.activePhase.Some? && t.activeStage.Some?
  {
    if t.cancelledOn.Some? || t.finished then t
    else
      var stages := CancellationStages(t.activeStage.value.cancellation, t.cancelId);
      t.(cancelledOn := t.activePhase, stages := stages, phases := PendingOf(stages))
  }

  function SkipIn(phases: seq<PendingPhase>, id: nat, value: bool): seq<PendingPhase> {
    if phases == [] then []
    else if phases[0].id == id then [phases[0].(skip := value)] + phases[1..]
    else [phases[0]] + SkipIn(phases[1..], id, value)
  }

  /** `skip`, up to the call that cancels the active phase. */
  function AfterSkip(t: Task, id: nat, value: bool): Task
    requires t.activePhase.Some?
  {
    if value && t.activePhase.value == id then t else t.(phases := SkipIn(t.phases, id, value))
  }

  /** `interrupt` may be given an empty callback; what it returns is called, or expires, once. A task is
      interrupted as long as it holds a callback, and resumable as long as it holds what its phase returned. */
  function AfterInterrupt(t: Task, callback: bool): Task {
    t.(interrupted := callback, resumable := true)
  }

  /** What an event does to a task that has been started. A phase may signal that it is finished while it is told to
      cancel or to stop; that is a `Finish` right after the event. If it signals while it is told to pause, that is
      a `Finish` between two equal interruptions, because the task takes hold of what the phase returns last. */
  function Step(t: Task, e: Event): Task
    requires t.activePhase.Some? && t.activeStage.Some?
  {
    match e
    case Finish(id) => AfterFinish(t, id)
    case Cancel => AfterCancel(t)
    case Kill => t.(killed := true)
    case Skip(id, value) => AfterSkip(t, id, value)
    case Interrupt(callback) => AfterInterrupt(t, callback)
    case Resume =>
      var t' := t.(interrupted := false);
      if t'.resumable then t' else BeginNext(t')
  }

  // ---- the object ----

  class Active {
    var stages: seq<Stage>
    var phases: seq<PendingPhase>
    var activeStage: Option<Stage>
    var activePhase: Option<nat>
    var completedStages: seq<Stage>
    var completedPhases: seq<nat>
    var interrupted: bool
    var resumable: bool
    var cancelledOn: Option<nat>
    var killed: bool
    var finished: bool
    const cancelId: nat
    ghost var activated: seq<nat>
    ghost var announced: nat
    var threw: bool

    ghost function Value(): Task
      reads this
    {
      Task(stages, phases, activeStage, activePhase, completedStages, completedPhases, interrupted, resumable,
           cancelledOn, killed, finished, cancelId, activated, announced, threw)
    }

    /** `make` of a task that does not come from a backup. */
    constructor (description: seq<(nat, seq<nat>)>)
      ensures Value() == BeginNext(Initial(description))
    {
      stages, phases := Built(description), [];
      activeStage, activePhase, completedStages, completedPhases := None, None, [], [];
      interrupted, resumable, cancelledOn, killed, finished := false, false, None, false, false;
      cancelId := |description| + 1;
      activated, announced, threw := [], 0, false;
      new;
      GeneratePendingPhases();
      BeginNextStage();
    }

    /** `_generate_pending_phases` */
    method GeneratePendingPhases()
      modifies this`phases
      ensures phases == PendingOf(stages)
    {
      phases := [];
      for i := 0 to |stages|
        invariant |phases| == i && forall k | 0 <= k < i :: phases[k] == PendingPhase(stages[k].id, false)
      {
        phases := phases + [PendingPhase(stages[i].id, false)];
      }
    }

    /** `_finish_task` */
    method FinishTask()
      modifies this
      ensures Value() == Finished(old(Value()))
    {
      finished := true;
      announced := announced + 1;
    }

    method PopStage() returns (phase: PendingPhase)
      requires stages != [] && phases != []
      modifies this
      ensures Value() == Popped(old(Value())) && phase == old(phases[0])
    {
      activeStage := Some(stages[0]);
      phase := phases[0];
      stages := stages[1..];
      phases := phases[1..];
    }

    method Activate(id: nat)
      modifies this
      ensures Value() == Activated(old(Value()), id)
    {
      activePhase := Some(id);
      activated := activated + [id];
    }

    /** `_begin_next_stage` */
    method BeginNextStage()
      modifies this
      ensures Value() == BeginNext(old(Value()))
    {
      if interrupted {
        return;
      }
      resumable := false;
      if killed {
        FinishTask();
        return;
      }
      StartNext();
    }

    /** The loop of `_begin_next_stage` */
    method StartNext()
      modifies this
      ensures Value() == NextStage(old(Value()))
    {
      hide Finished, Activated;
      while true
        invariant NextStage(Value()) == NextStage(old(Value()))
        decreases |stages|
      {
        if stages == [] {
          FinishTask();
          return;
        }
        if |stages| != |phases| {
          threw := true;
          return;
        }
        var phase := PopStage();
        if !phase.skip {
          Activate(phase.id);
          return;
        }
      }
    }

    /** The callback with which a phase says that it is finished. */
    method FinishPhase(id: nat)
      requires activePhase.Some?
      modifies this
      ensures Value() == AfterFinish(old(Value()), id)
    {
      if activeStage.None? {
        return;
      }
      if activeStage.value.id != id {
        return;
      }
      completedStages := completedStages + [activeStage.value];
      completedPhases := completedPhases + [activePhase.value];
      BeginNextStage();
    }

    /** `_prepare_cancellation_sequence` */
    method PrepareCancellation(sequence: seq<nat>)
      modifies this`stages, this`phases
      ensures stages == CancellationStages(sequence, cancelId) && phases == PendingOf(stages)
    {
      stages := [];
      var nextId := cancelId;
      for i := 0 to |sequence|
        invariant nextId == cancelId + i && |stages| == i
        invariant forall k | 0 <= k < i :: stages[k] == Stage(cancelId + k, sequence[k], [])
      {
        stages := stages + [Stage(nextId, sequence[i], [])];
        nextId := nextId + 1;
      }
      GeneratePendingPhases();
    }

    /** `cancel` */
    method Cancel()
      requires activePhase.Some? && activeStage.Some?
      modifies this
      ensures Value() == AfterCancel(old(Value()))
    {
      if cancelledOn.Some? {
        return;
      }
      if finished {
        return;
      }
      cancelledOn := activePhase;
      PrepareCancellation(activeStage.value.cancellation);
    }

    /** `skip` */
    method Skip(id: nat, value: bool)
      requires activePhase.Some?
      modifies this
      ensures Value() == AfterSkip(old(Value()), id, value)
    {
      if value && activePhase.value == id {
        return;
      }
      phases := SkipFirst(phases, id, value);
    }

    /** `kill`, up to the call that tells the active phase. */
    method Kill()
      requires activePhase.Some? && activeStage.Some?
      modifies this
      ensures Value() == Step(old(Value()), Event.Kill)
    {
      killed := true;
    }

    /** `interrupt`. The active phase may signal that phase `signal` is finished before it returns. */
    method Interrupt(callback: bool, signal: Option<nat>)
      requires activePhase.Some? && activeStage.Some?
      modifies this
      ensures Value() == AfterInterrupt(
                           if signal.None? then old(Value())
                           else AfterFinish(AfterInterrupt(old(Value()), callback), signal.value), callback)
    {
      interrupted := callback;
      if signal.Some? {
        ghost var t := Value();
        FinishPhase(signal.value);
        SignalWhileInterrupted(t, signal.value);
      }
      resumable := true;
    }

    /** The callback that `interrupt` returns. */
    method Resume()
      requires activePhase.Some? && activeStage.Some?
      modifies this
      ensures Value() == Step(old(Value()), Event.Resume)
    {
      interrupted := false;
      if !resumable {
        BeginNextStage();
      }
    }
  }

  lemma {:induction false} NextStageKeepsFlag(t: Task)
    ensures NextStage(t).interrupted == t.interrupted
    decreases |t.stages|
  {
    if t.stages != [] && |t.stages| == |t.phases| && t.phases[0].skip {
      NextStageKeepsFlag(Popped(t));
    }
  }

  /** What the task holds of its phase does not matter to a signal, which does not end an interruption either. */
  lemma SignalWhileInterrupted(t: Task, id: nat)
    requires t.activePhase.Some?
    ensures AfterFinish(t, id).interrupted == t.interrupted
    ensures AfterFinish(t.(resumable := true), id).(resumable := true) == AfterFinish(t, id).(resumable := true)
  {
    hide NextStage;
    if t.activeStage.Some? {
      NextStageKeepsFlag(t.(completedStages := t.completedStages + [t.activeStage.value],
                            completedPhases := t.completedPhases + [t.activePhase.value], resumable := false));
    }
  }

  /** With a callback, a signal inside the interruption is one right after it. */
  lemma SignalAfterInterruption(t: Task, id: nat)
    requires t.activePhase.Some?
    ensures AfterInterrupt(AfterFinish(AfterInterrupt(t, true), id), true) == AfterFinish(AfterInterrupt(t, true), id)
  {
  }

  /** Sets the flag of the first pending phase with the given id. */
  method SkipFirst(phases: seq<PendingPhase>, id: nat, value: bool) returns (r: seq<PendingPhase>)
    ensures r == SkipIn(phases, id, value)
  {
    for i := 0 to |phases|
      invariant forall k | 0 <= k < i :: phases[k].id != id
    {
      if phases[i].id == id {
        SkipAt(phases, id, value, i);
        return phases[i := phases[i].(skip := value)];
      }
    }
    SkipNone(phases, id, value);
    return phases;
  }

  lemma {:induction false} SkipAt(phases: seq<PendingPhase>, id: nat, value: bool, i: nat)
    requires i < |phases| && phases[i].id == id && forall k | 0 <= k < i :: phases[k].id != id
    ensures SkipIn(phases, id, value) == phases[i := phases[i].(skip := value)]
  {
    if i > 0 {
      SkipAt(phases[1..], id, value, i - 1);
    }
  }

  lemma {:induction false} SkipNone(phases: seq<PendingPhase>, id: nat, value: bool)
    requires forall k | 0 <= k < |phases| :: phases[k].id != id
    ensures SkipIn(phases, id, value) == phases
  {
    if phases != [] {
      SkipNone(phases[1..], id, value);
    }
  }

  // ---- what the loop does ----

  predicate Matching(t: Task) {
    |t.stages| == |t.phases| && forall i | 0 <= i < |t.stages| :: t.stages[i].id == t.phases[i].id
  }

  /** The task after the first `k` pending phases are taken off and the next one, if there is one, is activated. */
  function Landed(t: Task, k: nat): Task
    requires Matching(t) && k <= |t.phases|
  {
    if k == |t.phases| then
      Finished(t.(stages := [], phases := [],
                  activeStage := if k == 0 then t.activeStage else Some(Last(t.stages))))
    else
      t.(stages := t.stages[k + 1..], phases := t.phases[k + 1..], activeStage := Some(t.stages[k]),
         activePhase := Some(t.stages[k].id), activated := t.activated + [t.stages[k].id])
  }

  /** The loop activates the first pending phase that is not to be skipped, and leaves those
      behind it pending; without one the task is finished. */
  lemma {:induction false} NextStageMeaning(t: Task, k: nat)
    requires Matching(t) && k <= |t.phases|
    requires (forall i | 0 <= i < k :: t.phases[i].skip) && (k < |t.phases| ==> !t.phases[k].skip)
    ensures NextStage(t) == Landed(t, k)
    decreases k
  {
    if k == 0 {
      assert t.phases != [] ==> t.stages[0].id == t.phases[0].id;
    } else {
      hide Landed;
      var t1 := Popped(t);
      NextStageMeaning(t1, k - 1);
      assert NextStage(t) == NextStage(t1);
      LandedLater(t, k);
    }
  }

  lemma LandedLater(t: Task, k: nat)
    requires Matching(t) && 0 < k <= |t.phases|
    ensures Matching(Popped(t)) && Landed(Popped(t), k - 1) == Landed(t, k)
  {
    hide Finished;
    var t1 := Popped(t);
    if k < |t.phases| {
      assert t1.stages[k..] == t.stages[k + 1..] && t1.phases[k..] == t.phases[k + 1..];
    }
  }

  // ---- every run ----

  ghost predicate Increasing(ids: seq<nat>) {
    forall i, j | 0 <= i < j < |ids| :: ids[i] < ids[j]
  }

  function StageIds(stages: seq<Stage>): (r: seq<nat>)
    ensures |r| == |stages|
    ensures forall i | 0 <= i < |stages| :: r[i] == stages[i].id
  {
    seq(|stages|, i requires 0 <= i < |stages| => stages[i].id)
  }

  /** The pending stages and phases carry the same ids, which increase above `last`. While the task is not
      cancelled they are ordinary ids, and afterwards they are above all ordinary ones. */
  ghost predicate PendingOk(t: Task, last: nat) {
    && Matching(t) && Increasing(StageIds(t.stages))
    && (forall i | 0 <= i < |t.stages| :: last < t.stages[i].id)
    && (forall i | 0 <= i < |t.stages| :: t.cancelledOn.Some? <==> t.cancelId <= t.stages[i].id)
    && (t.cancelledOn.None? ==> last < t.cancelId)
  }

  /** The active phase is the last one that was activated, no phase was activated twice, and the
      ids of the completed phases increase up to that of the active one. */
  ghost predicate HistoryOk(t: Task) {
    && t.activePhase.Some? && t.activeStage.Some? && !t.threw
    && t.activated != [] && Increasing(t.activated) && Last(t.activated) == t.activePhase.value
    && t.activePhase.value <= t.activeStage.value.id
    && Increasing(t.completedPhases) && t.completedPhases == StageIds(t.completedStages)
    && forall i | 0 <= i < |t.completedPhases| :: t.completedPhases[i] <= t.activePhase.value
  }

  ghost predicate TaskOk(t: Task) {
    HistoryOk(t) && PendingOk(t, t.activeStage.value.id)
  }

  /** The loop keeps what is pending in order; what it activates comes after everything before. */
  lemma {:induction false} NextStageOk(t: Task)
    requires TaskOk(t)
    ensures TaskOk(NextStage(t)) && NextStage(t).completedPhases == t.completedPhases
    ensures NextStage(t).activated == t.activated
            || (NextStage(t).activated == t.activated + [NextStage(t).activePhase.value])
    decreases |t.stages|
  {
    if t.stages != [] {
      PoppedOk(t);
      if t.phases[0].skip {
        NextStageOk(Popped(t));
      } else {
        ActivatedOk(Popped(t), t.phases[0].id);
      }
    }
  }

  lemma PoppedOk(t: Task)
    requires TaskOk(t) && t.stages != []
    ensures TaskOk(Popped(t)) && Popped(t).activePhase.value < Popped(t).activeStage.value.id
  {
  }

  lemma ActivatedOk(t: Task, id: nat)
    requires TaskOk(t) && id == t.activeStage.value.id && t.activePhase.value < id
    ensures TaskOk(Activated(t, id))
  {
  }

  /** `_begin_next_stage` keeps the invariant of a task that has been started. */
  lemma BeginNextOk(t: Task)
    requires TaskOk(t)
    ensures TaskOk(BeginNext(t)) && BeginNext(t).completedPhases == t.completedPhases
  {
    hide NextStage, PendingOk, HistoryOk;
    var t' := t.(resumable := false);
    SameTask(t, t');
    SameTask(t', Finished(t'));
    if !t.interrupted && !t.killed {
      NextStageOk(t');
    }
  }

  /** The flags do not matter to the invariant. */
  lemma SameTask(t: Task, t': Task)
    requires TaskOk(t)
    requires t.stages == t'.stages && t.phases == t'.phases && t.activeStage == t'.activeStage
    requires t.activePhase == t'.activePhase && t.completedStages == t'.completedStages
    requires t.completedPhases == t'.completedPhases && t.cancelledOn == t'.cancelledOn
    requires t.cancelId == t'.cancelId && t.activated == t'.activated && t.threw == t'.threw
    ensures TaskOk(t')
  {
  }

  /** The active phase finishes for the first time. */
  lemma CompletedOk(t: Task)
    requires TaskOk(t) && t.activePhase.value == t.activeStage.value.id
    requires t.completedPhases == [] || Last(t.completedPhases) < t.activePhase.value
    ensures TaskOk(t.(completedStages := t.completedStages + [t.activeStage.value],
                      completedPhases := t.completedPhases + [t.activePhase.value]))
  {
  }

  lemma CancelOk(t: Task)
    requires TaskOk(t)
    ensures TaskOk(AfterCancel(t))
  {
  }

  lemma {:induction false} SkipKeepsIds(phases: seq<PendingPhase>, id: nat, value: bool)
    ensures |SkipIn(phases, id, value)| == |phases|
    ensures forall i | 0 <= i < |phases| :: SkipIn(phases, id, value)[i].id == phases[i].id
  {
    if phases != [] {
      SkipKeepsIds(phases[1..], id, value);
    }
  }

  lemma SkipOk(t: Task, id: nat, value: bool)
    requires TaskOk(t)
    ensures TaskOk(AfterSkip(t, id, value))
  {
    SkipKeepsIds(t.phases, id, value);
  }

  /** The task after `make` and `events`. A task without phases is finished at once, and none
      of its phases can be told anything. */
  function After(description: seq<(nat, seq<nat>)>, events: seq<Event>): Task {
    if events == [] then BeginNext(Initial(description))
    else
      var t := After(description, events[..|events| - 1]);
      if t.activePhase.Some? && t.activeStage.Some? then Step(t, Last(events)) else t
  }

  /** Every phase signals that it is finished at most once, and only after it was activated. */
  predicate Disciplined(description: seq<(nat, seq<nat>)>, events: seq<Event>) {
    events == [] ||
    var pre := events[..|events| - 1];
    && Disciplined(description, pre)
    && (Last(events).Finish? ==> Last(events) !in pre && Last(events).id in After(description, pre).activated)
  }

  /** Only phases that have signalled are completed. */
  ghost predicate CompletedSignalled(t: Task, events: seq<Event>) {
    forall i | 0 <= i < |t.completedPhases| :: Finish(t.completedPhases[i]) in events
  }

  lemma FinishOk(t: Task, events: seq<Event>, id: nat)
    requires TaskOk(t) && CompletedSignalled(t, events) && Finish(id) !in events && id in t.activated
    ensures TaskOk(AfterFinish(t, id))
    ensures CompletedSignalled(AfterFinish(t, id), events + [Finish(id)])
  {
    hide BeginNext, PendingOk;
    if t.activeStage.value.id == id {
      assert t.activePhase.value == id by {
        var i :| 0 <= i < |t.activated| && t.activated[i] == id;
        assert i < |t.activated| - 1 ==> t.activated[i] < Last(t.activated);
      }
      if t.completedPhases != [] {
        assert Finish(Last(t.completedPhases)) in events;
      }
      CompletedOk(t);
      BeginNextOk(t.(completedStages := t.completedStages + [t.activeStage.value],
                     completedPhases := t.completedPhases + [t.activePhase.value]));
    }
  }

  lemma StepOk(t: Task, events: seq<Event>, e: Event)
    requires TaskOk(t) && CompletedSignalled(t, events)
    requires e.Finish? ==> e !in events && e.id in t.activated
    ensures TaskOk(Step(t, e)) && CompletedSignalled(Step(t, e), events + [e])
  {
    hide PendingOk, HistoryOk, BeginNext;
    match e
    case Finish(id) => FinishOk(t, events, id);
    case Cancel => CancelOk(t);
    case Kill => SameTask(t, t.(killed := true));
    case Skip(id, value) => SkipOk(t, id, value);
    case Interrupt(callback) => SameTask(t, AfterInterrupt(t, callback));
    case Resume =>
      SameTask(t, t.(interrupted := false));
      BeginNextOk(t.(interrupted := false));
  }

  lemma StartOk(description: seq<(nat, seq<nat>)>)
    requires description != []
    ensures TaskOk(BeginNext(Initial(description)))
    ensures BeginNext(Initial(description)).completedPhases == []
  {
  }

  /** Over every run of events on a task with phases in which each phase signals at most once, after its
      activation: the pending stages and phases carry the same ids, so the mismatch is never thrown;
      pending ids increase above the active one, and those of a cancellation are above all ordinary ones;
      completed ids increase and do not exceed the active one; and no phase is activated twice. */
  lemma {:induction false} EveryRun(description: seq<(nat, seq<nat>)>, events: seq<Event>)
    requires description != [] && Disciplined(description, events)
    ensures TaskOk(After(description, events)) && CompletedSignalled(After(description, events), events)
  {
    hide PendingOk, HistoryOk, Step, BeginNext;
    if events == [] {
      StartOk(description);
    } else {
      var pre := events[..|events| - 1];
      EveryRun(description, pre);
      assert TaskOk(After(description, pre)) && After(description, pre).activePhase.Some?
             && After(description, pre).activeStage.Some? by { Started(After(description, pre)); }
      StepOk(After(description, pre), pre, Last(events));
      assert pre + [Last(events)] == events;
    }
  }

  lemma Started(t: Task)
    requires TaskOk(t)
    ensures t.activePhase.Some? && t.activeStage.Some?
  {
  }

  lemma KilledStep(t: Task, e: Event)
    requires t.activePhase.Some? && t.activeStage.Some? && t.killed
    ensures Step(t, e).killed && Step(t, e).activated == t.activated
  {
    hide NextStage;
  }

  lemma {:induction false} NextStageActive(t: Task)
    requires t.activePhase.Some? && t.activeStage.Some?
    ensures NextStage(t).activePhase.Some? && NextStage(t).activeStage.Some?
    decreases |t.stages|
  {
    if t.stages != [] && |t.stages| == |t.phases| && t.phases[0].skip {
      NextStageActive(Popped(t));
    }
  }

  lemma StepActive(t: Task, e: Event)
    requires t.activePhase.Some? && t.activeStage.Some?
    ensures Step(t, e).activePhase.Some? && Step(t, e).activeStage.Some?
  {
    hide NextStage;
    match e
    case Finish(id) =>
      NextStageActive(t.(completedStages := t.completedStages + [t.activeStage.value],
                         completedPhases := t.completedPhases + [t.activePhase.value], resumable := false));
    case Resume => NextStageActive(t.(interrupted := false, resumable := false));
    case _ =>
  }

  lemma {:induction false} AlwaysActive(description: seq<(nat, seq<nat>)>, events: seq<Event>)
    requires description != []
    ensures After(description, events).activePhase.Some? && After(description, events).activeStage.Some?
  {
    if events == [] {
      StartOk(description);
    } else {
      hide Step;
      AlwaysActive(description, events[..|events| - 1]);
      StepActive(After(description, events[..|events| - 1]), Last(events));
    }
  }

  /** In every run, disciplined or not, no phase is activated after the task is killed. */
  lemma {:induction false} NothingAfterKill(description: seq<(nat, seq<nat>)>, events: seq<Event>, k: nat)
    requires description != [] && k < |events| && events[k].Kill?
    ensures After(description, events).activated == After(description, events[..k]).activated
    ensures After(description, events).killed
  {
    hide BeginNext;
    var pre := events[..|events| - 1];
    AlwaysActive(description, pre);
    if k == |events| - 1 {
      assert pre == events[..k];
    } else {
      hide Step;
      assert pre[..k] == events[..k];
      NothingAfterKill(description, pre, k);
      KilledStep(After(description, pre), Last(events));
    }
  }
}
