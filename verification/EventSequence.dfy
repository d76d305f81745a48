/** `events::internal::Sequence`: runs the dependencies of an event one after the other. */
module EventSequence {
  import opened Domain
  import opened EventStatus

  /** How a dependency behaves while it is begun: how often it signals that it is finished before `begin`
      returns, and its status then. */
  datatype Behaviour = Behaviour(signals: nat, status: Status)

  /** The fields of `Sequence::Active`, and what can be seen from outside: which dependencies were begun,
      and how often the sequence announced that it is finished. */
  datatype Run = Run(
    remaining: seq<nat>,
    index: nat,
    dependencies: seq<Status>,
    status: Status,
    begun: seq<nat>,
    announced: nat)

  predicate InRange(r: Run) {
    forall k | 0 <= k < |r.remaining| :: r.remaining[k] < |r.dependencies|
  }

  /** The last dependency of `remaining` is begun. */
  function Begun(on: nat -> Behaviour, r: Run): (r': Run)
    requires r.remaining != [] && InRange(r)
    ensures InRange(r')
  {
    var i := Last(r.remaining);
    r.(remaining := r.remaining[..|r.remaining| - 1], index := r.index + 1,
       dependencies := r.dependencies[i := on(i).status], begun := r.begun + [i])
  }

  function WithStatus(r: Run): Run {
    r.(status := Updated(r.status, r.dependencies))
  }

  /** What a call of `next` does: it begins dependencies until one of them does not finish at once. */
  function Advance(on: nat -> Behaviour, r: Run): Run
    requires InRange(r)
    decreases |r.remaining|
  {
    if r.remaining == [] then
      WithStatus(r).(announced := r.announced + 1)
    else
      var r' := Begun(on, r);
      if IsFinished(on(Last(r.remaining)).status) then Advance(on, r') else WithStatus(r')
  }

  function Reversed(n: nat): seq<nat> {
    seq(n, k requires 0 <= k < n => n - 1 - k)
  }

  /** A sequence of `n` dependencies before it is begun. */
  function Initial(n: nat): Run {
    Run(Reversed(n), 0, seq(n, i => Standby), Fold(seq(n, i => Standby)), [], 0)
  }

  // ---- the object ----

  class SequenceActive {
    const on: nat -> Behaviour
    var remaining: seq<nat>
    var index: nat
    var dependencies: seq<Status>
    var status: Status
    var insideNext: bool
    ghost var begun: seq<nat>
    ghost var announced: nat

    ghost function Value(): Run
      reads this
    {
      Run(remaining, index, dependencies, status, begun, announced)
    }

    constructor (on: nat -> Behaviour, n: nat)
      ensures this.on == on && Value() == Initial(n) && !insideNext
    {
      this.on := on;
      remaining := Reversed(n);
      index := 0;
      dependencies := seq(n, i => Standby);
      status := Fold(seq(n, i => Standby));
      insideNext := false;
      begun, announced := [], 0;
    }

    /** `next`. Calls that come from a dependency while it is begun have no effect. */
    method Next()
      requires InRange(Value())
      modifies this
      ensures insideNext == old(insideNext)
      ensures Value() == if old(insideNext) then old(Value()) else Advance(on, old(Value()))
      decreases if insideNext then 0 else 1, 1
    {
      if insideNext {
        return;
      }
      insideNext := true;
      ghost var was := Value();
      while true
        invariant insideNext && InRange(Value()) && Advance(on, Value()) == Advance(on, was)
        decreases |remaining|
      {
        if remaining == [] {
          status := UpdateStatus(status, dependencies);
          announced := announced + 1;
          insideNext := false;
          return;
        }
        index := index + 1;
        var event := remaining[|remaining| - 1];
        remaining := remaining[..|remaining| - 1];
        Begin(event, index);
        if !IsFinished(dependencies[event]) {
          break;
        }
      }
      status := UpdateStatus(status, dependencies);
      insideNext := false;
    }

    /** The dependency `event` is begun by `next`. It may signal that it is finished before this returns. */
    method Begin(event: nat, eventIndex: nat)
      requires insideNext && event < |dependencies| && InRange(Value())
      modifies this
      ensures insideNext && remaining == old(remaining) && index == old(index) && status == old(status)
      ensures dependencies == old(dependencies)[event := on(event).status]
      ensures begun == old(begun) + [event] && announced == old(announced)
      decreases 0, 3
    {
      begun := begun + [event];
      dependencies := dependencies[event := on(event).status];
      ghost var was := Value();
      for k := 0 to on(event).signals
        invariant insideNext && Value() == was
      {
        Signal(eventIndex);
      }
    }

    /** The callback with which a dependency says that it is finished. */
    method Signal(eventIndex: nat)
      requires InRange(Value())
      modifies this
      ensures insideNext == old(insideNext)
      ensures Value() == if old(insideNext) || eventIndex != old(index) then old(Value()) else Advance(on, old(Value()))
      decreases if insideNext then 0 else 1, 2
    {
      if eventIndex == index {
        Next();
      }
    }

    /** `cancel`, up to the call that tells the current dependency. */
    method Cancel()
      requires !insideNext && index > 0
      modifies this
      ensures insideNext == old(insideNext) && Value() == old(Value()).(remaining := [], status := Canceled)
    {
      remaining := [];
      status := Canceled;
    }

    /** `kill`, up to the call that tells the current dependency. */
    method Kill()
      requires !insideNext && index > 0
      modifies this
      ensures insideNext == old(insideNext) && Value() == old(Value()).(remaining := [], status := Killed)
    {
      remaining := [];
      status := Killed;
    }

    /** A dependency changes its status and updates the sequence. */
    method Progress(event: nat, s: Status)
      requires event < |dependencies|
      modifies this
      ensures insideNext == old(insideNext)
      ensures Value() == WithStatus(old(Value()).(dependencies := old(dependencies)[event := s]))
    {
      dependencies := dependencies[event := s];
      status := UpdateStatus(status, dependencies);
    }
  }

  // ---- every run ----

  /** What can happen to a sequence that has been begun, between calls of `next`: a signal, early, late or
      repeated; a dependency that changes its status; one that becomes finished and signals it; or a
      command. */
  datatype Op =
    | Signal(index: nat)
    | Progress(event: nat, status: Status)
    | Finish(event: nat, status: Status)
    | Cancel
    | Kill

  function Signaled(on: nat -> Behaviour, r: Run, k: nat): Run
    requires InRange(r)
  {
    if k == r.index then Advance(on, r) else r
  }

  function Progressed(r: Run, i: nat, s: Status): Run {
    if i < |r.dependencies| then WithStatus(r.(dependencies := r.dependencies[i := s])) else r
  }

  function Step(on: nat -> Behaviour, r: Run, op: Op): Run
    requires InRange(r)
  {
    match op
    case Signal(k) => Signaled(on, r, k)
    case Progress(i, s) => Progressed(r, i, s)
    case Finish(i, s) => Signaled(on, Progressed(r, i, s), i + 1)
    case Cancel => r.(remaining := [], status := Canceled)
    case Kill => r.(remaining := [], status := Killed)
  }

  /** `begin` followed by `ops`. */
  function After(on: nat -> Behaviour, n: nat, ops: seq<Op>): (r: Run)
    ensures InRange(r)
  {
    if ops == [] then
      RangeKept(on, Initial(n));
      Advance(on, Initial(n))
    else
      var r := After(on, n, ops[..|ops| - 1]);
      StepRange(on, r, Last(ops));
      Step(on, r, Last(ops))
  }

  lemma {:induction false} RangeKept(on: nat -> Behaviour, r: Run)
    requires InRange(r)
    ensures InRange(Advance(on, r))
    decreases |r.remaining|
  {
    if r.remaining != [] {
      RangeKept(on, Begun(on, r));
    }
  }

  lemma StepRange(on: nat -> Behaviour, r: Run, op: Op)
    requires InRange(r)
    ensures InRange(Step(on, r, op))
  {
    hide Advance;
    match op
    case Signal(_) => RangeKept(on, r);
    case Finish(i, s) => RangeKept(on, Progressed(r, i, s));
    case _ =>
  }

  // ---- order ----

  /** The dependencies that were begun are the first ones, in order, and what remains, unless
      it was dropped, are the others, last one first. */
  ghost predicate Orderly(n: nat, r: Run) {
    && |r.dependencies| == n
    && r.index == |r.begun| <= n
    && (forall k | 0 <= k < |r.begun| :: r.begun[k] == k)
    && (r.remaining == [] || |r.remaining| == n - |r.begun|)
    && (forall k | 0 <= k < |r.remaining| :: r.remaining[k] == n - 1 - k)
  }

  lemma {:induction false} AdvanceOrderly(on: nat -> Behaviour, n: nat, r: Run)
    requires Orderly(n, r)
    ensures InRange(r) && Orderly(n, Advance(on, r))
    decreases |r.remaining|
  {
    if r.remaining != [] {
      AdvanceOrderly(on, n, Begun(on, r));
    }
  }

  lemma StepOrderly(on: nat -> Behaviour, n: nat, r: Run, op: Op)
    requires Orderly(n, r) && InRange(r)
    ensures Orderly(n, Step(on, r, op))
  {
    hide Advance;
    match op
    case Signal(_) => AdvanceOrderly(on, n, r);
    case Finish(i, s) => AdvanceOrderly(on, n, Progressed(r, i, s));
    case _ =>
  }

  /** In every run, the dependencies begin in the order of their description, each at most once, whether
      they finish while they are begun, signal late, or signal again. */
  lemma {:induction false} BeginInOrder(on: nat -> Behaviour, n: nat, ops: seq<Op>)
    ensures Orderly(n, After(on, n, ops))
  {
    hide Orderly, Step, Advance;
    if ops == [] {
      InitialOrderly(n);
      AdvanceOrderly(on, n, Initial(n));
    } else {
      BeginInOrder(on, n, ops[..|ops| - 1]);
      StepOrderly(on, n, After(on, n, ops[..|ops| - 1]), Last(ops));
    }
  }

  lemma InitialOrderly(n: nat)
    ensures Orderly(n, Initial(n))
  {
  }

  lemma StepDropped(on: nat -> Behaviour, r: Run, op: Op)
    requires InRange(r) && r.remaining == []
    ensures Step(on, r, op).remaining == [] && Step(on, r, op).begun == r.begun
  {
  }

  /** In every run, nothing begins after a cancellation or a kill. */
  lemma {:induction false} NothingBeginsAfter(on: nat -> Behaviour, n: nat, ops: seq<Op>, k: nat)
    requires k < |ops| && (ops[k].Cancel? || ops[k].Kill?)
    ensures After(on, n, ops).begun == After(on, n, ops[..k]).begun
    ensures After(on, n, ops).remaining == []
  {
    hide Advance;
    var pre := ops[..|ops| - 1];
    if k == |ops| - 1 {
      assert pre == ops[..k];
    } else {
      hide Step;
      NothingBeginsAfter(on, n, pre, k);
      assert pre[..k] == ops[..k];
      StepDropped(on, After(on, n, pre), Last(ops));
    }
  }

  /** Nothing is dropped, and nothing remains of a sequence that is announced as finished. */
  ghost predicate Full(n: nat, r: Run) {
    Orderly(n, r) && |r.begun| + |r.remaining| == n && (r.announced > 0 ==> r.remaining == [])
  }

  lemma {:induction false} AdvanceFull(on: nat -> Behaviour, n: nat, r: Run)
    requires Full(n, r)
    ensures InRange(r) && Full(n, Advance(on, r))
    decreases |r.remaining|
  {
    if r.remaining != [] {
      AdvanceFull(on, n, Begun(on, r));
    }
  }

  /** In every run without a cancellation or a kill, a sequence that is announced as finished has begun all
      its dependencies. */
  lemma {:induction false} AllBegun(on: nat -> Behaviour, n: nat, ops: seq<Op>)
    requires forall k | 0 <= k < |ops| :: !ops[k].Cancel? && !ops[k].Kill?
    ensures Full(n, After(on, n, ops))
    ensures After(on, n, ops).announced > 0 ==> |After(on, n, ops).begun| == n
  {
    hide Advance;
    if ops == [] {
      InitialOrderly(n);
      AdvanceFull(on, n, Initial(n));
    } else {
      var r := After(on, n, ops[..|ops| - 1]);
      AllBegun(on, n, ops[..|ops| - 1]);
      match Last(ops)
      case Signal(_) => AdvanceFull(on, n, r);
      case Finish(i, s) => AdvanceFull(on, n, Progressed(r, i, s));
      case _ =>
    }
  }

  // ---- the announcement ----

  /** A dependency is finished once and signals it then. A command is given only to a sequence
      that has a current dependency. */
  predicate Allowed(r: Run, op: Op) {
    match op
    case Signal(_) => false
    case Progress(i, s) =>
      i < |r.begun| && i < |r.dependencies| && !IsFinished(r.dependencies[i]) && !IsFinished(s)
    case Finish(i, s) =>
      i < |r.begun| && i < |r.dependencies| && !IsFinished(r.dependencies[i]) && IsFinished(s)
    case Cancel => r.begun != []
    case Kill => r.begun != []
  }

  predicate Disciplined(on: nat -> Behaviour, n: nat, ops: seq<Op>) {
    ops == [] || (Disciplined(on, n, ops[..|ops| - 1]) && Allowed(After(on, n, ops[..|ops| - 1]), Last(ops)))
  }

  ghost predicate EarlierFinished(r: Run) {
    |r.begun| <= |r.dependencies| && forall k | 0 <= k < |r.begun| - 1 :: IsFinished(r.dependencies[k])
  }

  ghost predicate CurrentFinished(r: Run) {
    r.begun != [] ==> |r.begun| <= |r.dependencies| && IsFinished(r.dependencies[|r.begun| - 1])
  }

  /** The sequence is announced as finished exactly when all its begun dependencies are finished and no other
      will begin. */
  ghost predicate Settled(n: nat, r: Run) {
    && Orderly(n, r) && EarlierFinished(r)
    && if CurrentFinished(r) then r.announced == 1 && r.remaining == [] else r.announced == 0
  }

  lemma {:induction false} AdvanceSettles(on: nat -> Behaviour, n: nat, r: Run)
    requires Orderly(n, r) && EarlierFinished(r) && CurrentFinished(r) && r.announced == 0
    ensures InRange(r) && Settled(n, Advance(on, r))
    decreases |r.remaining|
  {
    if r.remaining != [] {
      var r' := Begun(on, r);
      assert Orderly(n, r') && EarlierFinished(r');
      if IsFinished(on(Last(r.remaining)).status) {
        AdvanceSettles(on, n, r');
      }
    }
  }

  lemma StepSettled(on: nat -> Behaviour, n: nat, r: Run, op: Op)
    requires Settled(n, r) && InRange(r) && Allowed(r, op)
    ensures Settled(n, Step(on, r, op))
  {
    hide Advance;
    StepOrderly(on, n, r, op);
    if op.Finish? {
      assert op.event == |r.begun| - 1;
      AdvanceSettles(on, n, Progressed(r, op.event, op.status));
    }
  }

  /** In every run in which each dependency signals once, when it becomes finished, the sequence is
      announced as finished at most once, and exactly when every dependency that was begun is finished and
      no other will begin. */
  lemma {:induction false} AnnouncedOnce(on: nat -> Behaviour, n: nat, ops: seq<Op>)
    requires Disciplined(on, n, ops)
    ensures Settled(n, After(on, n, ops))
  {
    hide Settled, Step, Advance, Allowed;
    if ops == [] {
      InitialOrderly(n);
      AdvanceSettles(on, n, Initial(n));
    } else {
      AnnouncedOnce(on, n, ops[..|ops| - 1]);
      StepSettled(on, n, After(on, n, ops[..|ops| - 1]), Last(ops));
    }
  }

  /** A signal of the current dependency, whether or not it changes its status with it. */
  predicate SignalsCurrent(r: Run, op: Op) {
    op == Signal(r.index) || (op.Finish? && op.event + 1 == r.index)
  }

  /** How often the current dependency signals although the sequence has been announced as finished. */
  function LateSignals(on: nat -> Behaviour, n: nat, ops: seq<Op>): nat {
    if ops == [] then 0
    else
      var pre := ops[..|ops| - 1];
      var r := After(on, n, pre);
      LateSignals(on, n, pre) + if r.announced > 0 && SignalsCurrent(r, Last(ops)) then 1 else 0
  }

  /** A call of `next` announces the sequence at most once, and only with nothing left to begin. */
  lemma {:induction false} AdvanceAnnounces(on: nat -> Behaviour, r: Run)
    requires InRange(r)
    ensures var r' := Advance(on, r);
            if r.remaining == [] then r'.announced == r.announced + 1 && r'.remaining == []
            else r'.announced == r.announced || (r'.announced == r.announced + 1 && r'.remaining == [])
    decreases |r.remaining|
  {
    if r.remaining != [] {
      AdvanceAnnounces(on, Begun(on, r));
    }
  }

  lemma StepAnnounces(on: nat -> Behaviour, r: Run, op: Op)
    requires InRange(r) && (r.announced > 0 ==> r.remaining == [])
    ensures var r' := Step(on, r, op);
            && (r'.announced > 0 ==> r'.remaining == [])
            && (if r.announced == 0 then r'.announced <= 1
                else r'.announced == r.announced + if SignalsCurrent(r, op) then 1 else 0)
  {
    hide Advance;
    match op
    case Signal(_) => AdvanceAnnounces(on, r);
    case Finish(i, s) => AdvanceAnnounces(on, Progressed(r, i, s));
    case _ =>
  }

  /** In every run, disciplined or not, the sequence is announced as finished only when nothing remains, and then once
      more for every late signal of the current dependency. */
  lemma {:induction false} AnnouncedCount(on: nat -> Behaviour, n: nat, ops: seq<Op>)
    ensures var r := After(on, n, ops);
            && (r.announced > 0 ==> r.remaining == [])
            && if r.announced == 0 then LateSignals(on, n, ops) == 0
               else r.announced == 1 + LateSignals(on, n, ops)
  {
    hide Advance, Step, SignalsCurrent;
    if ops == [] {
      RangeKept(on, Initial(n));
      AdvanceAnnounces(on, Initial(n));
    } else {
      AnnouncedCount(on, n, ops[..|ops| - 1]);
      StepAnnounces(on, After(on, n, ops[..|ops| - 1]), Last(ops));
    }
  }

  /** So the announcement is unique exactly in the runs in which the current dependency does not signal after it. */
  lemma AnnouncedOnceIff(on: nat -> Behaviour, n: nat, ops: seq<Op>)
    ensures After(on, n, ops).announced <= 1 <==>
            forall k | 0 <= k < |ops| :: !LateAt(on, n, ops, k)
  {
    AnnouncedCount(on, n, ops);
    LateSignalsZero(on, n, ops);
  }

  /** The operation at `k` is a signal of the current dependency of a sequence that has been announced. */
  predicate LateAt(on: nat -> Behaviour, n: nat, ops: seq<Op>, k: nat)
    requires k < |ops|
  {
    After(on, n, ops[..k]).announced > 0 && SignalsCurrent(After(on, n, ops[..k]), ops[k])
  }

  lemma {:induction false} LateSignalsZero(on: nat -> Behaviour, n: nat, ops: seq<Op>)
    ensures LateSignals(on, n, ops) == 0 <==> forall k | 0 <= k < |ops| :: !LateAt(on, n, ops, k)
  {
    if ops != [] {
      hide After, SignalsCurrent;
      var pre := ops[..|ops| - 1];
      LateSignalsZero(on, n, pre);
      var r := After(on, n, pre);
      assert LateAt(on, n, ops, |ops| - 1) == (r.announced > 0 && SignalsCurrent(r, Last(ops)));
      forall k | 0 <= k < |pre| ensures LateAt(on, n, ops, k) == LateAt(on, n, pre, k) {
        assert ops[..k] == pre[..k];
      }
    }
  }

  /** A run in which a dependency repeats its signal, and the sequence its announcement. */
  lemma AnnouncedTwice(on: nat -> Behaviour)
    requires !IsFinished(on(0).status)
    ensures After(on, 1, [Finish(0, Completed)] + [Signal(1)]).announced == 2
  {
    var ops: seq<Op> := [Finish(0, Completed)];
    assert (ops + [Signal(1)])[..1] == ops && ops[..0] == [];
    assert Initial(1).remaining == [0];
    var r := After(on, 1, []);
    assert r.remaining == [] && r.index == 1 && r.announced == 0;
    assert After(on, 1, ops).announced == 1 && After(on, 1, ops).index == 1;
  }

  // ---- status ----

  /** The sequence has the status of the sequence of its dependencies, unless a command or
      what it came to has fixed it. */
  ghost predicate StatusOk(r: Run) {
    IsSticky(r.status) || r.status == Fold(r.dependencies)
  }

  lemma {:induction false} AdvanceStatus(on: nat -> Behaviour, r: Run)
    requires InRange(r)
    ensures StatusOk(Advance(on, r))
    decreases |r.remaining|
  {
    hide Fold;
    if r.remaining != [] && IsFinished(on(Last(r.remaining)).status) {
      AdvanceStatus(on, Begun(on, r));
    }
  }

  /** In every run, the status of the sequence is that of its dependencies or final. */
  lemma {:induction false} StatusFollows(on: nat -> Behaviour, n: nat, ops: seq<Op>)
    ensures StatusOk(After(on, n, ops))
  {
    hide Fold, Advance;
    if ops == [] {
      RangeKept(on, Initial(n));
      AdvanceStatus(on, Initial(n));
    } else {
      StatusFollows(on, n, ops[..|ops| - 1]);
      var r := After(on, n, ops[..|ops| - 1]);
      match Last(ops)
      case Signal(_) => AdvanceStatus(on, r);
      case Finish(i, s) => AdvanceStatus(on, Progressed(r, i, s));
      case _ =>
    }
  }

  /** The status that the last command has given the sequence, if there was one. */
  function Commanded(ops: seq<Op>): Option<Status> {
    if ops == [] then None
    else if Last(ops).Cancel? then Some(Canceled)
    else if Last(ops).Kill? then Some(Killed)
    else Commanded(ops[..|ops| - 1])
  }

  lemma {:induction false} AdvanceKeepsStatus(on: nat -> Behaviour, r: Run)
    requires InRange(r) && (r.status.Canceled? || r.status.Killed? || r.status.Skipped?)
    ensures Advance(on, r).status == r.status
    decreases |r.remaining|
  {
    hide Fold;
    if r.remaining != [] && IsFinished(on(Last(r.remaining)).status) {
      AdvanceKeepsStatus(on, Begun(on, r));
    }
  }

  /** In every run, a sequence that was cancelled or killed has the status of the last such command, whatever its
      dependencies do. */
  lemma {:induction false} CommandFixesStatus(on: nat -> Behaviour, n: nat, ops: seq<Op>)
    requires Commanded(ops).Some?
    ensures After(on, n, ops).status == Commanded(ops).value
    ensures Commanded(ops).value.Canceled? || Commanded(ops).value.Killed?
  {
    hide Fold, Advance;
    if !Last(ops).Cancel? && !Last(ops).Kill? {
      var pre := ops[..|ops| - 1];
      CommandFixesStatus(on, n, pre);
      var r := After(on, n, pre);
      match Last(ops)
      case Signal(_) => AdvanceKeepsStatus(on, r);
      case Finish(i, s) => AdvanceKeepsStatus(on, Progressed(r, i, s));
      case _ =>
    }
  }

  // ---- dependencies ----

  /** A call of `next` gives the dependencies that it begins the status that they begin with, and no other any. */
  lemma {:induction false} AdvanceTells(on: nat -> Behaviour, r: Run)
    requires InRange(r)
    ensures var r' := Advance(on, r);
            && |r'.dependencies| == |r.dependencies| && r.begun <= r'.begun
            && forall j | 0 <= j < |r.dependencies| ::
                 r'.dependencies[j] == if j in r'.begun[|r.begun|..] then on(j).status else r.dependencies[j]
    decreases |r.remaining|
  {
    if r.remaining != [] {
      var i, r1 := Last(r.remaining), Begun(on, r);
      var r' := Advance(on, r);
      if IsFinished(on(i).status) {
        AdvanceTells(on, r1);
        assert r'.begun[|r.begun|..] == [i] + r'.begun[|r1.begun|..];
      } else {
        assert r'.begun[|r.begun|..] == [i];
      }
    }
  }

  /** What an operation says about the status of dependency `j`. */
  function Told(op: Op, j: nat): Option<Status> {
    match op
    case Progress(i, s) => if i == j then Some(s) else None
    case Finish(i, s) => if i == j then Some(s) else None
    case _ => None
  }

  /** In every run, a dependency has the status that it was last told, or began with. */
  lemma ToldIsKnown(on: nat -> Behaviour, n: nat, ops: seq<Op>, op: Op, j: nat)
    requires j < n
    ensures var r, r' := After(on, n, ops), After(on, n, ops + [op]);
            && |r.dependencies| == |r'.dependencies| == n && r.begun <= r'.begun
            && var known := if Told(op, j).Some? then Told(op, j).value else r.dependencies[j];
               r'.dependencies[j] == if j in r'.begun[|r.begun|..] then on(j).status else known
  {
    assert (ops + [op])[..|ops|] == ops;
    hide Advance, Fold;
    var r := After(on, n, ops);
    BeginInOrder(on, n, ops);
    BeginInOrder(on, n, ops + [op]);
    match op
    case Signal(_) => AdvanceTells(on, r);
    case Finish(i, s) => AdvanceTells(on, Progressed(r, i, s));
    case _ =>
  }
}
