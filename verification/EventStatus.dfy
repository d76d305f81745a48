/** The status of events, and the status of a sequence of them. */
module EventStatus {
  import opened Domain

  datatype Status =
    | Uninitialized | Blocked | Error | Failed | Standby | Underway | Delayed
    | Skipped | Canceled | Killed | Completed

  /** `Event::State::finished` */
  predicate IsFinished(s: Status) {
    s.Skipped? || s.Canceled? || s.Killed? || s.Completed?
  }

  /** `Event::sequence_status` */
  function SequenceStatus(earlier: Status, later: Status): Status {
    if earlier.Failed? || later.Failed? then Failed
    else if earlier.Error? || later.Error? then Error
    else if earlier.Blocked? || later.Blocked? then Blocked
    else if earlier.Uninitialized? || later.Uninitialized? then Uninitialized
    else if IsFinished(earlier) then later
    else earlier
  }

  /** The first of failed, error, blocked and uninitialized that one of them has; otherwise that of the later one if
      the earlier one is done, was killed, canceled or skipped, and that of the earlier one if not. */
  lemma StatusOfTwo(x: Status, y: Status)
    ensures x == Failed || y == Failed ==> SequenceStatus(x, y) == Failed
    ensures {x, y} !! {Failed} && (x == Error || y == Error) ==> SequenceStatus(x, y) == Error
    ensures {x, y} !! {Failed, Error} && (x == Blocked || y == Blocked) ==> SequenceStatus(x, y) == Blocked
    ensures {x, y} !! {Failed, Error, Blocked} && (x == Uninitialized || y == Uninitialized) ==>
              SequenceStatus(x, y) == Uninitialized
    ensures {x, y} !! {Failed, Error, Blocked, Uninitialized} && x in {Completed, Killed, Canceled, Skipped} ==>
              SequenceStatus(x, y) == y
    ensures {x, y} !! {Failed, Error, Blocked, Uninitialized} && x in {Standby, Underway, Delayed} ==>
              SequenceStatus(x, y) == x
  {
  }

  /** The status of a sequence, as `Sequence::Standby::update_status` folds it. */
  function Fold(l: seq<Status>): Status {
    if l == [] then Completed else SequenceStatus(Fold(l[..|l| - 1]), Last(l))
  }

  // ---- what the fold computes ----

  function FirstUnfinished(l: seq<Status>): Option<Status> {
    if l == [] then None else if !IsFinished(l[0]) then Some(l[0]) else FirstUnfinished(l[1..])
  }

  /** The most critical status that needs attention, if there is one; else the first that is not
      finished, if there is one; else the last. */
  function Overall(l: seq<Status>): Status {
    if Failed in l then Failed
    else if Error in l then Error
    else if Blocked in l then Blocked
    else if Uninitialized in l then Uninitialized
    else if FirstUnfinished(l).Some? then FirstUnfinished(l).value
    else if l == [] then Completed
    else Last(l)
  }

  lemma {:induction false} FirstUnfinishedSnoc(l: seq<Status>, s: Status)
    ensures FirstUnfinished(l + [s])
            == if FirstUnfinished(l).Some? then FirstUnfinished(l) else if IsFinished(s) then None else Some(s)
  {
    if l == [] {
      assert (l + [s])[1..] == [];
    } else {
      assert (l + [s])[1..] == l[1..] + [s];
      FirstUnfinishedSnoc(l[1..], s);
    }
  }

  lemma {:induction false} FirstUnfinishedIn(l: seq<Status>)
    ensures FirstUnfinished(l).Some? ==> FirstUnfinished(l).value in l && !IsFinished(FirstUnfinished(l).value)
    ensures FirstUnfinished(l).None? ==> forall s | s in l :: IsFinished(s)
  {
    if l != [] {
      FirstUnfinishedIn(l[1..]);
    }
  }

  /** The fold finds the overall status of any list. */
  lemma {:induction false} FoldIsOverall(l: seq<Status>)
    ensures Fold(l) == Overall(l)
  {
    if l != [] {
      var k, s := l[..|l| - 1], Last(l);
      assert l == k + [s];
      FoldIsOverall(k);
      FirstUnfinishedSnoc(k, s);
      FirstUnfinishedIn(k);
      if k != [] {
        assert Last(k) in k;
      }
    }
  }

  // ---- nested sequences ----

  lemma StatusAssociative(x: Status, y: Status, z: Status)
    ensures SequenceStatus(SequenceStatus(x, y), z) == SequenceStatus(x, SequenceStatus(y, z))
  {
  }

  /** A part of a sequence that is not empty may be summarized first. */
  lemma {:induction false} FoldConcat(x: seq<Status>, y: seq<Status>)
    requires y != []
    ensures Fold(x + y) == SequenceStatus(Fold(x), Fold(y))
  {
    var k, s := y[..|y| - 1], Last(y);
    assert (x + y)[..|x + y| - 1] == x + k;
    if k == [] {
      assert x + k == x;
      assert Fold(y) == SequenceStatus(Completed, s);
    } else {
      FoldConcat(x, k);
      StatusAssociative(Fold(x), Fold(k), s);
    }
  }

  /** Sequences may be elements of sequences. */
  datatype Tree = Leaf(status: Status) | Sequence(elements: seq<Tree>)

  function TreeStatus(t: Tree): Status {
    match t
    case Leaf(s) => s
    case Sequence(elements) => Fold(Statuses(elements))
  }

  function Statuses(ts: seq<Tree>): seq<Status> {
    if ts == [] then [] else Statuses(ts[..|ts| - 1]) + [TreeStatus(ts[|ts| - 1])]
  }

  function Leaves(t: Tree): seq<Status> {
    match t
    case Leaf(s) => [s]
    case Sequence(elements) => AllLeaves(elements)
  }

  function AllLeaves(ts: seq<Tree>): seq<Status> {
    if ts == [] then [] else AllLeaves(ts[..|ts| - 1]) + Leaves(ts[|ts| - 1])
  }

  /** The leaves, with every empty sequence as one that is completed. */
  function Filled(t: Tree): seq<Status> {
    match t
    case Leaf(s) => [s]
    case Sequence(elements) => if elements == [] then [Completed] else AllFilled(elements)
  }

  function AllFilled(ts: seq<Tree>): seq<Status> {
    if ts == [] then [] else AllFilled(ts[..|ts| - 1]) + Filled(ts[|ts| - 1])
  }

  /** However deeply sequences are nested, the status of the outermost is that of the flat sequence in which every empty
      sequence counts as completed. */
  lemma {:induction false} NestingIsFilled(t: Tree)
    ensures TreeStatus(t) == Fold(Filled(t)) && Filled(t) != []
    decreases t, 0
  {
    match t
    case Leaf(s) => assert Fold([s]) == SequenceStatus(Fold([s][..0]), s);
    case Sequence(elements) =>
      if elements == [] {
        assert Fold([Completed]) == SequenceStatus(Fold([Completed][..0]), Completed);
      } else {
        AllNestedFilled(elements);
      }
  }

  lemma {:induction false} AllNestedFilled(ts: seq<Tree>)
    ensures Fold(Statuses(ts)) == Fold(AllFilled(ts))
    ensures ts != [] ==> AllFilled(ts) != []
    decreases ts, 1
  {
    if ts != [] {
      var k, t := ts[..|ts| - 1], ts[|ts| - 1];
      AllNestedFilled(k);
      NestingIsFilled(t);
      FoldConcat(AllFilled(k), Filled(t));
      assert Statuses(ts)[..|Statuses(ts)| - 1] == Statuses(k);
    }
  }

  /** The last thing in the tree is an empty sequence. */
  predicate EndsEmpty(t: Tree) {
    match t
    case Leaf(_) => false
    case Sequence(elements) => elements == [] || EndsEmpty(elements[|elements| - 1])
  }

  /** An empty sequence at the end hides that the last of the leaves, all of which are finished, was skipped, canceled
      or killed. */
  predicate HidesEnd(t: Tree) {
    var l := Leaves(t);
    EndsEmpty(t) && l != [] && (forall s | s in l :: IsFinished(s)) && !Last(l).Completed?
  }

  /** What filling in for empty sequences changes: only the end. */
  ghost predicate Agree(filled: seq<Status>, leaves: seq<Status>, endsEmpty: bool) {
    && filled != [] && FirstUnfinished(filled) == FirstUnfinished(leaves)
    && (forall s: Status | !s.Completed? :: s in filled <==> s in leaves)
    && if endsEmpty then Last(filled) == Completed else leaves != [] && Last(filled) == Last(leaves)
  }

  lemma {:induction false} FirstUnfinishedConcat(x: seq<Status>, y: seq<Status>)
    ensures FirstUnfinished(x + y) == if FirstUnfinished(x).Some? then FirstUnfinished(x) else FirstUnfinished(y)
  {
    if x == [] {
      assert x + y == y;
    } else {
      assert (x + y)[1..] == x[1..] + y;
      FirstUnfinishedConcat(x[1..], y);
    }
  }

  lemma {:induction false} FilledAgrees(t: Tree)
    ensures Agree(Filled(t), Leaves(t), EndsEmpty(t))
    decreases t, 0
  {
    match t
    case Leaf(s) =>
    case Sequence(elements) => AllFilledAgree(elements);
  }

  lemma {:induction false} AllFilledAgree(ts: seq<Tree>)
    ensures FirstUnfinished(AllFilled(ts)) == FirstUnfinished(AllLeaves(ts))
    ensures forall s: Status | !s.Completed? :: s in AllFilled(ts) <==> s in AllLeaves(ts)
    ensures ts != [] ==> Agree(AllFilled(ts), AllLeaves(ts), EndsEmpty(ts[|ts| - 1]))
    decreases ts, 1
  {
    if ts != [] {
      var k, t := ts[..|ts| - 1], ts[|ts| - 1];
      AllFilledAgree(k);
      FilledAgrees(t);
      FirstUnfinishedConcat(AllFilled(k), Filled(t));
      FirstUnfinishedConcat(AllLeaves(k), Leaves(t));
    }
  }

  /** Empty sequences do not matter to the status exactly if none of them hides the end. */
  lemma NestingIsFlatIff(t: Tree)
    ensures TreeStatus(t) == Fold(Leaves(t)) <==> !HidesEnd(t)
  {
    NestingIsFilled(t);
    FilledAgrees(t);
    FoldIsOverall(Filled(t));
    FoldIsOverall(Leaves(t));
    hide Fold, TreeStatus, Filled, Leaves, EndsEmpty;
    AgreeOverall(Filled(t), Leaves(t), EndsEmpty(t));
  }

  lemma AgreeOverall(filled: seq<Status>, leaves: seq<Status>, endsEmpty: bool)
    requires Agree(filled, leaves, endsEmpty)
    ensures Overall(filled) == Overall(leaves) <==>
            !(endsEmpty && leaves != [] && (forall s | s in leaves :: IsFinished(s)) && !Last(leaves).Completed?)
  {
    FirstUnfinishedIn(leaves);
    if leaves != [] {
      assert Last(leaves) in leaves;
    }
  }

  /** `sequence_status` as the loops of the original. */
  method ComputeSequenceStatus(earlier: Status, later: Status) returns (s: Status)
    ensures s == SequenceStatus(earlier, later)
  {
    var critical := [Failed, Error, Blocked, Uninitialized];
    for i := 0 to |critical|
      invariant forall k | 0 <= k < i :: earlier != critical[k] && later != critical[k]
    {
      if earlier == critical[i] || later == critical[i] {
        assert i > 0 ==> earlier != critical[0] && later != critical[0];
        assert i > 1 ==> earlier != critical[1] && later != critical[1];
        assert i > 2 ==> earlier != critical[2] && later != critical[2];
        return critical[i];
      }
    }
    var finished := [Completed, Killed, Canceled, Skipped];
    assert earlier !in critical && later !in critical;
    for i := 0 to |finished|
      invariant forall k | 0 <= k < i :: earlier != finished[k]
    {
      if earlier == finished[i] {
        return later;
      }
    }
    assert earlier !in finished;
    return earlier;
  }

  /** A sequence that is canceled, killed or skipped keeps that status. */
  predicate IsSticky(s: Status) {
    s.Canceled? || s.Killed? || s.Skipped?
  }

  function Updated(s: Status, dependencies: seq<Status>): Status {
    if IsSticky(s) then s else Fold(dependencies)
  }

  /** A status that is canceled, killed or skipped is kept; any other becomes that of the dependencies. */
  lemma UpdateKeeps(s: Status, dependencies: seq<Status>)
    ensures s in {Canceled, Killed, Skipped} ==> Updated(s, dependencies) == s
    ensures s !in {Canceled, Killed, Skipped} ==> Updated(s, dependencies) == Overall(dependencies)
  {
    FoldIsOverall(dependencies);
  }

  /** `Sequence::Standby::update_status` */
  method UpdateStatus(s: Status, dependencies: seq<Status>) returns (s': Status)
    ensures s' == Updated(s, dependencies)
  {
    if s == Canceled || s == Killed || s == Skipped {
      return s;
    }
    s' := Completed;
    for i := 0 to |dependencies|
      invariant s' == Fold(dependencies[..i])
    {
      assert dependencies[..i + 1][..i] == dependencies[..i];
      s' := ComputeSequenceStatus(s', dependencies[i]);
    }
    assert dependencies[..|dependencies|] == dependencies;
  }
}
