/** `BackupFileManager::Robot`: a backup is written to a second file, which then takes the place of the
    first. */
module BackupFile {
  import opened Domain

  // ---- sequence numbers ----

  const SEQ_LIMIT: nat := 0x1_0000_0000_0000_0000
  const HALF: nat := 0x8000_0000_0000_0000

  type Seq = x: nat | x < SEQ_LIMIT

  datatype Backup = Backup(number: Seq, state: string)

  /** Wrap-around comparison of 64-bit numbers: `x` is at most half the range behind `y`. */
  predicate AtMost(x: Seq, y: Seq) {
    (y - x) % SEQ_LIMIT < HALF
  }

  /** How far `x` is ahead of `base`. */
  function Offset(base: Seq, x: Seq): nat {
    (x - base) % SEQ_LIMIT
  }

  predicate InWindow(base: Seq, x: Seq) {
    Offset(base, x) < HALF
  }

  /** Within half the range, the wrap-around order is the order of the distances from its start. */
  lemma WindowOrder(base: Seq, x: Seq, y: Seq)
    requires InWindow(base, x) && InWindow(base, y)
    ensures AtMost(x, y) <==> Offset(base, x) <= Offset(base, y)
    ensures Offset(base, x) == (x - base) % 0x1_0000_0000_0000_0000 < 0x8000_0000_0000_0000
  {
    assert Offset(base, x) == if x >= base then x - base else x - base + SEQ_LIMIT;
    assert Offset(base, y) == if y >= base then y - base else y - base + SEQ_LIMIT;
    assert (y - x) % SEQ_LIMIT == if y >= x then y - x else y - x + SEQ_LIMIT;
  }

  /** A backup with number `x` is not written by a handle that has last written `last`. */
  predicate IsOld(last: Option<Seq>, x: Seq) {
    last.Some? && AtMost(x, last.value)
  }

  // ---- the directory ----

  /** The directory of a robot: whether it is there, the backup, the file that is being written, and whether
      there is any other file. */
  datatype Directory = Directory(present: bool, backup: Option<string>, pre: Option<string>, foreign: bool)

  datatype ReadResult = Content(state: Option<string>) | MissingDirectory | ForeignFile | CannotOpen

  /** `Robot::read`. It removes an unfinished file. `opens` says whether the backup can be opened. */
  function ReadFrom(d: Directory, opens: bool): (ReadResult, Directory) {
    if !d.present then (MissingDirectory, d)
    else if d.foreign then (ForeignFile, d)
    else (if d.backup.Some? && !opens then CannotOpen else Content(d.backup), d.(pre := None))
  }

  /** What can go wrong with a write: the second file cannot be opened, or it cannot take the place of the first. */
  datatype Fault = NoFault | NotOpened | NotRenamed

  /** The directory after a write. */
  function Written(d: Directory, state: string, fault: Fault): Directory {
    match fault
    case NoFault => d.(backup := Some(state), pre := None)
    case NotOpened => d
    case NotRenamed => d.(pre := Some(state))
  }

  /** `clear_backup` */
  function Cleared(d: Directory): Directory {
    d.(pre := if d.present then None else d.pre, backup := None)
  }

  class Robot {
    var dir: Directory
    var last: Option<Seq>

    /** A handle on the directory that an earlier process may have left. */
    constructor (d: Directory, clear: bool)
      ensures last == None && dir == (if clear then Cleared(d) else d).(present := true)
      ensures dir.present && dir.foreign == d.foreign && dir.backup == (if clear then None else d.backup)
      ensures dir.pre == if clear && d.present then None else d.pre
    {
      var d' := d;
      if clear {
        if d'.present {
          d' := d'.(pre := None);
        }
        d' := d'.(backup := None);
      }
      dir := d'.(present := true);
      last := None;
    }

    /** `write_if_new`. It has taken the number even if it fails. */
    method WriteIfNew(b: Backup, fault: Fault) returns (ok: bool)
      modifies this
      ensures ok <==> IsOld(old(last), b.number) || fault == NoFault
      ensures last == if IsOld(old(last), b.number) then old(last) else Some(b.number)
      ensures dir == if IsOld(old(last), b.number) then old(dir) else Written(old(dir), b.state, fault)
    {
      if last.Some? {
        if AtMost(b.number, last.value) {
          return true;
        }
      }
      last := Some(b.number);
      ok := Write(b.state, fault);
    }

    method Write(state: string, fault: Fault) returns (ok: bool)
      modifies this`dir
      ensures ok <==> fault == NoFault
      ensures dir == Written(old(dir), state, fault)
      ensures dir.present == old(dir).present && dir.foreign == old(dir).foreign
      ensures dir.backup == if fault == NoFault then Some(state) else old(dir).backup
      ensures dir.pre == if fault == NoFault then None else if fault == NotRenamed then Some(state) else old(dir).pre
    {
      if fault == NotOpened {
        return false;
      }
      dir := dir.(pre := Some(""));
      for k := 0 to |state|
        invariant dir == old(dir).(pre := Some(state[..k]))
      {
        dir := dir.(pre := Some(dir.pre.value + [state[k]]));
        assert state[..k + 1] == state[..k] + [state[k]];
      }
      assert state[..|state|] == state;
      if fault == NotRenamed {
        return false;
      }
      dir := dir.(backup := dir.pre, pre := None);
      ok := true;
    }

    /** `read` */
    method Read(opens: bool) returns (r: ReadResult)
      modifies this`dir
      ensures (r, dir) == ReadFrom(old(dir), opens)
      ensures !old(dir).present ==> r == MissingDirectory && dir == old(dir)
      ensures old(dir).present && old(dir).foreign ==> r == ForeignFile && dir == old(dir)
      ensures old(dir).present && !old(dir).foreign ==>
                && dir == old(dir).(pre := None)
                && r == if old(dir).backup.Some? && !opens then CannotOpen else Content(old(dir).backup)
    {
      if !dir.present {
        return MissingDirectory;
      }
      if dir.backup.None? && dir.pre.None? && !dir.foreign {
        return Content(None);
      }
      if dir.foreign {
        return ForeignFile;
      }
      if dir.backup.Some? {
        if dir.pre.Some? {
          dir := dir.(pre := None);
        }
        if !opens {
          return CannotOpen;
        }
        return Content(dir.backup);
      } else {
        if dir.pre.Some? {
          dir := dir.(pre := None);
        }
        return Content(None);
      }
    }
  }

  // ---- the newest backup ----

  /** Which of the backups that it was given a handle has last tried to write. */
  function Kept(backups: seq<Backup>): (k: Option<nat>)
    ensures k.None? <==> backups == []
    ensures k.Some? ==> k.value < |backups|
  {
    if backups == [] then None
    else
      var kept := Kept(backups[..|backups| - 1]);
      if kept.Some? && AtMost(Last(backups).number, backups[kept.value].number) then kept else Some(|backups| - 1)
  }

  /** The content of the file after those of these writes that did not fail. */
  function Stored(backups: seq<Backup>, faults: nat -> Fault, before: Option<string>): Option<string> {
    if backups == [] then before
    else
      var k := |backups| - 1;
      if Kept(backups) == Some(k) && faults(k).NoFault? then Some(backups[k].state)
      else Stored(backups[..k], faults, before)
  }

  /** A handle that is given backups one after the other remembers the number of the kept one, and has the content
      of the last one that it kept and could write in its file. */
  method WriteAll(robot: Robot, backups: seq<Backup>, faults: nat -> Fault)
    requires robot.last == None
    modifies robot
    ensures robot.last == if backups == [] then None else Some(backups[Kept(backups).value].number)
    ensures robot.dir.backup == Stored(backups, faults, old(robot.dir.backup))
  {
    for i := 0 to |backups|
      invariant robot.last == if i == 0 then None else Some(backups[Kept(backups[..i]).value].number)
      invariant robot.dir.backup == Stored(backups[..i], faults, old(robot.dir.backup))
    {
      assert backups[..i + 1][..i] == backups[..i];
      var _ := robot.WriteIfNew(backups[i], faults(i));
    }
    assert backups[..|backups|] == backups;
  }

  /** The file holds what was kept if that could be written; otherwise it keeps what was there before the kept backup
      was given, although no backup with a number up to that one is accepted any more. */
  lemma {:induction false} StoredIsKept(backups: seq<Backup>, faults: nat -> Fault, before: Option<string>)
    requires backups != []
    ensures var k := Kept(backups).value;
            Stored(backups, faults, before)
            == if faults(k).NoFault? then Some(backups[k].state) else Stored(backups[..k], faults, before)
  {
    var n := |backups| - 1;
    if Kept(backups) != Some(n) {
      StoredIsKept(backups[..n], faults, before);
      assert backups[..n][..Kept(backups).value] == backups[..Kept(backups).value];
    }
  }

  /** If all numbers lie within half the range, whatever their order and wherever the range wraps around,
      the kept backup is the one with the greatest number, and the first of those. */
  lemma {:induction false} KeepsGreatest(base: Seq, backups: seq<Backup>)
    requires backups != [] && forall b | b in backups :: InWindow(base, b.number)
    ensures var k := Kept(backups).value;
            && (forall i | 0 <= i < |backups| ::
                  Offset(base, backups[i].number) <= Offset(base, backups[k].number))
            && (forall i | 0 <= i < k :: Offset(base, backups[i].number) < Offset(base, backups[k].number))
  {
    hide Offset, AtMost;
    var pre, b := backups[..|backups| - 1], Last(backups);
    assert b in backups && forall x | x in pre :: x in backups;
    if pre != [] {
      KeepsGreatest(base, pre);
      var k := Kept(pre).value;
      assert pre[k] in pre && pre[k] == backups[k];
      WindowOrder(base, b.number, pre[k].number);
    }
  }

  // ---- crashes ----

  /** What the process that uses the directory is doing: it is down, idle, filling the second file, of which it
      has written a part, or about to rename it. */
  datatype Activity = Down | Idle | Filling(state: string, written: nat) | Filled(state: string)

  /** `committed` is the state of the last write whose rename has happened, unless it was cleared since. */
  datatype System = System(dir: Directory, activity: Activity, last: Option<Seq>, committed: Option<string>)

  datatype Action =
    | Start(clear: bool)
    | Write(backup: Backup, opens: bool)
    | Append
    | Close
    | Rename(succeeds: bool)
    | Read(opens: bool)
    | Crash
    | Shutdown(clear: bool)

  predicate Possible(s: System, a: Action) {
    match a
    case Start(_) => s.activity.Down?
    case Write(_, _) => s.activity.Idle?
    case Append => s.activity.Filling? && s.activity.written < |s.activity.state|
    case Close => s.activity.Filling? && s.activity.written == |s.activity.state|
    case Rename(_) => s.activity.Filled?
    case Read(_) => s.activity.Idle?
    case Crash => !s.activity.Down?
    case Shutdown(_) => s.activity.Idle?
  }

  /** One action. A write that fails has already taken its number. */
  function Step(s: System, a: Action): System
    requires Possible(s, a)
  {
    match a
    case Start(clear) =>
      s.(dir := (if clear then Cleared(s.dir) else s.dir).(present := true), activity := Idle, last := None,
         committed := if clear then None else s.committed)
    case Write(b, opens) =>
      if IsOld(s.last, b.number) then s
      else if !opens then s.(last := Some(b.number))
      else s.(last := Some(b.number), dir := s.dir.(pre := Some("")), activity := Filling(b.state, 0))
    case Append =>
      var k := s.activity.written + 1;
      s.(dir := s.dir.(pre := Some(s.activity.state[..k])), activity := Filling(s.activity.state, k))
    case Close => s.(activity := Filled(s.activity.state))
    case Rename(succeeds) =>
      if !succeeds then s.(activity := Idle)
      else s.(dir := s.dir.(backup := s.dir.pre, pre := None), activity := Idle, committed := Some(s.activity.state))
    case Read(opens) => s.(dir := ReadFrom(s.dir, opens).1)
    case Crash => s.(activity := Down)
    case Shutdown(clear) =>
      s.(dir := if clear then Cleared(s.dir) else s.dir, activity := Down,
         committed := if clear then None else s.committed)
  }

  /** The system after `actions`, if all of them are possible. */
  function Steps(s: System, actions: seq<Action>): Option<System>
    decreases |actions|
  {
    if actions == [] then Some(s)
    else if Possible(s, actions[0]) then Steps(Step(s, actions[0]), actions[1..])
    else None
  }

  lemma {:induction false} StepsConcat(s: System, x: seq<Action>, y: seq<Action>)
    requires Steps(s, x).Some?
    ensures Steps(s, x + y) == Steps(Steps(s, x).value, y)
    decreases |x|
  {
    if x == [] {
      assert x + y == y;
    } else {
      assert (x + y)[1..] == x[1..] + y;
      StepsConcat(Step(s, x[0]), x[1..], y);
    }
  }

  function Appends(k: nat): seq<Action> {
    seq(k, _ => Append)
  }

  lemma {:induction false} Fills(s: System, k: nat)
    requires s.activity.Filling? && k == |s.activity.state| - s.activity.written
    requires s.dir.pre == Some(s.activity.state[..s.activity.written])
    ensures var state := s.activity.state;
            Steps(s, Appends(k)) == Some(s.(dir := s.dir.(pre := Some(state)), activity := Filling(state, |state|)))
    decreases k
  {
    var state := s.activity.state;
    if k == 0 {
      assert state[..|state|] == state;
    } else {
      assert Appends(k)[1..] == Appends(k - 1);
      Fills(Step(s, Append), k - 1);
    }
  }

  /** What a write of a handle does, action by action. */
  function WriteActions(b: Backup, fault: Fault): seq<Action> {
    if fault == NotOpened then [Write(b, false)]
    else [Write(b, true)] + (Appends(|b.state|) + [Close, Rename(fault == NoFault)])
  }

  /** The steps of the system, between any two of which a crash may come, make up the write of a handle. */
  lemma WriteIsRun(s: System, b: Backup, fault: Fault)
    requires s.activity.Idle? && !IsOld(s.last, b.number)
    ensures Steps(s, WriteActions(b, fault))
            == Some(s.(dir := Written(s.dir, b.state, fault), last := Some(b.number),
                       committed := if fault == NoFault then Some(b.state) else s.committed))
  {
    if fault != NotOpened {
      var s1 := Step(s, Write(b, true));
      assert WriteActions(b, fault)[1..] == Appends(|b.state|) + [Close, Rename(fault == NoFault)];
      Fills(s1, |b.state|);
      StepsConcat(s1, Appends(|b.state|), [Close, Rename(fault == NoFault)]);
      var s2 := Steps(s1, Appends(|b.state|)).value;
      assert [Close, Rename(fault == NoFault)][1..] == [Rename(fault == NoFault)];
      assert Steps(Step(s2, Close), [Rename(fault == NoFault)])
             == Some(Step(Step(s2, Close), Rename(fault == NoFault)));
    }
  }

  predicate Runs(actions: seq<Action>)
    decreases |actions|, 0
  {
    actions == [] || (Runs(actions[..|actions| - 1]) && Possible(After(actions[..|actions| - 1]), Last(actions)))
  }

  /** An empty disk, and then `actions`. */
  function After(actions: seq<Action>): System
    requires Runs(actions)
    decreases |actions|, 1
  {
    if actions == [] then System(Directory(false, None, None, false), Down, None, None)
    else Step(After(actions[..|actions| - 1]), Last(actions))
  }

  ghost predicate SystemOk(s: System) {
    && s.dir.backup == s.committed && !s.dir.foreign
    && (!s.activity.Down? ==> s.dir.present)
    && (s.activity.Filling? ==>
          s.activity.written <= |s.activity.state| && s.dir.pre == Some(s.activity.state[..s.activity.written]))
    && (s.activity.Filled? ==> s.dir.pre == Some(s.activity.state))
  }

  /** Through every run of writes, reads and crashes at any point, and over any number of processes, a read returns
      the whole state of the last write whose rename has happened, or nothing if there was none since the
      backup was cleared. */
  lemma {:induction false} ReadsLastCommitted(actions: seq<Action>)
    requires Runs(actions)
    ensures SystemOk(After(actions))
    ensures After(actions).activity.Idle? ==>
              var s := After(actions);
              && ReadFrom(s.dir, true).0 == Content(s.committed)
              && ReadFrom(s.dir, false).0 == if s.committed.Some? then CannotOpen else Content(None)
  {
    if actions != [] {
      var pre := actions[..|actions| - 1];
      ReadsLastCommitted(pre);
      StepOk(After(pre), Last(actions));
    }
  }

  lemma StepOk(s: System, a: Action)
    requires SystemOk(s) && Possible(s, a)
    ensures SystemOk(Step(s, a))
  {
    if a.Close? {
      assert s.activity.state[..|s.activity.state|] == s.activity.state;
    }
  }
}
