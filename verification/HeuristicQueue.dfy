/** The queue that estimates the cost of the tasks which are still unassigned: every
    task, in turn, goes to the agent that becomes free first. */
module HeuristicQueue {
  import opened Domain
  import Bags

  /** A task with its booked start and its duration, in seconds. */
  datatype Task = Task(start: real, duration: real)

  // ---- the queue as a function ----

  predicate Ascending(ends: seq<real>) {
    forall i, j | 0 <= i < j < |ends| :: ends[i] <= ends[j]
  }

  function Insert(ends: seq<real>, x: real): seq<real> {
    if ends == [] || x <= ends[0] then [x] + ends else [ends[0]] + Insert(ends[1..], x)
  }

  /** The cost of giving the tasks, in this order, to the agents that become free first. */
  function QueueCost(ends: seq<real>, tasks: seq<Task>): real
    requires ends != []
    decreases |tasks|
  {
    if tasks == [] then 0.0
    else
      var end := ends[0] + tasks[0].duration;
      MaxReal(0.0, end - tasks[0].start) + QueueCost(Insert(ends[1..], end), tasks[1..])
  }

  lemma {:induction false} InsertElements(ends: seq<real>, x: real)
    ensures multiset(Insert(ends, x)) == multiset(ends) + multiset{x}
    ensures |Insert(ends, x)| == |ends| + 1
  {
    if ends == [] || x <= ends[0] {
    } else {
      InsertElements(ends[1..], x);
      assert ends == [ends[0]] + ends[1..];
    }
  }

  lemma {:induction false} InsertAscending(ends: seq<real>, x: real)
    requires Ascending(ends)
    ensures Ascending(Insert(ends, x))
  {
    if ends == [] || x <= ends[0] {
    } else {
      InsertAscending(ends[1..], x);
      InsertElements(ends[1..], x);
      var t := Insert(ends[1..], x);
      forall k | 0 <= k < |t| ensures ends[0] <= t[k] {
        assert t[k] in multiset(t);
        assert t[k] in ends[1..] || t[k] == x;
      }
      assert Insert(ends, x) == [ends[0]] + t;
    }
  }

  // ---- schedules ----

  /** An agent that is free from `ready` on and then performs `tasks` one after the other. */
  datatype Line = Line(ready: real, tasks: seq<Task>)

  function TotalDuration(tasks: seq<Task>): real {
    if tasks == [] then 0.0 else tasks[0].duration + TotalDuration(tasks[1..])
  }

  /** The sum over the tasks of a line of the time between their booked start and their end. */
  function LineCost(ready: real, tasks: seq<Task>): real
    decreases |tasks|
  {
    if tasks == [] then 0.0
    else ready + tasks[0].duration - tasks[0].start + LineCost(ready + tasks[0].duration, tasks[1..])
  }

  function ScheduleCost(lines: seq<Line>): real {
    if lines == [] then 0.0 else LineCost(lines[0].ready, lines[0].tasks) + ScheduleCost(lines[1..])
  }

  function Readies(lines: seq<Line>): multiset<real> {
    if lines == [] then multiset{} else multiset{lines[0].ready} + Readies(lines[1..])
  }

  function Tasks(lines: seq<Line>): multiset<Task> {
    if lines == [] then multiset{} else multiset(lines[0].tasks) + Tasks(lines[1..])
  }

  // ---- the effect of changing one line ----

  /** An agent that is free later by `d` delays all its tasks. */
  lemma {:induction false} LineCostLater(ready: real, d: real, tasks: seq<Task>)
    ensures LineCost(ready + d, tasks) == LineCost(ready, tasks) + |tasks| as real * d
    decreases |tasks|
  {
    if tasks != [] {
      LineCostLater(ready + tasks[0].duration, d, tasks[1..]);
      assert ready + d + tasks[0].duration == ready + tasks[0].duration + d;
      OneMore(|tasks[1..]| as real, d);
      assert |tasks| as real == |tasks[1..]| as real + 1.0;
    }
  }

  lemma OneMore(k: real, d: real)
    ensures (k + 1.0) * d == k * d + d
  {
  }

  lemma {:induction false} LineCostConcat(ready: real, x: seq<Task>, y: seq<Task>)
    ensures LineCost(ready, x + y) == LineCost(ready, x) + LineCost(ready + TotalDuration(x), y)
    decreases |x|
  {
    if x == [] {
      assert x + y == y;
    } else {
      assert (x + y)[1..] == x[1..] + y;
      LineCostConcat(ready + x[0].duration, x[1..], y);
    }
  }

  lemma {:induction false} LongerThan(tasks: seq<Task>, d: real)
    requires forall t | t in tasks :: d <= t.duration
    ensures |tasks| as real * d <= TotalDuration(tasks)
  {
    if tasks != [] {
      LongerThan(tasks[1..], d);
      assert |tasks| as real * d == d + |tasks[1..]| as real * d;
    }
  }

  lemma LineCostCons(ready: real, t: Task, y: seq<Task>)
    ensures LineCost(ready, [t] + y) == ready + t.duration - t.start + LineCost(ready + t.duration, y)
  {
  }

  /** Moving the shortest task of a line to its front does not raise the cost. */
  lemma ToFront(ready: real, x: seq<Task>, t: Task, y: seq<Task>)
    requires forall u | u in x :: t.duration <= u.duration
    ensures LineCost(ready, [t] + (x + y)) <= LineCost(ready, x + ([t] + y))
  {
    hide LineCost, TotalDuration;
    LineCostConcat(ready, x, [t] + y);
    LineCostCons(ready + TotalDuration(x), t, y);
    LineCostCons(ready, t, x + y);
    LineCostConcat(ready + t.duration, x, y);
    LineCostLater(ready, t.duration, x);
    LongerThan(x, t.duration);
    assert ready + t.duration + TotalDuration(x) == ready + TotalDuration(x) + t.duration;
  }

  /** Exchanging all tasks of two agents: the longer list goes to the one that is free earlier. */
  lemma SwapLists(early: real, late: real, x: seq<Task>, y: seq<Task>)
    requires early <= late && |y| <= |x|
    ensures LineCost(early, x) + LineCost(late, y) <= LineCost(late, x) + LineCost(early, y)
  {
    hide LineCost;
    var d := late - early;
    LineCostLater(early, d, x);
    LineCostLater(early, d, y);
    assert early + d == late;
    MoreOf(|y| as real, |x| as real, d);
  }

  lemma MoreOf(k: real, l: real, d: real)
    requires k <= l && d >= 0.0
    ensures k * d <= l * d
  {
  }

  /** Exchanging the first tasks of two agents: the shorter task goes to the longer list. */
  lemma SwapFirst(early: real, late: real, t: Task, x: seq<Task>, u: Task, y: seq<Task>)
    requires t.duration <= u.duration && |x| <= |y|
    ensures LineCost(early, [t] + y) + LineCost(late, [u] + x) <= LineCost(late, [t] + x) + LineCost(early, [u] + y)
  {
    hide LineCost;
    LineCostCons(early, t, y);
    LineCostCons(late, u, x);
    LineCostCons(late, t, x);
    LineCostCons(early, u, y);
    var d := u.duration - t.duration;
    LineCostLater(early + t.duration, d, y);
    LineCostLater(late + t.duration, d, x);
    assert early + t.duration + d == early + u.duration && late + t.duration + d == late + u.duration;
    MoreOf(|x| as real, |y| as real, d);
  }

  // ---- the effect of changing a schedule ----

  lemma {:induction false} UpdateCost(lines: seq<Line>, i: nat, l: Line)
    requires i < |lines|
    ensures ScheduleCost(lines[i := l])
            == ScheduleCost(lines) - LineCost(lines[i].ready, lines[i].tasks) + LineCost(l.ready, l.tasks)
  {
    hide LineCost;
    if i == 0 {
      assert lines[i := l][1..] == lines[1..];
    } else {
      assert lines[i := l][1..] == lines[1..][i - 1 := l];
      UpdateCost(lines[1..], i - 1, l);
    }
  }

  lemma {:induction false} UpdateReadies(lines: seq<Line>, i: nat, l: Line)
    requires i < |lines|
    ensures Readies(lines[i := l]) + multiset{lines[i].ready} == Readies(lines) + multiset{l.ready}
  {
    if i == 0 {
      assert lines[i := l][1..] == lines[1..];
    } else {
      assert lines[i := l][1..] == lines[1..][i - 1 := l];
      UpdateReadies(lines[1..], i - 1, l);
      Bags.Behind(multiset{lines[0].ready}, Readies(lines[1..][i - 1 := l]), multiset{lines[i].ready},
                  Readies(lines[1..]), multiset{l.ready});
    }
  }

  lemma {:induction false} UpdateTasks(lines: seq<Line>, i: nat, l: Line)
    requires i < |lines|
    ensures Tasks(lines[i := l]) + multiset(lines[i].tasks) == Tasks(lines) + multiset(l.tasks)
  {
    if i == 0 {
      assert lines[i := l][1..] == lines[1..];
    } else {
      assert lines[i := l][1..] == lines[1..][i - 1 := l];
      UpdateTasks(lines[1..], i - 1, l);
      Bags.Behind(multiset(lines[0].tasks), Tasks(lines[1..][i - 1 := l]), multiset(lines[i].tasks),
                  Tasks(lines[1..]), multiset(l.tasks));
    }
  }

  lemma {:induction false} FindTask(lines: seq<Line>, t: Task) returns (i: nat, k: nat)
    requires t in Tasks(lines)
    ensures i < |lines| && k < |lines[i].tasks| && lines[i].tasks[k] == t
  {
    if t in lines[0].tasks {
      i := 0;
      k :| 0 <= k < |lines[0].tasks| && lines[0].tasks[k] == t;
    } else {
      i, k := FindTask(lines[1..], t);
      i := i + 1;
    }
  }

  lemma {:induction false} FindReady(lines: seq<Line>, r: real) returns (i: nat)
    requires r in Readies(lines)
    ensures i < |lines| && lines[i].ready == r
  {
    if r == lines[0].ready {
      i := 0;
    } else {
      i := FindReady(lines[1..], r);
      i := i + 1;
    }
  }

  lemma {:induction false} LineTask(lines: seq<Line>, i: nat, t: Task)
    requires i < |lines| && t in lines[i].tasks
    ensures t in Tasks(lines)
  {
    if i > 0 {
      LineTask(lines[1..], i - 1, t);
    }
  }

  lemma {:induction false} LineReady(lines: seq<Line>, i: nat)
    requires i < |lines|
    ensures lines[i].ready in Readies(lines)
  {
    if i > 0 {
      LineReady(lines[1..], i - 1);
    }
  }

  // ---- the exchange argument ----

  predicate Shortest(t: Task, tasks: multiset<Task>) {
    forall u | u in tasks :: t.duration <= u.duration
  }

  /** Two schedules of the same tasks for the same agents. */
  ghost predicate SameJobs(x: seq<Line>, y: seq<Line>) {
    |x| == |y| && Readies(x) == Readies(y) && Tasks(x) == Tasks(y)
  }

  /** Any schedule can be changed, without raising its cost, so that a shortest task comes first in its
      line. */
  lemma MoveToFront(lines: seq<Line>, t: Task) returns (lines': seq<Line>, i: nat)
    requires t in Tasks(lines) && Shortest(t, Tasks(lines))
    ensures SameJobs(lines, lines') && ScheduleCost(lines') <= ScheduleCost(lines)
    ensures i < |lines'| && lines'[i].tasks != [] && lines'[i].tasks[0] == t
    ensures forall j | 0 <= j < |lines| :: lines'[j].ready == lines[j].ready
  {
    hide ScheduleCost, LineCost, Readies, Tasks;
    var k;
    i, k := FindTask(lines, t);
    var l := lines[i].tasks;
    var x, y := l[..k], l[k + 1..];
    assert l == x + ([t] + y);
    forall u | u in x ensures t.duration <= u.duration {
      LineTask(lines, i, u);
    }
    ToFront(lines[i].ready, x, t, y);
    var line := Line(lines[i].ready, [t] + (x + y));
    lines' := lines[i := line];
    UpdateCost(lines, i, line);
    UpdateReadies(lines, i, line);
    UpdateTasks(lines, i, line);
    assert multiset(line.tasks) == multiset(l);
    Bags.CancelSame(Tasks(lines'), multiset(l), Tasks(lines));
    Bags.CancelSame(Readies(lines'), multiset{lines[i].ready}, Readies(lines));
  }

  /** Two lines of a schedule are replaced by lines with the same tasks. */
  lemma ReplaceTwo(lines: seq<Line>, i: nat, j: nat, x: seq<Task>, y: seq<Task>) returns (lines': seq<Line>)
    requires i < |lines| && j < |lines| && i != j
    requires multiset(x) + multiset(y) == multiset(lines[i].tasks) + multiset(lines[j].tasks)
    ensures SameJobs(lines, lines')
    ensures lines'[i] == Line(lines[i].ready, x)
    ensures ScheduleCost(lines')
            == ScheduleCost(lines) - LineCost(lines[i].ready, lines[i].tasks) - LineCost(lines[j].ready, lines[j].tasks)
               + LineCost(lines[i].ready, x) + LineCost(lines[j].ready, y)
  {
    hide ScheduleCost, LineCost, Readies, Tasks;
    var li, lj := Line(lines[i].ready, x), Line(lines[j].ready, y);
    var middle := lines[i := li];
    lines' := middle[j := lj];
    UpdateCost(lines, i, li);
    UpdateCost(middle, j, lj);
    UpdateReadies(lines, i, li);
    UpdateReadies(middle, j, lj);
    Bags.CancelSame(Readies(middle), multiset{li.ready}, Readies(lines));
    Bags.CancelSame(Readies(lines'), multiset{lj.ready}, Readies(middle));
    UpdateTasks(lines, i, li);
    UpdateTasks(middle, j, lj);
    ReplacedTasks(Tasks(lines), Tasks(middle), Tasks(lines'), multiset(lines[i].tasks), multiset(lines[j].tasks),
                  multiset(x), multiset(y));
  }

  lemma ReplacedTasks(a: multiset<Task>, b: multiset<Task>, c: multiset<Task>, p: multiset<Task>, q: multiset<Task>,
                      x: multiset<Task>, y: multiset<Task>)
    requires b + p == a + x && c + q == b + y && x + y == p + q
    ensures a == c
  {
    forall t ensures a[t] == c[t] {
      assert (b + p)[t] == (a + x)[t] && (c + q)[t] == (b + y)[t] && (x + y)[t] == (p + q)[t];
    }
  }

  /** Any schedule can be changed, without raising its cost, so that a shortest task comes first in
      the line of an agent that is free first. */
  lemma MoveToEarliest(lines: seq<Line>, t: Task, m: nat) returns (lines': seq<Line>)
    requires t in Tasks(lines) && Shortest(t, Tasks(lines))
    requires m < |lines| && forall j | 0 <= j < |lines| :: lines[m].ready <= lines[j].ready
    ensures SameJobs(lines, lines') && ScheduleCost(lines') <= ScheduleCost(lines)
    ensures lines'[m].ready == lines[m].ready && lines'[m].tasks != [] && lines'[m].tasks[0] == t
  {
    hide ScheduleCost, LineCost, Readies, Tasks;
    var front, i := MoveToFront(lines, t);
    var early, late := front[m].ready, front[i].ready;
    var p, q := front[i].tasks, front[m].tasks;
    if i == m {
      lines' := front;
    } else if |q| <= |p| {
      lines' := ReplaceTwo(front, m, i, p, q);
      SwapLists(early, late, p, q);
    } else {
      var x, y := p[1..], q[1..];
      assert p == [t] + x && q == [q[0]] + y;
      LineTask(front, m, q[0]);
      assert multiset([t] + y) + multiset([q[0]] + x) == multiset(q) + multiset(p);
      lines' := ReplaceTwo(front, m, i, [t] + y, [q[0]] + x);
      SwapFirst(early, late, t, x, q[0], y);
    }
  }

  // ---- the queue is optimal ----

  predicate AscendingDurations(tasks: seq<Task>) {
    && (forall t | t in tasks :: t.duration >= 0.0)
    && forall i, j | 0 <= i < j < |tasks| :: tasks[i].duration <= tasks[j].duration
  }

  /** No task is booked for a time after an agent is free. */
  predicate Booked(ends: seq<real>, tasks: seq<Task>) {
    forall e, t | e in ends && t in tasks :: t.start <= e
  }

  /** If the tasks come in the order of their durations and none is booked for a time after an agent is
      free, the cost that the queue estimates is at most the cost of any way of giving
      the tasks to the agents, in any order. */
  lemma {:induction false} QueueIsLowerBound(ends: seq<real>, tasks: seq<Task>, lines: seq<Line>)
    requires ends != [] && Ascending(ends) && AscendingDurations(tasks) && Booked(ends, tasks)
    requires Readies(lines) == multiset(ends) && Tasks(lines) == multiset(tasks)
    ensures QueueCost(ends, tasks) <= ScheduleCost(lines)
    decreases |tasks|
  {
    hide ScheduleCost, LineCost, Readies, Tasks, Insert;
    if tasks == [] {
      NoTasksNoCost(lines);
    } else {
      var t := tasks[0];
      assert t in multiset(tasks);
      assert ends[0] in multiset(ends);
      var m := FindReady(lines, ends[0]);
      FirstIsEarliest(ends, lines, m);
      FirstIsShortest(tasks);
      var lines1 := MoveToEarliest(lines, t, m);
      var end := ends[0] + t.duration;
      var rest := lines1[m].tasks[1..];
      assert lines1[m].tasks == [t] + rest;
      var lines2 := lines1[m := Line(end, rest)];
      UpdateCost(lines1, m, Line(end, rest));
      LineCostCons(ends[0], t, rest);
      AfterFirst(ends, tasks, lines1, m, rest);
      BookedStill(ends, tasks);
      QueueIsLowerBound(Insert(ends[1..], end), tasks[1..], lines2);
    }
  }

  lemma {:induction false} NoTasksNoCost(lines: seq<Line>)
    requires Tasks(lines) == multiset{}
    ensures ScheduleCost(lines) == 0.0
  {
    if lines != [] {
      assert multiset(lines[0].tasks) <= Tasks(lines);
      assert |multiset(lines[0].tasks)| == |lines[0].tasks|;
      NoTasksNoCost(lines[1..]);
    }
  }

  lemma FirstIsEarliest(ends: seq<real>, lines: seq<Line>, m: nat)
    requires Ascending(ends) && ends != [] && Readies(lines) == multiset(ends)
    requires m < |lines| && lines[m].ready == ends[0]
    ensures forall j | 0 <= j < |lines| :: lines[m].ready <= lines[j].ready
  {
    hide Readies;
    forall j | 0 <= j < |lines| ensures lines[m].ready <= lines[j].ready {
      LineReady(lines, j);
      assert lines[j].ready in ends;
    }
  }

  lemma FirstIsShortest(tasks: seq<Task>)
    requires AscendingDurations(tasks) && tasks != []
    ensures Shortest(tasks[0], multiset(tasks))
  {
  }

  /** What is left of the agents and the tasks once the first task is performed. */
  lemma AfterFirst(ends: seq<real>, tasks: seq<Task>, lines: seq<Line>, m: nat, rest: seq<Task>)
    requires ends != [] && tasks != [] && m < |lines| && lines[m] == Line(ends[0], [tasks[0]] + rest)
    requires Readies(lines) == multiset(ends) && Tasks(lines) == multiset(tasks)
    ensures var end := ends[0] + tasks[0].duration;
            var lines' := lines[m := Line(end, rest)];
            && Readies(lines') == multiset(Insert(ends[1..], end))
            && Tasks(lines') == multiset(tasks[1..])
  {
    hide Readies, Tasks, Insert;
    var end := ends[0] + tasks[0].duration;
    var lines' := lines[m := Line(end, rest)];
    UpdateReadies(lines, m, Line(end, rest));
    InsertElements(ends[1..], end);
    assert ends == [ends[0]] + ends[1..];
    assert Readies(lines') + multiset{ends[0]} == multiset(ends[1..]) + multiset{end} + multiset{ends[0]};
    Bags.CancelSame(Readies(lines'), multiset{ends[0]}, multiset(ends[1..]) + multiset{end});
    UpdateTasks(lines, m, Line(end, rest));
    assert tasks == [tasks[0]] + tasks[1..];
    Bags.CancelSame(Tasks(lines'), multiset([tasks[0]] + rest), multiset(tasks[1..]));
  }

  lemma BookedStill(ends: seq<real>, tasks: seq<Task>)
    requires ends != [] && tasks != [] && Ascending(ends) && AscendingDurations(tasks) && Booked(ends, tasks)
    ensures var ends' := Insert(ends[1..], ends[0] + tasks[0].duration);
            ends' != [] && Ascending(ends') && Booked(ends', tasks[1..]) && AscendingDurations(tasks[1..])
    ensures ends[0] + tasks[0].duration - tasks[0].start >= 0.0
  {
    hide Insert;
    var end := ends[0] + tasks[0].duration;
    var ends' := Insert(ends[1..], end);
    InsertAscending(ends[1..], end);
    InsertElements(ends[1..], end);
    assert ends[0] in ends && tasks[0] in tasks;
    forall e, t | e in ends' && t in tasks[1..] ensures t.start <= e {
      assert e in multiset(ends');
      assert e in ends[1..] || e == end;
      assert e != end ==> e in ends;
      assert t in tasks;
    }
  }

  /** The bound is attained: the queue itself is a schedule of that cost. */
  lemma {:induction false} QueueIsAttained(ends: seq<real>, tasks: seq<Task>) returns (lines: seq<Line>)
    requires ends != [] && Ascending(ends) && AscendingDurations(tasks) && Booked(ends, tasks)
    ensures Readies(lines) == multiset(ends) && Tasks(lines) == multiset(tasks)
    ensures ScheduleCost(lines) == QueueCost(ends, tasks)
    decreases |tasks|
  {
    if tasks == [] {
      lines := IdleLines(ends);
    } else {
      hide ScheduleCost, LineCost, Readies, Tasks, Insert, Ascending, AscendingDurations, Booked;
      BookedStill(ends, tasks);
      var later := QueueIsAttained(Insert(ends[1..], ends[0] + tasks[0].duration), tasks[1..]);
      lines := FirstAdded(ends, tasks, later);
    }
  }

  /** A schedule of the other tasks, with the first task put in front of them. */
  lemma FirstAdded(ends: seq<real>, tasks: seq<Task>, later: seq<Line>) returns (lines: seq<Line>)
    requires ends != [] && tasks != []
    requires Readies(later) == multiset(Insert(ends[1..], ends[0] + tasks[0].duration))
    requires Tasks(later) == multiset(tasks[1..])
    ensures Readies(lines) == multiset(ends) && Tasks(lines) == multiset(tasks)
    ensures ScheduleCost(lines) == ScheduleCost(later) + (ends[0] + tasks[0].duration - tasks[0].start)
  {
    hide ScheduleCost, LineCost, Readies, Tasks, Insert;
    var end := ends[0] + tasks[0].duration;
    InsertElements(ends[1..], end);
    assert end in Readies(later);
    var m := FindReady(later, end);
    var line := Line(ends[0], [tasks[0]] + later[m].tasks);
    lines := later[m := line];
    UpdateCost(later, m, line);
    LineCostCons(ends[0], tasks[0], later[m].tasks);
    ReadiesBefore(ends, end, later, m, line);
    TasksBefore(tasks, later, m, line);
  }

  lemma ReadiesBefore(ends: seq<real>, end: real, later: seq<Line>, m: nat, line: Line)
    requires ends != [] && Readies(later) == multiset(Insert(ends[1..], end))
    requires m < |later| && later[m].ready == end && line.ready == ends[0]
    ensures Readies(later[m := line]) == multiset(ends)
  {
    hide Readies, Insert;
    UpdateReadies(later, m, line);
    InsertElements(ends[1..], end);
    assert ends == [ends[0]] + ends[1..];
    Bags.CancelSame(Readies(later[m := line]), multiset{end}, multiset(ends));
  }

  lemma TasksBefore(tasks: seq<Task>, later: seq<Line>, m: nat, line: Line)
    requires tasks != [] && Tasks(later) == multiset(tasks[1..])
    requires m < |later| && line.tasks == [tasks[0]] + later[m].tasks
    ensures Tasks(later[m := line]) == multiset(tasks)
  {
    hide Tasks;
    UpdateTasks(later, m, line);
    assert tasks == [tasks[0]] + tasks[1..];
    Bags.CancelSame(Tasks(later[m := line]), multiset(later[m].tasks), multiset(tasks));
  }

  lemma {:induction false} IdleLines(ends: seq<real>) returns (lines: seq<Line>)
    ensures Readies(lines) == multiset(ends) && Tasks(lines) == multiset{} && ScheduleCost(lines) == 0.0
  {
    if ends == [] {
      lines := [];
    } else {
      var rest := IdleLines(ends[1..]);
      lines := [Line(ends[0], [])] + rest;
      assert lines[1..] == rest;
      assert ends == [ends[0]] + ends[1..];
    }
  }

  // ---- tasks that are not due yet ----

  /** The cost of a line in which a task that ends before its booked start costs nothing. */
  function LateCost(ready: real, tasks: seq<Task>): real
    decreases |tasks|
  {
    if tasks == [] then 0.0
    else
      var end := ready + tasks[0].duration;
      (if end <= tasks[0].start then 0.0 else end - tasks[0].start) + LateCost(end, tasks[1..])
  }

  function TotalLateCost(lines: seq<Line>): real {
    if lines == [] then 0.0 else LateCost(lines[0].ready, lines[0].tasks) + TotalLateCost(lines[1..])
  }

  lemma {:induction false} UpdateLateCost(lines: seq<Line>, i: nat, l: Line)
    requires i < |lines|
    ensures TotalLateCost(lines[i := l])
            == TotalLateCost(lines) - LateCost(lines[i].ready, lines[i].tasks) + LateCost(l.ready, l.tasks)
  {
    hide LateCost;
    if i == 0 {
      assert lines[i := l][1..] == lines[1..];
    } else {
      assert lines[i := l][1..] == lines[1..][i - 1 := l];
      UpdateLateCost(lines[1..], i - 1, l);
    }
  }

  lemma LateCostCons(ready: real, t: Task, y: seq<Task>)
    ensures LateCost(ready, [t] + y)
            == MaxReal(0.0, ready + t.duration - t.start) + LateCost(ready + t.duration, y)
  {
    assert ([t] + y)[1..] == y;
  }

  /** For any tasks and any agents, the cost that the queue estimates is that of a schedule of them, in which no task
      that ends before its booked start makes up for another. */
  lemma {:induction false} QueueIsSchedule(ends: seq<real>, tasks: seq<Task>) returns (lines: seq<Line>)
    requires ends != []
    ensures Readies(lines) == multiset(ends) && Tasks(lines) == multiset(tasks)
    ensures TotalLateCost(lines) == QueueCost(ends, tasks) >= 0.0
    decreases |tasks|
  {
    if tasks == [] {
      lines := IdleLines(ends);
      IdleLateCost(lines);
    } else {
      hide TotalLateCost, LateCost, Readies, Tasks, Insert;
      InsertSome(ends[1..], ends[0] + tasks[0].duration);
      var later := QueueIsSchedule(Insert(ends[1..], ends[0] + tasks[0].duration), tasks[1..]);
      lines := FirstAddedLate(ends, tasks, later);
    }
  }

  lemma InsertSome(ends: seq<real>, x: real)
    ensures Insert(ends, x) != []
  {
  }

  lemma FirstAddedLate(ends: seq<real>, tasks: seq<Task>, later: seq<Line>) returns (lines: seq<Line>)
    requires ends != [] && tasks != []
    requires Readies(later) == multiset(Insert(ends[1..], ends[0] + tasks[0].duration))
    requires Tasks(later) == multiset(tasks[1..])
    ensures Readies(lines) == multiset(ends) && Tasks(lines) == multiset(tasks)
    ensures TotalLateCost(lines)
            == TotalLateCost(later) + MaxReal(0.0, ends[0] + tasks[0].duration - tasks[0].start)
  {
    hide TotalLateCost, LateCost, Readies, Tasks, Insert;
    var end := ends[0] + tasks[0].duration;
    InsertElements(ends[1..], end);
    assert end in Readies(later);
    var m := FindReady(later, end);
    var line := Line(ends[0], [tasks[0]] + later[m].tasks);
    lines := later[m := line];
    UpdateLateCost(later, m, line);
    LateCostCons(ends[0], tasks[0], later[m].tasks);
    ReadiesBefore(ends, end, later, m, line);
    TasksBefore(tasks, later, m, line);
  }

  lemma {:induction false} IdleLateCost(lines: seq<Line>)
    requires Tasks(lines) == multiset{}
    ensures TotalLateCost(lines) == 0.0
  {
    if lines != [] {
      assert multiset(lines[0].tasks) <= Tasks(lines);
      assert |multiset(lines[0].tasks)| == |lines[0].tasks|;
      IdleLateCost(lines[1..]);
    }
  }

  // ---- the order of the tasks ----

  /** The estimate is at most the cost of any schedule, however many agents there are and whenever they become free
      after the tasks are due. */
  ghost predicate SafeOrder(tasks: seq<Task>) {
    forall ends: seq<real>, lines: seq<Line> |
      ends != [] && Ascending(ends) && Booked(ends, tasks)
      && Readies(lines) == multiset(ends) && Tasks(lines) == multiset(tasks) ::
      QueueCost(ends, tasks) <= ScheduleCost(lines)
  }

  /** The order in which the tasks are added is safe exactly if their durations ascend. */
  lemma OrderIsSafeIff(tasks: seq<Task>)
    requires forall t | t in tasks :: t.duration >= 0.0
    ensures SafeOrder(tasks) <==> AscendingDurations(tasks)
  {
    hide QueueCost, ScheduleCost, Readies, Tasks;
    if AscendingDurations(tasks) {
      forall ends: seq<real>, lines: seq<Line> |
        ends != [] && Ascending(ends) && Booked(ends, tasks)
        && Readies(lines) == multiset(ends) && Tasks(lines) == multiset(tasks)
        ensures QueueCost(ends, tasks) <= ScheduleCost(lines)
      {
        QueueIsLowerBound(ends, tasks, lines);
      }
    } else {
      var k := DurationDrops(tasks);
      var ready, lines := SwappedIsCheaper(tasks, k);
      assert QueueCost([ready], tasks) > ScheduleCost(lines);
    }
  }

  lemma {:induction false} DurationDrops(tasks: seq<Task>) returns (k: nat)
    requires (forall t | t in tasks :: t.duration >= 0.0) && !AscendingDurations(tasks)
    ensures k + 1 < |tasks| && tasks[k].duration > tasks[k + 1].duration
  {
    var rest := tasks[1..];
    assert forall t | t in rest :: t in tasks;
    if !AscendingDurations(rest) {
      k := DurationDrops(rest);
      k := k + 1;
    } else {
      k := 0;
      assert forall j | 0 <= j < |rest| :: rest[0].duration <= rest[j].duration;
    }
  }

  /** A single agent takes the tasks in the order in which they are added. */
  lemma {:induction false} OneAgent(ready: real, tasks: seq<Task>)
    requires forall t | t in tasks :: t.duration >= 0.0 && t.start <= ready
    ensures QueueCost([ready], tasks) == LineCost(ready, tasks)
    decreases |tasks|
  {
    if tasks != [] {
      assert [ready][1..] == [] && Insert([], ready + tasks[0].duration) == [ready + tasks[0].duration];
      assert tasks[0] in tasks && forall t | t in tasks[1..] :: t in tasks;
      OneAgent(ready + tasks[0].duration, tasks[1..]);
    }
  }

  lemma {:induction false} LatestStart(tasks: seq<Task>) returns (ready: real)
    ensures forall t | t in tasks :: t.start <= ready
  {
    if tasks == [] {
      ready := 0.0;
    } else {
      var rest := LatestStart(tasks[1..]);
      ready := MaxReal(tasks[0].start, rest);
      assert tasks == [tasks[0]] + tasks[1..];
    }
  }

  lemma SwapNeighbours(ready: real, x: seq<Task>, long: Task, short: Task, y: seq<Task>)
    requires long.duration > short.duration
    ensures LineCost(ready, x + ([short] + ([long] + y))) < LineCost(ready, x + ([long] + ([short] + y)))
  {
    hide LineCost;
    var from := ready + TotalDuration(x);
    LineCostConcat(ready, x, [short] + ([long] + y));
    LineCostConcat(ready, x, [long] + ([short] + y));
    LineCostCons(from, short, [long] + y);
    LineCostCons(from + short.duration, long, y);
    LineCostCons(from, long, [short] + y);
    LineCostCons(from + long.duration, short, y);
    assert from + short.duration + long.duration == from + long.duration + short.duration;
  }

  /** Where durations drop, one agent that is free late does better with the two tasks exchanged. */
  lemma SwappedIsCheaper(tasks: seq<Task>, k: nat) returns (ready: real, lines: seq<Line>)
    requires forall t | t in tasks :: t.duration >= 0.0
    requires k + 1 < |tasks| && tasks[k].duration > tasks[k + 1].duration
    ensures Ascending([ready]) && Booked([ready], tasks)
    ensures Readies(lines) == multiset([ready]) && Tasks(lines) == multiset(tasks)
    ensures ScheduleCost(lines) < QueueCost([ready], tasks)
  {
    hide LineCost;
    var x, long, short, y := tasks[..k], tasks[k], tasks[k + 1], tasks[k + 2..];
    var swapped := x + ([short] + ([long] + y));
    assert tasks == x + ([long] + ([short] + y));
    ready := LatestStart(tasks);
    lines := [Line(ready, swapped)];
    assert lines[1..] == [];
    OneAgent(ready, tasks);
    SwapNeighbours(ready, x, long, short, y);
    assert multiset(swapped) == multiset(tasks);
  }

  /** The planner adds the tasks in the order of their booked start plus duration. That need not be the order of
      their durations, and then the estimate can exceed the cost of a schedule. */
  lemma FinishOrderOverestimates()
    ensures var long, short := Task(0.0, 10.0), Task(9.5, 1.0);
            var lines := [Line(100.0, [short, long])];
            && long.start + long.duration <= short.start + short.duration
            && Tasks(lines) == multiset([long, short]) && Readies(lines) == multiset([100.0])
            && QueueCost([100.0], [long, short]) > ScheduleCost(lines)
  {
    var long, short := Task(0.0, 10.0), Task(9.5, 1.0);
    var lines := [Line(100.0, [short, long])];
    assert lines[1..] == [];
    assert [short, long][1..] == [long] && [long][1..] == [];
    assert LineCost(101.0, [long]) == 111.0;
    assert LineCost(100.0, [short, long]) == 91.5 + 111.0;
    assert [100.0][1..] == [] && [long, short][1..] == [short] && [short][1..] == [];
    assert Insert([], 110.0) == [110.0];
    assert [110.0][1..] == [] && Insert([], 111.0) == [111.0];
    assert QueueCost([111.0], []) == 0.0;
    assert QueueCost([110.0], [short]) == 101.5;
    assert QueueCost([100.0], [long, short]) == 110.0 + 101.5;
    assert multiset([short, long]) == multiset([long, short]);
  }

  // ---- the queue as an object ----

  lemma {:induction false} SortedUnique(x: seq<real>, y: seq<real>)
    requires Ascending(x) && Ascending(y) && multiset(x) == multiset(y)
    ensures x == y
  {
    if x == [] {
      assert |multiset(y)| == |y|;
    } else {
      assert |multiset(x)| == |x| && |multiset(y)| == |y|;
      assert x[0] in multiset(y) && y[0] in multiset(x);
      assert x[0] == y[0];
      assert x == [x[0]] + x[1..] && y == [y[0]] + y[1..];
      assert multiset(x[1..]) + multiset{x[0]} == multiset(x) && multiset(y[1..]) + multiset{y[0]} == multiset(y);
      Bags.CancelSame(multiset(x[1..]), multiset{x[0]}, multiset(y[1..]));
      SortedUnique(x[1..], y[1..]);
    }
  }

  datatype Element = Element(start: real, end: real)

  predicate Nonempty(stacks: seq<seq<Element>>) {
    forall i | 0 <= i < |stacks| :: stacks[i] != []
  }

  /** When each agent becomes free. */
  function Ends(stacks: seq<seq<Element>>): (r: seq<real>)
    requires Nonempty(stacks)
    ensures |r| == |stacks|
    ensures forall i | 0 <= i < |stacks| :: r[i] == Last(stacks[i]).end
  {
    seq(|stacks|, i requires 0 <= i < |stacks| => Last(stacks[i]).end)
  }

  /** The cost of a stack from element `k` on. */
  function StackCost(stack: seq<Element>, k: nat): real
    decreases |stack| - k
  {
    if k >= |stack| then 0.0 else MaxReal(0.0, stack[k].end - stack[k].start) + StackCost(stack, k + 1)
  }

  function StacksCost(stacks: seq<seq<Element>>): real {
    if stacks == [] then 0.0 else StackCost(stacks[0], 1) + StacksCost(stacks[1..])
  }

  lemma {:induction false} StackCostSnoc(stack: seq<Element>, e: Element, k: nat)
    requires k <= |stack|
    ensures StackCost(stack + [e], k) == StackCost(stack, k) + MaxReal(0.0, e.end - e.start)
    decreases |stack| - k
  {
    if k < |stack| {
      StackCostSnoc(stack, e, k + 1);
    }
  }

  lemma {:induction false} StacksCostConcat(x: seq<seq<Element>>, y: seq<seq<Element>>)
    ensures StacksCost(x + y) == StacksCost(x) + StacksCost(y)
  {
    if x == [] {
      assert x + y == y;
    } else {
      assert (x + y)[1..] == x[1..] + y;
      StacksCostConcat(x[1..], y);
    }
  }

  /** Moving the front stack to place `k`, as `std::rotate` does, does not change the cost. */
  lemma RotateCost(stacks: seq<seq<Element>>, k: nat)
    requires 0 < k <= |stacks|
    ensures StacksCost(stacks[1..k] + [stacks[0]] + stacks[k..]) == StacksCost(stacks)
  {
    var front, x, y := stacks[0], stacks[1..k], stacks[k..];
    StacksCostFirst(stacks);
    StacksCostFirst([front]);
    assert stacks[1..] == x + y && [front][1..] == [];
    assert StacksCost([]) == 0.0;
    hide StackCost, StacksCost;
    StacksCostConcat(x + [front], y);
    StacksCostConcat(x, [front]);
    StacksCostConcat(x, y);
  }

  lemma StacksCostFirst(stacks: seq<seq<Element>>)
    requires stacks != []
    ensures StacksCost(stacks) == StackCost(stacks[0], 1) + StacksCost(stacks[1..])
  {
  }

  lemma {:induction false} InsertAt(ends: seq<real>, x: real, k: nat)
    requires k <= |ends| && (forall i | 0 <= i < k :: ends[i] < x) && (k < |ends| ==> x <= ends[k])
    ensures Insert(ends, x) == ends[..k] + [x] + ends[k..]
  {
    if k > 0 {
      InsertAt(ends[1..], x, k - 1);
      assert ends[..k] == [ends[0]] + ends[1..][..k - 1];
      assert ends[1..][k - 1..] == ends[k..];
    } else {
      assert ends[..0] == [] && ends[0..] == ends;
    }
  }

  class InvariantHeuristicQueue {
    var stacks: seq<seq<Element>>

    ghost predicate Valid()
      reads this
    {
      stacks != [] && Nonempty(stacks) && Ascending(Ends(stacks))
    }

    constructor (values: seq<real>)
      requires values != []
      ensures Valid()
      ensures multiset(Ends(stacks)) == multiset(values) && StacksCost(stacks) == 0.0
    {
      var sorted: seq<real> := [];
      for i := 0 to |values|
        invariant Ascending(sorted) && multiset(sorted) == multiset(values[..i])
      {
        InsertAscending(sorted, values[i]);
        InsertElements(sorted, values[i]);
        sorted := Insert(sorted, values[i]);
        assert values[..i + 1] == values[..i] + [values[i]];
      }
      assert values[..|values|] == values;
      var pushed: seq<seq<Element>> := [];
      for i := 0 to |sorted|
        invariant |pushed| == i && forall j | 0 <= j < i :: pushed[j] == [Element(0.0, sorted[j])]
      {
        pushed := pushed + [[Element(0.0, sorted[i])]];
      }
      stacks := pushed;
      FreshCost(pushed);
      assert Ends(pushed) == sorted;
      assert |multiset(sorted)| == |sorted| && |multiset(values)| == |values|;
    }

    method Add(earliestStart: real, earliestFinish: real)
      requires Valid()
      modifies this
      ensures Valid()
      ensures var end := Ends(old(stacks))[0] + (earliestFinish - earliestStart);
              && Ends(stacks) == Insert(Ends(old(stacks))[1..], end)
              && StacksCost(stacks) == StacksCost(old(stacks)) + MaxReal(0.0, end - earliestStart)
    {
      var end := Last(stacks[0]).end + (earliestFinish - earliestStart);
      var pushed := stacks[0 := stacks[0] + [Element(earliestStart, end)]];
      var k := 1;
      while k < |pushed|
        invariant 1 <= k <= |pushed| == |stacks|
        invariant forall i | 1 <= i < k :: Last(stacks[i]).end < end
      {
        if end <= Last(pushed[k]).end {
          break;
        }
        k := k + 1;
      }
      AddedCost(stacks, Element(earliestStart, end), k);
      AddedEnds(stacks, Element(earliestStart, end), k);
      stacks := pushed[1..k] + [pushed[0]] + pushed[k..];
    }

    /** `compute_cost` */
    method ComputeCost() returns (total: real)
      requires Valid()
      ensures total == StacksCost(stacks)
    {
      total := 0.0;
      for i := 0 to |stacks|
        invariant total + StacksCost(stacks[i..]) == StacksCost(stacks)
      {
        var stack := stacks[i];
        ghost var before := total;
        assert stacks[i..][0] == stack && stacks[i..][1..] == stacks[i + 1..];
        for k := 1 to |stack|
          invariant total + StackCost(stack, k) == before + StackCost(stack, 1)
        {
          total := total + MaxReal(0.0, stack[k].end - stack[k].start);
        }
      }
    }
  }

  lemma {:induction false} FreshCost(stacks: seq<seq<Element>>)
    requires forall i | 0 <= i < |stacks| :: |stacks[i]| == 1
    ensures StacksCost(stacks) == 0.0
  {
    if stacks != [] {
      FreshCost(stacks[1..]);
    }
  }

  lemma AddedCost(stacks: seq<seq<Element>>, e: Element, k: nat)
    requires 1 <= k <= |stacks| && Nonempty(stacks)
    ensures var pushed := stacks[0 := stacks[0] + [e]];
            StacksCost(pushed[1..k] + [pushed[0]] + pushed[k..]) == StacksCost(stacks) + MaxReal(0.0, e.end - e.start)
  {
    var pushed := stacks[0 := stacks[0] + [e]];
    RotateCost(pushed, k);
    StackCostSnoc(stacks[0], e, 1);
    StacksCostFirst(stacks);
    StacksCostFirst(pushed);
    assert pushed[1..] == stacks[1..];
  }

  lemma AddedEnds(stacks: seq<seq<Element>>, e: Element, k: nat)
    requires 1 <= k <= |stacks| && Nonempty(stacks) && Ascending(Ends(stacks))
    requires (forall i | 1 <= i < k :: Last(stacks[i]).end < e.end) && (k < |stacks| ==> e.end <= Last(stacks[k]).end)
    ensures var pushed := stacks[0 := stacks[0] + [e]];
            var rotated := pushed[1..k] + [pushed[0]] + pushed[k..];
            && Nonempty(rotated) && Ascending(Ends(rotated))
            && Ends(rotated) == Insert(Ends(stacks)[1..], e.end)
  {
    var ends := Ends(stacks);
    InsertAscending(ends[1..], e.end);
    InsertAt(ends[1..], e.end, k - 1);
    hide Insert;
    RotatedEnds(stacks[0 := stacks[0] + [e]], ends, e.end, k);
  }

  lemma RotatedEnds(pushed: seq<seq<Element>>, ends: seq<real>, end: real, k: nat)
    requires 1 <= k <= |pushed| && Nonempty(pushed) && |ends| == |pushed|
    requires Last(pushed[0]).end == end && forall i | 1 <= i < |pushed| :: Last(pushed[i]).end == ends[i]
    ensures var rotated := pushed[1..k] + [pushed[0]] + pushed[k..];
            Nonempty(rotated) && Ends(rotated) == ends[1..][..k - 1] + [end] + ends[1..][k - 1..]
  {
  }

  /** The queue is filled task by task and then asked for its cost. */
  method Estimate(values: seq<real>, tasks: seq<Task>) returns (cost: real)
    requires values != []
    ensures exists ends :: Ascending(ends) && multiset(ends) == multiset(values) && ends != []
                           && cost == QueueCost(ends, tasks)
  {
    var queue := new InvariantHeuristicQueue(values);
    ghost var ends := Ends(queue.stacks);
    for i := 0 to |tasks|
      invariant queue.Valid() && fresh(queue)
      invariant StacksCost(queue.stacks) + QueueCost(Ends(queue.stacks), tasks[i..]) == QueueCost(ends, tasks)
    {
      assert tasks[i..][0] == tasks[i] && tasks[i..][1..] == tasks[i + 1..];
      queue.Add(tasks[i].start, tasks[i].start + tasks[i].duration);
    }
    cost := queue.ComputeCost();
  }
}
