/** `Log`, its views, and the reader that passes every entry on once. */
module LogReader {
  import opened Domain

  /** Sequence numbers of entries wrap around at this. */
  const SEQ_LIMIT: nat := 0x1_0000_0000

  function SeqOf(index: nat): nat {
    index % SEQ_LIMIT
  }

  datatype Tier = Uninitialized | Info | Warning | Error

  datatype Entry = Entry(tier: Tier, number: nat, text: string)

  /** The entries that a view shows whose last entry, if it shows any, is `last`. */
  function Shown(entries: seq<Entry>, last: Option<nat>): seq<Entry> {
    if last.Some? && last.value < |entries| then entries[..last.value + 1] else []
  }

  predicate IsView(entries: seq<Entry>, last: Option<nat>) {
    last.Some? ==> last.value < |entries|
  }

  /** The entries of a log, numbered as they are pushed. */
  class Log {
    var entries: seq<Entry>
    var next: nat

    ghost predicate Valid()
      reads this
    {
      next == SeqOf(|entries|) && forall i | 0 <= i < |entries| :: entries[i].number == SeqOf(i)
    }

    constructor ()
      ensures Valid() && entries == []
    {
      entries, next := [], 0;
    }

    /** `push`. It is an error to leave the tier open. What views show does not change. */
    method Push(tier: Tier, text: string) returns (ok: bool)
      requires Valid()
      modifies this
      ensures Valid() && (ok <==> tier != Uninitialized)
      ensures entries == old(entries) + if ok then [Entry(tier, SeqOf(|old(entries)|), text)] else []
      ensures forall last | IsView(old(entries), last) :: Shown(entries, last) == Shown(old(entries), last)
    {
      if tier == Uninitialized {
        return false;
      }
      entries := entries + [Entry(tier, next, text)];
      next := (next + 1) % SEQ_LIMIT;
      ok := true;
    }

    /** `view`: the index of the last entry that the view shows, if it shows any. A view shows everything that has
        been pushed before it is taken. */
    method TakeView() returns (last: Option<nat>)
      ensures IsView(entries, last) && Shown(entries, last) == entries
    {
      last := if entries == [] then None else Some(|entries| - 1);
    }
  }

  /** A view of the list of a log. The list has an identity and, while it lives, an address. */
  datatype View = View(list: nat, address: nat, last: Option<nat>)

  /** What a reader remembers for an address: for which list, and the last entry passed on. */
  datatype Memory = Memory(list: Option<nat>, last: Option<nat>)

  type Memories = map<nat, Memory>

  /** The first and the last entry of an iterable. */
  datatype Span = Span(first: nat, last: nat)

  function Recall(m: Memories, address: nat): Memory {
    if address in m then m[address] else Memory(None, None)
  }

  function WholeView(v: View): Option<Span> {
    match v.last
    case None => None
    case Some(last) => Some(Span(0, last))
  }

  /** What `read` passes on. A remembered list that has expired is forgotten. */
  function Passed(alive: set<nat>, m: Memories, v: View): Option<Span> {
    var memory := Recall(m, v.address);
    if memory.list.Some? && memory.list.value in alive && memory.last.Some? then
      if v.last.None? || SeqOf(memory.last.value) >= SeqOf(v.last.value) then None
      else Some(Span(memory.last.value + 1, v.last.value))
    else
      WholeView(v)
  }

  /** What the reader remembers after `read`. */
  function Remembered(alive: set<nat>, m: Memories, v: View): Memories {
    var memory := Recall(m, v.address);
    if memory.list.Some? && memory.list.value in alive then
      if memory.last.Some? && Passed(alive, m, v).None? then m[v.address := memory]
      else m[v.address := Memory(memory.list, v.last)]
    else
      m[v.address := Memory(Some(v.list), v.last)]
  }

  class Reader {
    var memories: Memories

    constructor ()
      ensures memories == map[]
    {
      memories := map[];
    }

    /** `read`. `alive` are the lists that have not expired. */
    method Read(alive: set<nat>, v: View) returns (span: Option<Span>)
      modifies this
      ensures span == Passed(alive, old(memories), v)
      ensures memories == Remembered(alive, old(memories), v)
    {
      if v.address !in memories {
        memories := memories[v.address := Memory(None, None)];
      }
      var memory := memories[v.address];
      var begin: Option<nat> := if v.last.Some? then Some(0) else None;
      if memory.list.Some? && memory.list.value in alive {
        if memory.last.None? {
          memory := memory.(last := begin);
        } else if v.last.Some? {
          if SeqOf(memory.last.value) >= SeqOf(v.last.value) {
            return None;
          } else {
            memory := memory.(last := Some(memory.last.value + 1));
          }
        } else {
          return None;
        }
      } else {
        memory := Memory(Some(v.list), begin);
      }
      span := if memory.last.Some? && v.last.Some? then Some(Span(memory.last.value, v.last.value)) else None;
      memory := memory.(last := v.last);
      memories := memories[v.address := memory];
    }
  }

  /** Iterating over an iterable: `operator++` until the last entry was reached. */
  method Iterate(entries: seq<Entry>, span: Span) returns (passed: seq<Entry>)
    requires span.first <= span.last < |entries|
    ensures passed == entries[span.first..span.last + 1]
  {
    var it: Option<nat> := Some(span.first);
    passed := [];
    while it.Some?
      invariant it.Some? ==> span.first <= it.value <= span.last && passed == entries[span.first..it.value]
      invariant it.None? ==> passed == entries[span.first..span.last + 1]
      decreases if it.Some? then span.last - it.value + 1 else 0
    {
      passed := passed + [entries[it.value]];
      it := if it.value == span.last then None else Some(it.value + 1);
    }
  }

  // ---- every interleaving ----

  /** A list with its address, its number of entries, and whether it is still alive. `passed` are the
      indices of the entries that the reader has passed on, in order, and `furthest` counts the entries that
      the views it has read show together. */
  datatype List = List(address: nat, length: nat, alive: bool, passed: seq<nat>, furthest: nat)

  datatype World = World(lists: seq<List>, memories: Memories)

  /** A log is created, at an address that no living list has; an entry is pushed; a log and all its views
      are gone; or the reader reads a view of a log, which may have been taken at any time. */
  datatype Event = Create(address: nat) | Push(list: nat) | Drop(list: nat) | Read(list: nat, last: Option<nat>)

  function Alive(w: World): set<nat> {
    set i | 0 <= i < |w.lists| && w.lists[i].alive
  }

  predicate Possible(w: World, e: Event) {
    match e
    case Create(address) => forall i | 0 <= i < |w.lists| :: w.lists[i].alive ==> w.lists[i].address != address
    case Push(i) => i < |w.lists| && w.lists[i].alive
    case Drop(i) => i < |w.lists| && w.lists[i].alive
    case Read(i, last) => i < |w.lists| && w.lists[i].alive && (last.Some? ==> last.value < w.lists[i].length)
  }

  function Range(from: nat, to: nat): (r: seq<nat>)
    ensures from <= to ==> |r| == to - from
    ensures forall k | 0 <= k < |r| :: r[k] == from + k
  {
    if from <= to then seq(to - from, k requires 0 <= k < to - from => from + k) else []
  }

  function Step(w: World, e: Event): World
    requires Possible(w, e)
  {
    match e
    case Create(address) => w.(lists := w.lists + [List(address, 0, true, [], 0)])
    case Push(i) => w.(lists := w.lists[i := w.lists[i].(length := w.lists[i].length + 1)])
    case Drop(i) => w.(lists := w.lists[i := w.lists[i].(alive := false)])
    case Read(i, last) =>
      var l := w.lists[i];
      var v := View(i, l.address, last);
      var span := Passed(Alive(w), w.memories, v);
      var passed := if span.None? then [] else Range(span.value.first, span.value.last + 1);
      var seen := if last.None? then 0 else last.value + 1;
      World(w.lists[i := l.(passed := l.passed + passed, furthest := Max(l.furthest, seen))],
            Remembered(Alive(w), w.memories, v))
  }

  /** The reader knows how far it has read list `i`, or has not read it at all. */
  ghost predicate ListOk(w: World, i: nat)
    requires i < |w.lists|
  {
    var l := w.lists[i];
    && l.length <= SEQ_LIMIT && l.furthest <= l.length
    && l.passed == Range(0, l.furthest)
    && (l.alive ==>
          var memory := Recall(w.memories, l.address);
          if memory.list == Some(i) then memory.last == (if l.furthest == 0 then None else Some(l.furthest - 1))
          else l.furthest == 0)
  }

  ghost predicate WorldOk(w: World) {
    && (forall i | 0 <= i < |w.lists| :: ListOk(w, i))
    && (forall i, j | 0 <= i < j < |w.lists| && w.lists[i].alive && w.lists[j].alive ::
          w.lists[i].address != w.lists[j].address)
    && (forall a | a in w.memories && w.memories[a].list.Some? ::
          && w.memories[a].list.value < |w.lists|
          && w.lists[w.memories[a].list.value].address == a)
  }

  lemma RangeExtends(a: nat, b: nat, c: nat)
    requires a <= b <= c
    ensures Range(a, b) + Range(b, c) == Range(a, c)
  {
  }

  lemma ReadSpan(alive: set<nat>, m: Memories, l: List, i: nat, last: Option<nat>)
    requires l.length <= SEQ_LIMIT && l.furthest <= l.length && l.passed == Range(0, l.furthest) && i in alive
    requires last.Some? ==> last.value < l.length
    requires var memory := Recall(m, l.address);
             && (memory.list.Some? && memory.list.value in alive ==> memory.list.value == i)
             && if memory.list == Some(i) then memory.last == (if l.furthest == 0 then None else Some(l.furthest - 1))
                else l.furthest == 0
    ensures var v := View(i, l.address, last);
            var span := Passed(alive, m, v);
            var passed := if span.None? then [] else Range(span.value.first, span.value.last + 1);
            var furthest := Max(l.furthest, if last.None? then 0 else last.value + 1);
            && furthest <= l.length && l.passed + passed == Range(0, furthest)
            && Recall(Remembered(alive, m, v), l.address)
               == Memory(Some(i), if furthest == 0 then None else Some(furthest - 1))
  {
    if last.Some? && l.furthest <= last.value {
      RangeExtends(0, l.furthest, last.value + 1);
    }
  }

  /** Reading a view passes on exactly the entries that it shows and that were not passed on before. */
  lemma ReadList(w: World, i: nat, last: Option<nat>)
    requires WorldOk(w) && Possible(w, Read(i, last))
    ensures ListOk(Step(w, Read(i, last)), i)
  {
    var l := w.lists[i];
    assert ListOk(w, i);
    var memory := Recall(w.memories, l.address);
    assert i in Alive(w);
    assert memory.list.Some? && memory.list.value in Alive(w) ==> memory.list.value == i;
    ReadSpan(Alive(w), w.memories, l, i, last);
  }

  /** Reading a view leaves what is known of other living lists alone. */
  lemma ReadOthers(w: World, i: nat, last: Option<nat>, j: nat)
    requires WorldOk(w) && Possible(w, Read(i, last)) && j < |w.lists| && j != i
    ensures ListOk(Step(w, Read(i, last)), j)
  {
    hide Passed, Remembered;
    assert ListOk(w, j);
    var v := View(i, w.lists[i].address, last);
    RememberedElsewhere(Alive(w), w.memories, v);
    assert w.lists[j].alive ==> w.lists[j].address != w.lists[i].address;
  }

  lemma RememberedElsewhere(alive: set<nat>, m: Memories, v: View)
    ensures forall a | a != v.address :: Recall(Remembered(alive, m, v), a) == Recall(m, a)
    ensures Remembered(alive, m, v).Keys == m.Keys + {v.address}
  {
  }

  lemma ReadMemories(w: World, i: nat, last: Option<nat>)
    requires WorldOk(w) && Possible(w, Read(i, last))
    ensures var w' := Step(w, Read(i, last));
            forall a | a in w'.memories && w'.memories[a].list.Some? ::
              && w'.memories[a].list.value < |w'.lists|
              && w'.lists[w'.memories[a].list.value].address == a
  {
  }

  lemma ReadOk(w: World, i: nat, last: Option<nat>)
    requires WorldOk(w) && Possible(w, Read(i, last))
    ensures WorldOk(Step(w, Read(i, last)))
  {
    hide ListOk, Passed, Remembered;
    var w' := Step(w, Read(i, last));
    ReadMemories(w, i, last);
    forall j | 0 <= j < |w'.lists| ensures ListOk(w', j) {
      if j == i {
        ReadList(w, i, last);
      } else {
        ReadOthers(w, i, last, j);
      }
    }
  }

  lemma StepOk(w: World, e: Event)
    requires WorldOk(w) && Possible(w, e)
    requires e.Push? ==> w.lists[e.list].length < SEQ_LIMIT
    ensures WorldOk(Step(w, e))
  {
    hide Passed, Remembered;
    if e.Read? {
      ReadOk(w, e.list, e.last);
    } else {
      var w' := Step(w, e);
      forall j | 0 <= j < |w'.lists| ensures ListOk(w', j) {
        if j < |w.lists| {
          assert ListOk(w, j);
        } else {
          assert Range(0, 0) == [];
        }
      }
    }
  }

  /** The world after `events`. What is not possible does not happen. */
  function After(events: seq<Event>): World {
    if events == [] then World([], map[])
    else
      var w := After(events[..|events| - 1]);
      if Possible(w, Last(events)) then Step(w, Last(events)) else w
  }

  /** A run of possible events that pushes at most `n` entries to any log. */
  predicate Runs(n: nat, events: seq<Event>) {
    events == [] ||
    var pre := events[..|events| - 1];
    && Runs(n, pre)
    && Possible(After(pre), Last(events))
    && (Last(events).Push? ==> After(pre).lists[Last(events).list].length < n)
  }

  /** The entries of every log were passed on in order, each once, up to the furthest view that was read. */
  ghost predicate Delivered(w: World) {
    forall i | 0 <= i < |w.lists| :: w.lists[i].passed == Range(0, w.lists[i].furthest)
  }

  /** Over every interleaving of pushes, views and reads, of old and of empty views and of logs whose list takes
      the address of an expired one, a reader passes on the entries of every log in order, each
      once, up to the furthest view that it has read, if no log has more than 2^32 entries. */
  lemma {:induction false} EachEntryOnce(n: nat, events: seq<Event>)
    requires n <= SEQ_LIMIT && Runs(n, events)
    ensures WorldOk(After(events)) && Delivered(After(events))
  {
    if events != [] {
      hide WorldOk, Step;
      EachEntryOnce(n, events[..|events| - 1]);
      StepOk(After(events[..|events| - 1]), Last(events));
    }
    AllPassed(After(events));
  }

  lemma AllPassed(w: World)
    requires WorldOk(w)
    ensures Delivered(w)
  {
    forall i | 0 <= i < |w.lists| ensures w.lists[i].passed == Range(0, w.lists[i].furthest) {
      assert ListOk(w, i);
    }
  }

  /** The numbers of the entries of a log tell which of two comes first exactly if there are no more than 2^32. */
  lemma NumbersTellOrder(n: nat)
    ensures (forall a: nat, b: nat | a < n && b < n :: SeqOf(a) >= SeqOf(b) <==> a >= b) <==> n <= SEQ_LIMIT
  {
    if n > SEQ_LIMIT {
      assert SeqOf(0) >= SeqOf(SEQ_LIMIT);
    }
  }

  /** One entry more than that is lost on a reader that has read all the others. */
  lemma WrapLosesEntry(w: World, i: nat)
    requires WorldOk(w) && i < |w.lists| && w.lists[i].alive && w.lists[i].length == w.lists[i].furthest == SEQ_LIMIT
    ensures Possible(w, Push(i)) && Possible(Step(w, Push(i)), Read(i, Some(SEQ_LIMIT)))
    ensures var l := Step(Step(w, Push(i)), Read(i, Some(SEQ_LIMIT))).lists[i];
            l.furthest == SEQ_LIMIT + 1 && l.passed == Range(0, SEQ_LIMIT)
  {
    assert ListOk(w, i);
    var w' := Step(w, Push(i));
    assert i in Alive(w');
    assert Recall(w'.memories, w.lists[i].address) == Memory(Some(i), Some(SEQ_LIMIT - 1));
    assert Passed(Alive(w'), w'.memories, View(i, w.lists[i].address, Some(SEQ_LIMIT))).None?;
  }

  function Pushes(k: nat): (r: seq<Event>)
    ensures |r| == k && forall i | 0 <= i < k :: r[i] == Push(0)
  {
    seq(k, _ => Push(0))
  }

  lemma RunSnoc(n: nat, events: seq<Event>, e: Event)
    requires Runs(n, events) && Possible(After(events), e)
    requires e.Push? ==> After(events).lists[e.list].length < n
    ensures Runs(n, events + [e]) && After(events + [e]) == Step(After(events), e)
  {
    assert (events + [e])[..|events|] == events;
  }

  function Unread(k: nat): World {
    World([List(0, k, true, [], 0)], map[])
  }

  lemma PushUnread(k: nat)
    ensures Possible(Unread(k), Push(0)) && Step(Unread(k), Push(0)) == Unread(k + 1)
  {
  }

  lemma CreateUnread()
    ensures Possible(World([], map[]), Create(0)) && Step(World([], map[]), Create(0)) == Unread(0)
  {
  }

  lemma {:induction false} Filling(n: nat, k: nat)
    requires k <= n
    ensures Runs(n, [Create(0)] + Pushes(k)) && After([Create(0)] + Pushes(k)) == Unread(k)
  {
    hide Step, Possible;
    if k == 0 {
      CreateUnread();
      RunSnoc(n, [], Create(0));
      assert [] + [Create(0)] == [Create(0)] + Pushes(0);
    } else {
      hide Runs, After;
      Filling(n, k - 1);
      PushUnread(k - 1);
      RunSnoc(n, [Create(0)] + Pushes(k - 1), Push(0));
      assert [Create(0)] + Pushes(k - 1) + [Push(0)] == [Create(0)] + Pushes(k);
    }
  }

  /** A log is filled and read, and then one more entry is pushed and read. */
  function Overflow(): seq<Event> {
    [Create(0)] + Pushes(SEQ_LIMIT) + [Read(0, Some(SEQ_LIMIT - 1))] + [Push(0)] + [Read(0, Some(SEQ_LIMIT))]
  }

  lemma OverflowLosesEntry(n: nat)
    requires n > SEQ_LIMIT
    ensures Runs(n, Overflow()) && !Delivered(After(Overflow()))
  {
    var filled := [Create(0)] + Pushes(SEQ_LIMIT);
    var full := filled + [Read(0, Some(SEQ_LIMIT - 1))];
    Filling(n, SEQ_LIMIT);
    Filling(SEQ_LIMIT, SEQ_LIMIT);
    RunSnoc(n, filled, Read(0, Some(SEQ_LIMIT - 1)));
    RunSnoc(SEQ_LIMIT, filled, Read(0, Some(SEQ_LIMIT - 1)));
    var w := After(full);
    assert |w.lists| == 1 && w.lists[0].alive && w.lists[0].length == w.lists[0].furthest == SEQ_LIMIT;
    assert WorldOk(w) by { EachEntryOnce(SEQ_LIMIT, full); }
    WrapLosesEntry(w, 0);
    hide WorldOk, Step, Range;
    RunSnoc(n, full, Push(0));
    RunSnoc(n, full + [Push(0)], Read(0, Some(SEQ_LIMIT)));
    LastIsLost(After(Overflow()));
  }

  lemma LastIsLost(w: World)
    requires |w.lists| == 1 && w.lists[0].furthest == SEQ_LIMIT + 1 && w.lists[0].passed == Range(0, SEQ_LIMIT)
    ensures !Delivered(w)
  {
    assert |Range(0, SEQ_LIMIT)| == SEQ_LIMIT && |Range(0, SEQ_LIMIT + 1)| == SEQ_LIMIT + 1;
  }

  /** For every bound on the number of entries of a log: all runs within it deliver every entry once exactly if the
      bound is at most 2^32. */
  lemma DeliveryIff(n: nat)
    ensures (forall events | Runs(n, events) :: Delivered(After(events))) <==> n <= 0x1_0000_0000
  {
    hide Delivered, Runs, After, Overflow;
    if n <= SEQ_LIMIT {
      forall events | Runs(n, events) ensures Delivered(After(events)) {
        EachEntryOnce(n, events);
      }
    } else {
      OverflowLosesEntry(n);
    }
  }
}
