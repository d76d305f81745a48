/** `Candidates`: a multimap from finish times to entries, with an index that finds the entry of
    an agent. It refines the plain map from agents to entries that the nodes of the search hold. */
module CandidateIndex {
  import opened Domain
  import opened PlannerNode

  /** An element of the multimap. Its key is the finish time of the entry. */
  datatype Slot = Slot(candidate: nat, entry: Entry)

  function Key(s: Slot): Time {
    s.entry.state.time
  }

  predicate Distinct(order: seq<nat>) {
    forall i, j | 0 <= i < j < |order| :: order[i] != order[j]
  }

  predicate InOrder(order: seq<nat>, slots: map<nat, Slot>) {
    && (forall i | 0 <= i < |order| :: order[i] in slots)
    && forall i, j | 0 <= i < j < |order| :: Key(slots[order[i]]) <= Key(slots[order[j]])
  }

  /** The iterators in `order` are those of the elements, each once, in the order of their keys. */
  ghost predicate MultimapOk(order: seq<nat>, slots: map<nat, Slot>) {
    && Distinct(order) && InOrder(order, slots)
    && forall h | h in slots :: h in order
  }

  /** Every agent has one element, and the index leads to it. */
  ghost predicate IndexOk(slots: map<nat, Slot>, index: map<nat, nat>) {
    && (forall c | c in index :: index[c] in slots && slots[index[c]].candidate == c)
    && forall h | h in slots :: slots[h].candidate in index && index[slots[h].candidate] == h
  }

  function Contents(slots: map<nat, Slot>, index: map<nat, nat>): Candidates
    requires forall c | c in index :: index[c] in slots
  {
    map c | c in index :: slots[index[c]].entry
  }

  function Without(order: seq<nat>, h: nat): seq<nat> {
    if order == [] then [] else (if order[0] == h then [] else [order[0]]) + Without(order[1..], h)
  }

  lemma {:induction false} WithoutElements(order: seq<nat>, h: nat)
    requires Distinct(order)
    ensures Distinct(Without(order, h))
    ensures forall g :: g in Without(order, h) <==> g in order && g != h
  {
    if order != [] {
      assert Distinct(order[1..]);
      WithoutElements(order[1..], h);
      assert forall g :: g in order <==> g == order[0] || g in order[1..];
      assert order[0] !in order[1..];
    }
  }

  lemma {:induction false} WithoutInOrder(order: seq<nat>, slots: map<nat, Slot>, h: nat)
    requires Distinct(order) && InOrder(order, slots)
    ensures InOrder(Without(order, h), slots)
  {
    if order != [] {
      assert Distinct(order[1..]) && InOrder(order[1..], slots);
      WithoutInOrder(order[1..], slots, h);
      WithoutElements(order[1..], h);
      var rest := Without(order[1..], h);
      forall k | 0 <= k < |rest| ensures Key(slots[order[0]]) <= Key(slots[rest[k]]) {
        assert rest[k] in order[1..];
        var j :| 0 <= j < |order[1..]| && order[1..][j] == rest[k];
        assert order[j + 1] == rest[k];
      }
    }
  }

  class CandidateIndex {
    var order: seq<nat>
    var slots: map<nat, Slot>
    var index: map<nat, nat>
    var next: nat

    ghost predicate Valid()
      reads this
    {
      MultimapOk(order, slots) && IndexOk(slots, index) && forall h | h in slots :: h < next
    }

    /** An empty multimap. */
    constructor ()
      ensures Valid() && Contents(slots, index) == map[]
    {
      order, slots, index, next := [], map[], map[], 0;
    }

    /** The copy constructor: copies the elements and lets `update_map` rebuild the index. */
    constructor Copy(other: CandidateIndex)
      requires other.Valid()
      ensures Valid() && Contents(slots, index) == Contents(other.slots, other.index)
    {
      order, slots, next := other.order, other.slots, other.next;
      var rebuilt: map<nat, nat> := map[];
      for i := 0 to |other.order|
        invariant forall c | c in rebuilt :: rebuilt[c] in other.slots && other.slots[rebuilt[c]].candidate == c
        invariant forall k | 0 <= k < i :: other.slots[other.order[k]].candidate in rebuilt
      {
        rebuilt := rebuilt[other.slots[other.order[i]].candidate := other.order[i]];
      }
      assert forall h | h in other.slots :: other.slots[h].candidate in rebuilt by {
        forall h | h in other.slots ensures other.slots[h].candidate in rebuilt {
          assert h in other.order;
        }
      }
      RebuiltIndex(other.slots, other.index, rebuilt);
      index := rebuilt;
    }

    /** Inserts an element behind those with the same key. */
    method Insert(candidate: nat, entry: Entry) returns (h: nat)
      requires MultimapOk(order, slots) && forall h | h in slots :: h < next
      modifies this
      ensures h == old(next) && slots == old(slots)[h := Slot(candidate, entry)] && index == old(index)
      ensures MultimapOk(order, slots) && forall h | h in slots :: h < next
    {
      h := next;
      var s := Slot(candidate, entry);
      var k := 0;
      while k < |order| && Key(slots[order[k]]) <= Key(s)
        invariant 0 <= k <= |order|
        invariant forall i | 0 <= i < k :: Key(slots[order[i]]) <= Key(s)
      {
        k := k + 1;
      }
      InsertedOk(order, slots, h, s, k);
      order := order[..k] + [h] + order[k..];
      slots := slots[h := s];
      next := next + 1;
    }

    /** `make` and `update_candidate` of an agent that has no entry yet. */
    method Add(candidate: nat, entry: Entry)
      requires Valid() && candidate !in index
      modifies this
      ensures Valid() && Contents(slots, index) == Contents(old(slots), old(index))[candidate := entry]
    {
      hide MultimapOk, IndexOk;
      assert forall c | c in index :: index[c] in slots by { IndexLeads(slots, index); }
      IndexAdded(slots, index, next, candidate, entry);
      var h := Insert(candidate, entry);
      index := index[candidate := h];
    }

    /** `update_candidate` */
    method UpdateCandidate(candidate: nat, entry: Entry)
      requires Valid() && candidate in index
      modifies this
      ensures Valid() && Contents(slots, index) == Contents(old(slots), old(index))[candidate := entry]
    {
      hide MultimapOk, IndexOk;
      assert forall c | c in index :: index[c] in slots by { IndexLeads(slots, index); }
      var erased := index[candidate];
      ErasedOk(order, slots, erased);
      IndexUpdated(slots, index, next, candidate, entry);
      order := Without(order, erased);
      slots := slots - {erased};
      var h := Insert(candidate, entry);
      index := index[candidate := h];
    }

    /** `best_candidates`: the elements in front that share the least key. The loop ends with the
        elements, which the original leaves to chance. */
    method BestCandidates() returns (best: seq<nat>)
      requires Valid() && order != []
      ensures forall a: nat :: a in best <==> IsBest(Contents(slots, index), a)
      ensures Distinct(best)
    {
      best := [];
      var first := Key(slots[order[0]]);
      var k := 0;
      while k < |order| && Key(slots[order[k]]) == first
        invariant 0 <= k <= |order| && |best| == k
        invariant forall i | 0 <= i < k :: Key(slots[order[i]]) == first && best[i] == slots[order[i]].candidate
      {
        best := best + [slots[order[k]].candidate];
        k := k + 1;
      }
      forall a: nat ensures a in best <==> IsBest(Contents(slots, index), a) {
        BestMeaning(order, slots, index, best, k, a);
      }
      BestDistinct(order, slots, index, best, k);
    }
  }

  lemma IndexLeads(slots: map<nat, Slot>, index: map<nat, nat>)
    requires IndexOk(slots, index)
    ensures forall c | c in index :: index[c] in slots
  {
  }

  lemma IndexAdded(slots: map<nat, Slot>, index: map<nat, nat>, h: nat, c: nat, e: Entry)
    requires IndexOk(slots, index) && c !in index && h !in slots
    ensures var slots', index' := slots[h := Slot(c, e)], index[c := h];
            IndexOk(slots', index') && Contents(slots', index') == Contents(slots, index)[c := e]
  {
  }

  lemma IndexUpdated(slots: map<nat, Slot>, index: map<nat, nat>, h: nat, c: nat, e: Entry)
    requires IndexOk(slots, index) && c in index && h !in slots
    ensures var slots', index' := (slots - {index[c]})[h := Slot(c, e)], index[c := h];
            IndexOk(slots', index') && Contents(slots', index') == Contents(slots, index)[c := e]
  {
  }

  lemma RebuiltIndex(slots: map<nat, Slot>, index: map<nat, nat>, rebuilt: map<nat, nat>)
    requires IndexOk(slots, index)
    requires forall c | c in rebuilt :: rebuilt[c] in slots && slots[rebuilt[c]].candidate == c
    requires forall h | h in slots :: slots[h].candidate in rebuilt
    ensures rebuilt == index
  {
  }

  lemma ErasedOk(order: seq<nat>, slots: map<nat, Slot>, h: nat)
    requires MultimapOk(order, slots)
    ensures MultimapOk(Without(order, h), slots - {h})
  {
    WithoutElements(order, h);
    WithoutInOrder(order, slots, h);
    var rest := Without(order, h);
    assert forall i | 0 <= i < |rest| :: rest[i] in rest;
  }

  lemma InsertedOk(order: seq<nat>, slots: map<nat, Slot>, h: nat, s: Slot, k: nat)
    requires MultimapOk(order, slots) && h !in slots && k <= |order|
    requires forall i | 0 <= i < k :: Key(slots[order[i]]) <= Key(s)
    requires k < |order| ==> Key(s) <= Key(slots[order[k]])
    ensures MultimapOk(order[..k] + [h] + order[k..], slots[h := s])
  {
    hide Distinct, InOrder;
    var t := order[..k] + [h] + order[k..];
    InsertedOrder(order, slots, h, s, k, t);
    InsertedElements(order, h, k);
  }

  lemma InsertedElements(order: seq<nat>, h: nat, k: nat)
    requires k <= |order|
    ensures forall g :: g in order[..k] + [h] + order[k..] <==> g in order || g == h
  {
  }

  lemma InsertedOrder(order: seq<nat>, slots: map<nat, Slot>, h: nat, s: Slot, k: nat, t: seq<nat>)
    requires Distinct(order) && InOrder(order, slots) && h !in slots && k <= |order|
    requires forall i | 0 <= i < k :: Key(slots[order[i]]) <= Key(s)
    requires k < |order| ==> Key(s) <= Key(slots[order[k]])
    requires |t| == |order| + 1
    requires forall i {:trigger t[i]} | 0 <= i < |t| ::
               t[i] == if i < k then order[i] else if i == k then h else order[i - 1]
    ensures Distinct(t) && InOrder(t, slots[h := s])
  {
  }

  lemma BestMeaning(order: seq<nat>, slots: map<nat, Slot>, index: map<nat, nat>, best: seq<nat>, k: nat, a: nat)
    requires order != [] && MultimapOk(order, slots) && IndexOk(slots, index) && k <= |order| && |best| == k
    requires forall i | 0 <= i < k ::
               Key(slots[order[i]]) == Key(slots[order[0]]) && best[i] == slots[order[i]].candidate
    requires k < |order| ==> Key(slots[order[k]]) != Key(slots[order[0]])
    ensures a in best <==> IsBest(Contents(slots, index), a)
  {
    var c := Contents(slots, index);
    var first := Key(slots[order[0]]);
    forall b | b in c ensures first <= c[b].state.time {
      assert index[b] in order;
    }
    if a in best {
      var i :| 0 <= i < k && best[i] == a;
      assert index[a] == order[i];
    }
    if IsBest(c, a) {
      var i :| 0 <= i < |order| && order[i] == index[a];
      assert slots[order[0]].candidate in c;
      assert Key(slots[order[i]]) == first;
      assert i < k;
      assert best[i] == a;
    }
  }

  lemma BestDistinct(order: seq<nat>, slots: map<nat, Slot>, index: map<nat, nat>, best: seq<nat>, k: nat)
    requires MultimapOk(order, slots) && IndexOk(slots, index) && k <= |order| && |best| == k
    requires forall i | 0 <= i < k :: best[i] == slots[order[i]].candidate
    ensures Distinct(best)
  {
  }
}
