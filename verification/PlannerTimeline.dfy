/** What the predictions of the models mean for whole plans. */
module PlannerTimeline {
  import opened Domain
  import opened PlannerNode
  import opened PlannerSegments
  import opened PlannerComplete

  /** A relation between a state and what is predicted from it that all models keep. */
  ghost predicate ModelsKeep(p: Planner, rel: (State, Estimate) -> bool) {
    && (forall r, t, s :: p.estimate(r, t, s).Some? ==> rel(s, p.estimate(r, t, s).value))
    && (forall s :: p.charge(s).Some? ==> rel(s, p.charge(s).value))
  }

  /** Every assignment of a list is related to the state in which the previous one ends. */
  ghost predicate ListKeeps(rel: (State, Estimate) -> bool, s: State, l: seq<Assignment>) {
    forall k | 0 <= k < |l| :: rel(EndState(l[..k], s), Estimate(l[k].finish, l[k].deployment))
  }

  lemma ConsistentKeeps(p: Planner, rel: (State, Estimate) -> bool, s: State, l: seq<Assignment>)
    requires ModelsKeep(p, rel) && Consistent(p, s, l)
    ensures ListKeeps(rel, s, l)
  {
  }

  lemma KeepsConcat(rel: (State, Estimate) -> bool, s: State, x: seq<Assignment>, y: seq<Assignment>)
    requires ListKeeps(rel, s, x) && ListKeeps(rel, EndState(x, s), y)
    ensures ListKeeps(rel, s, x + y)
  {
    var z := x + y;
    forall k | 0 <= k < |z| ensures rel(EndState(z[..k], s), Estimate(z[k].finish, z[k].deployment)) {
      if k < |x| {
        assert z[..k] == x[..k];
      } else {
        assert z[..k] == x + y[..k - |x|];
        assert EndState(z[..k], s) == EndState(y[..k - |x|], EndState(x, s));
      }
    }
  }

  lemma TailKeeps(p: Planner, rel: (State, Estimate) -> bool, factory: State -> Request, s: State)
    requires ModelsKeep(p, rel)
    ensures ListKeeps(rel, s, FinishingTail(p, factory, s))
  {
  }

  /** What all models keep holds along every returned plan, across segments, pruning and
      finishing requests. */
  lemma PlanKeeps(p: Planner, rel: (State, Estimate) -> bool, states: seq<State>, requests: seq<Request>,
                  plan: seq<seq<Assignment>>, finishing: Option<State -> Request>, a: nat, r: seq<Assignment>)
    requires ModelsKeep(p, rel) && GoodPlan(p, states, requests, plan) && a < |plan|
    requires WithFinishing(p, finishing, plan[a], r)
    ensures ListKeeps(rel, states[a], r)
  {
    hide ModelsKeep, ListKeeps, Consistent, Settled, FinishingTail, WithFinishing;
    CompletedUnique(p, finishing, plan[a], r);
    ConsistentKeeps(p, rel, states[a], plan[a]);
    if finishing.Some? && plan[a] != [] {
      var s := Last(plan[a]).finish;
      TailKeeps(p, rel, finishing.value, s);
      KeepsConcat(rel, states[a], plan[a], FinishingTail(p, finishing.value, s));
    }
  }

  // ---- time ----

  /** A task is deployed no earlier than the robot is free and ends no earlier than that. */
  predicate Forward(s: State, e: Estimate) {
    s.time <= e.waitUntil <= e.finish.time
  }

  /** The first deployment is not before the initial time, no later one is before the
      previous finish, and no task finishes before its deployment. */
  ghost predicate Timeline(s: State, l: seq<Assignment>) {
    && (l != [] ==> s.time <= l[0].deployment)
    && (forall k | 0 < k < |l| :: l[k - 1].finish.time <= l[k].deployment)
    && (forall k | 0 <= k < |l| :: l[k].deployment <= l[k].finish.time)
  }

  /** If no model runs backwards, no plan does. */
  lemma PlanTimeline(p: Planner, states: seq<State>, requests: seq<Request>,
                     plan: seq<seq<Assignment>>, finishing: Option<State -> Request>, a: nat, r: seq<Assignment>)
    requires ModelsKeep(p, Forward) && GoodPlan(p, states, requests, plan) && a < |plan|
    requires WithFinishing(p, finishing, plan[a], r)
    ensures Timeline(states[a], r)
  {
    hide WithFinishing;
    PlanKeeps(p, Forward, states, requests, plan, finishing, a, r);
    ForwardTimeline(states[a], r);
  }

  lemma ForwardTimeline(s: State, l: seq<Assignment>)
    requires ListKeeps(Forward, s, l)
    ensures Timeline(s, l)
  {
  }
}
