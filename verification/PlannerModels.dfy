/** The task planner with the built-in request models. */
module PlannerModels {
  import opened Domain
  import opened Requests
  import opened PlannerNode
  import opened PlannerSegments
  import opened PlannerComplete
  import opened PlannerTimeline

  /** What the model of a request predicts. Requests that are composed of other events are
      predicted by `composed`. */
  function RequestEstimate(env: Environment, composed: (nat, Time, State) -> Option<Estimate>,
                           d: Description, t: Time, s: State): Option<Estimate>
    requires env.chargingCurrent != 0.0
  {
    match d
    case ChargeBattery => ChargeEstimate(env, s)
    case Composed(tag) => composed(tag, t, s)
    case _ => TaskEstimate(env, s, StartOf(d), EndOf(d), t, EffortOf(env, d, t))
  }

  /** `p` uses the built-in models in the environment `env`. */
  ghost predicate Uses(p: Planner, env: Environment, composed: (nat, Time, State) -> Option<Estimate>) {
    && Physical(env)
    && (forall s :: p.charge(s) == ChargeEstimate(env, s))
    && (forall r: Request, t, s :: p.estimate(r, t, s) == RequestEstimate(env, composed, r.description, t, s))
  }

  ghost predicate ComposedKeep(composed: (nat, Time, State) -> Option<Estimate>, rel: (State, Estimate) -> bool) {
    forall k, t, s :: composed(k, t, s).Some? ==> rel(s, composed(k, t, s).value)
  }

  lemma EstimateForward(env: Environment, composed: (nat, Time, State) -> Option<Estimate>,
                        d: Description, t: Time, s: State)
    requires Physical(env) && ComposedKeep(composed, Forward) && RequestEstimate(env, composed, d, t, s).Some?
    ensures Forward(s, RequestEstimate(env, composed, d, t, s).value)
  {
    hide Physical, TaskEstimate, ChargeEstimate, EffortOf;
    EnvironmentCharges(env);
    match d
    case ChargeBattery => ChargeForward(env, s);
    case Composed(tag) =>
    case _ => TaskForward(env, s, d, t);
  }

  lemma EnvironmentCharges(env: Environment)
    requires Physical(env)
    ensures env.chargingCurrent != 0.0
  {
  }

  /** With the built-in models every plan runs forward in time. */
  lemma ModelsRunForward(p: Planner, env: Environment, composed: (nat, Time, State) -> Option<Estimate>)
    requires Uses(p, env, composed) && ComposedKeep(composed, Forward)
    ensures ModelsKeep(p, Forward)
  {
    hide Physical, RequestEstimate, ChargeEstimate, Forward, ComposedKeep;
    EnvironmentCharges(env);
    forall r: Request, t, s | p.estimate(r, t, s).Some? ensures Forward(s, p.estimate(r, t, s).value) {
      EstimateForward(env, composed, r.description, t, s);
    }
    forall s | p.charge(s).Some? ensures Forward(s, p.charge(s).value) {
      assert p.charge(s) == ChargeEstimate(env, s);
      ChargeForwardly(env, s);
    }
  }

  lemma ChargeForwardly(env: Environment, s: State)
    requires Physical(env) && ChargeEstimate(env, s).Some?
    ensures Forward(s, ChargeEstimate(env, s).value)
  {
  }

  // ---- battery ----

  /** From a state with a legal charge, a task ends with a legal charge, which is above the
      threshold unless it is the level up to which batteries are charged. */
  predicate Charged(env: Environment, s: State, e: Estimate) {
    s.soc <= 1.0 ==> 0.0 <= e.finish.soc <= 1.0 && SafeSoc(env, e.finish)
  }

  predicate SafeSoc(env: Environment, s: State) {
    env.thresholdSoc < s.soc || s.soc == env.rechargeSoc
  }

  lemma EstimateCharged(env: Environment, composed: (nat, Time, State) -> Option<Estimate>,
                        d: Description, t: Time, s: State)
    requires Physical(env) && env.drainBattery && ComposedKeep(composed, (s, e) => Charged(env, s, e))
    requires RequestEstimate(env, composed, d, t, s).Some?
    ensures Charged(env, s, RequestEstimate(env, composed, d, t, s).value)
  {
    hide TaskEstimate, ChargeEstimate, EffortOf;
    match d
    case ChargeBattery => ChargeForward(env, s);
    case Composed(tag) =>
    case _ => TaskAboveThreshold(env, s, d, t);
  }

  lemma ModelsKeepCharge(p: Planner, env: Environment, composed: (nat, Time, State) -> Option<Estimate>)
    requires Uses(p, env, composed) && env.drainBattery && ComposedKeep(composed, (s, e) => Charged(env, s, e))
    ensures ModelsKeep(p, (s, e) => Charged(env, s, e))
  {
    hide RequestEstimate, ChargeEstimate, Charged, ComposedKeep;
    forall r: Request, t, s | p.estimate(r, t, s).Some? ensures Charged(env, s, p.estimate(r, t, s).value) {
      EstimateCharged(env, composed, r.description, t, s);
    }
    forall s | p.charge(s).Some? ensures Charged(env, s, p.charge(s).value) {
      assert p.charge(s) == ChargeEstimate(env, s);
      ChargeCharged(env, s);
    }
  }

  lemma ChargeCharged(env: Environment, s: State)
    requires Physical(env) && ChargeEstimate(env, s).Some?
    ensures Charged(env, s, ChargeEstimate(env, s).value)
  {
  }

  /** With draining batteries, no agent of a returned plan ever ends an assignment with an illegal
      charge, or at or below the threshold unless it has just been charged. */
  lemma PlanCharged(p: Planner, env: Environment, composed: (nat, Time, State) -> Option<Estimate>,
                    states: seq<State>, requests: seq<Request>, plan: seq<seq<Assignment>>,
                    finishing: Option<State -> Request>, a: nat, r: seq<Assignment>, k: nat)
    requires Uses(p, env, composed) && env.drainBattery && ComposedKeep(composed, (s, e) => Charged(env, s, e))
    requires GoodPlan(p, states, requests, plan) && a < |plan| && states[a].soc <= 1.0
    requires WithFinishing(p, finishing, plan[a], r) && k < |r|
    ensures 0.0 <= r[k].finish.soc <= 1.0 && SafeSoc(env, r[k].finish)
  {
    hide Uses, GoodPlan, WithFinishing, ModelsKeep, ComposedKeep, ListKeeps, Charged;
    ModelsKeepCharge(p, env, composed);
    assert |states| == |plan| by { PlanAgents(p, states, requests, plan); }
    PlanKeeps(p, (s, e) => Charged(env, s, e), states, requests, plan, finishing, a, r);
    ListCharged(env, states[a], r, k);
  }

  lemma PlanAgents(p: Planner, states: seq<State>, requests: seq<Request>, plan: seq<seq<Assignment>>)
    requires GoodPlan(p, states, requests, plan)
    ensures |states| == |plan|
  {
  }

  lemma {:induction false} ListCharged(env: Environment, s: State, l: seq<Assignment>, k: nat)
    requires ListKeeps((s, e) => Charged(env, s, e), s, l) && s.soc <= 1.0 && k < |l|
    ensures 0.0 <= l[k].finish.soc <= 1.0 && SafeSoc(env, l[k].finish)
  {
    if k > 0 {
      ListCharged(env, s, l, k - 1);
      assert EndState(l[..k], s) == l[k - 1].finish;
    }
    assert Charged(env, EndState(l[..k], s), Estimate(l[k].finish, l[k].deployment));
  }

  /** With the built-in models every returned plan, with its finishing requests, keeps the time
      line of every agent. */
  lemma PlansRunForward(p: Planner, env: Environment, composed: (nat, Time, State) -> Option<Estimate>,
                        states: seq<State>, requests: seq<Request>, plan: seq<seq<Assignment>>,
                        finishing: Option<State -> Request>, a: nat, r: seq<Assignment>)
    requires Uses(p, env, composed) && ComposedKeep(composed, Forward)
    requires GoodPlan(p, states, requests, plan) && a < |plan| && WithFinishing(p, finishing, plan[a], r)
    ensures |states| == |plan| && Timeline(states[a], r)
  {
    hide Uses, GoodPlan, WithFinishing, ModelsKeep, ComposedKeep;
    ModelsRunForward(p, env, composed);
    assert |states| == |plan| by { PlanAgents(p, states, requests, plan); }
    PlanTimeline(p, states, requests, plan, finishing, a, r);
  }
}
