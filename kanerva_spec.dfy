/**
  The value side of the prototype fuzzy-Kanerva learner: its fixed tables and
  constants, the squared distance between a state-action pair and a prototype,
  the membership grade built on it, the Q value of a pair, the greedy action,
  the reward rule and the weight update. Everything here is a pure function of
  its arguments; the agent that owns the tables is in module KanervaAgent.
 */
module KanervaSpec {

  const NPrototypes: nat := 10
  const NActions: nat := 5
  const NStateIntervals: nat := 10
  const StateDim: nat := 4
  /** Congestion-window change, in segments, for each action index. */
  const CwndActionMappings: seq<int> := [-1, 0, 5, 10, 20]
  const DiscountFactor: real := 0.99
  const Lr: real := 0.5
  const EpsilonThresh: real := 0.6
  const InitialCwnd: int := 10
  /** Number of acknowledgments the driver loop processes. */
  const NAcks: nat := 5
  /** RAND_MAX of the C library (glibc's value). */
  const RandMax: int := 2147483647

  /** One value returned by the C library's `rand()`. */
  type Draw = x: int | 0 <= x <= RandMax

  /** A state vector with an action: the `state_action_pair` record, and also a prototype. */
  datatype StateAction = StateAction(state: seq<int>, action: int)

  function Sq(x: int): (r: nat)
    ensures r == 0 <==> x == 0
  {
    x * x
  }

  /** Squared Euclidean distance over the first `n` components, summed from component 0. */
  function PartialDistance(s: seq<int>, t: seq<int>, n: nat): nat
    requires |s| == |t| && n <= |s|
  {
    if n == 0 then 0 else PartialDistance(s, t, n - 1) + Sq(s[n - 1] - t[n - 1])
  }

  /** Squared Euclidean distance between two state vectors. */
  function StateDistance(s: seq<int>, t: seq<int>): nat
    requires |s| == |t|
  {
    PartialDistance(s, t, |s|)
  }

  /**
    The integer distance `getMembershipGrade` feeds to `exp`: squared action
    difference plus squared state differences.
   */
  function SquaredDistance(x: StateAction, p: StateAction): nat
    requires |x.state| == |p.state|
  {
    Sq(x.action - p.action) + StateDistance(x.state, p.state)
  }

  /** The partial distance vanishes exactly when the first `n` components agree. */
  lemma {:induction false} PartialDistanceZero(s: seq<int>, t: seq<int>, n: nat)
    requires |s| == |t| && n <= |s|
    ensures PartialDistance(s, t, n) == 0 <==> s[..n] == t[..n]
  {
    if n > 0 {
      PartialDistanceZero(s, t, n - 1);
      assert s[..n] == s[..n - 1] + [s[n - 1]] && t[..n] == t[..n - 1] + [t[n - 1]];
      if s[..n] == t[..n] {
        assert s[..n - 1] == s[..n][..n - 1] == t[..n][..n - 1] == t[..n - 1];
      }
    }
  }

  /** The distance is 0 exactly at the prototype itself. */
  lemma SquaredDistanceZero(x: StateAction, p: StateAction)
    requires |x.state| == |p.state|
    ensures SquaredDistance(x, p) == 0 <==> x == p
  {
    PartialDistanceZero(x.state, p.state, |x.state|);
    assert x.state[..|x.state|] == x.state && p.state[..|p.state|] == p.state;
  }

  /**
    The membership grade `exp(-d / (2 * variance))` with variance 1, written as
    `decay^d` where `decay` stands for `exp(-1/2)`; only `0 < decay < 1` is required of it.
   */
  function Membership(decay: real, d: nat): (m: real)
    requires 0.0 < decay < 1.0
    ensures 0.0 < m <= 1.0
  {
    if d == 0 then 1.0
    else
      var m' := Membership(decay, d - 1);
      assert decay * m' <= decay * 1.0;
      decay * m'
  }

  /** A pair has full membership (grade 1) in a prototype exactly when it is that prototype. */
  lemma FullMembership(decay: real, x: StateAction, p: StateAction)
    requires 0.0 < decay < 1.0 && |x.state| == |p.state|
    ensures Membership(decay, SquaredDistance(x, p)) == 1.0 <==> x == p
  {
    SquaredDistanceZero(x, p);
    var d := SquaredDistance(x, p);
    if d > 0 {
      assert Membership(decay, d) == decay * Membership(decay, d - 1) <= decay * 1.0;
    }
  }

  /** A prototype further away never has a larger membership grade. */
  lemma {:induction false} MembershipAntitone(decay: real, d1: nat, d2: nat)
    requires 0.0 < decay < 1.0
    requires d1 <= d2
    ensures Membership(decay, d2) <= Membership(decay, d1)
    decreases d2
  {
    if d1 < d2 {
      MembershipAntitone(decay, d1, d2 - 1);
      var m := Membership(decay, d2 - 1);
      calc {
        Membership(decay, d2);
        decay * m;
        <= { assert (1.0 - decay) * m > 0.0; }
        m;
        <= Membership(decay, d1);
      }
    }
  }

  /** Every prototype has a state vector of length `dim`. */
  predicate SameShape(protos: seq<StateAction>, dim: nat)
  {
    forall i :: 0 <= i < |protos| ==> |protos[i].state| == dim
  }

  /** The membership grade of `x` with respect to each prototype. */
  function Memberships(decay: real, protos: seq<StateAction>, x: StateAction): (ms: seq<real>)
    requires 0.0 < decay < 1.0 && SameShape(protos, |x.state|)
    ensures |ms| == |protos|
    ensures forall i :: 0 <= i < |ms| ==> 0.0 < ms[i] <= 1.0
  {
    MembershipsUpTo(decay, protos, x, |protos|)
  }

  /** The grades of `x` in the first `n` prototypes, in prototype order. */
  function MembershipsUpTo(decay: real, protos: seq<StateAction>, x: StateAction, n: nat): (ms: seq<real>)
    requires 0.0 < decay < 1.0 && SameShape(protos, |x.state|) && n <= |protos|
    ensures |ms| == n
    ensures forall i :: 0 <= i < n ==> ms[i] == Membership(decay, SquaredDistance(x, protos[i]))
  {
    if n == 0 then []
    else MembershipsUpTo(decay, protos, x, n - 1) + [Membership(decay, SquaredDistance(x, protos[n - 1]))]
  }

  /** The membership-weighted sum of the first `n` weights, accumulated from prototype 0. */
  function PartialQ(decay: real, protos: seq<StateAction>, thetas: seq<real>, x: StateAction, n: nat): real
    requires 0.0 < decay < 1.0 && |protos| == |thetas| && SameShape(protos, |x.state|) && n <= |protos|
  {
    if n == 0 then 0.0
    else PartialQ(decay, protos, thetas, x, n - 1) + Membership(decay, SquaredDistance(x, protos[n - 1])) * thetas[n - 1]
  }

  /** One more prototype in the partial sum. */
  lemma PartialQStep(decay: real, protos: seq<StateAction>, thetas: seq<real>, x: StateAction, n: nat, m: real, t: real)
    requires 0.0 < decay < 1.0 && |protos| == |thetas| && SameShape(protos, |x.state|) && n < |protos|
    requires m == Membership(decay, SquaredDistance(x, protos[n])) && t == thetas[n]
    ensures PartialQ(decay, protos, thetas, x, n + 1) == PartialQ(decay, protos, thetas, x, n) + m * t
  {
  }

  /** The Q value of `x`: the membership-weighted sum of all weights. */
  function QValue(decay: real, protos: seq<StateAction>, thetas: seq<real>, x: StateAction): real
    requires 0.0 < decay < 1.0 && |protos| == |thetas| && SameShape(protos, |x.state|)
  {
    PartialQ(decay, protos, thetas, x, |protos|)
  }

  /** With all weights 0 (as before any learning step) every Q value is 0. */
  lemma {:induction false} PartialQOfZeroWeights(decay: real, protos: seq<StateAction>, thetas: seq<real>, x: StateAction, n: nat)
    requires 0.0 < decay < 1.0 && |protos| == |thetas| && SameShape(protos, |x.state|) && n <= |protos|
    requires forall i :: 0 <= i < |thetas| ==> thetas[i] == 0.0
    ensures PartialQ(decay, protos, thetas, x, n) == 0.0
  {
    if n > 0 {
      PartialQOfZeroWeights(decay, protos, thetas, x, n - 1);
    }
  }

  /** The Q value of every action in state `s`, indexed by action. */
  function ActionValues(decay: real, protos: seq<StateAction>, thetas: seq<real>, s: seq<int>): (qs: seq<real>)
    requires 0.0 < decay < 1.0 && |protos| == |thetas| && SameShape(protos, |s|)
    ensures |qs| == NActions
    ensures forall a :: 0 <= a < NActions ==> qs[a] == QValue(decay, protos, thetas, StateAction(s, a))
  {
    seq(NActions, a => QValue(decay, protos, thetas, StateAction(s, a)))
  }

  /**
    The TD error of a learning step: the reward, plus the discounted best Q
    value over the actions in state `s`, minus the Q value of the previous pair
    `prev`, all under the weights `thetas` from before the step.
   */
  function TdError(decay: real, protos: seq<StateAction>, thetas: seq<real>, prev: StateAction,
                   s: seq<int>, deltaUtility: real): real
    requires 0.0 < decay < 1.0 && |protos| == |thetas| && SameShape(protos, |s|) && |prev.state| == |s|
  {
    var qs := ActionValues(decay, protos, thetas, s);
    Reward(deltaUtility) + DiscountFactor * qs[Greedy(qs)] - QValue(decay, protos, thetas, prev)
  }

  /**
    The first learning step, while every weight is still 0: all Q values are
    0, so the greedy action is action 0 (ties go to the lowest index) and the
    TD error is the reward alone.
   */
  lemma ZeroWeightsStep(decay: real, protos: seq<StateAction>, thetas: seq<real>, prev: StateAction,
                        s: seq<int>, deltaUtility: real)
    requires 0.0 < decay < 1.0 && |protos| == |thetas| && SameShape(protos, |s|) && |prev.state| == |s|
    requires forall i :: 0 <= i < |thetas| ==> thetas[i] == 0.0
    ensures Greedy(ActionValues(decay, protos, thetas, s)) == 0
    ensures TdError(decay, protos, thetas, prev, s, deltaUtility) == Reward(deltaUtility)
  {
    var qs := ActionValues(decay, protos, thetas, s);
    forall a | 0 <= a < NActions
      ensures qs[a] == 0.0
    {
      PartialQOfZeroWeights(decay, protos, thetas, StateAction(s, a), |protos|);
    }
    PartialQOfZeroWeights(decay, protos, thetas, prev, |protos|);
    var g := Greedy(qs);
    assert qs[0] == qs[g];
  }

  /** `a` attains the maximum of `qs` and no smaller index does. */
  predicate IsFirstArgmax(qs: seq<real>, a: int)
  {
    0 <= a < |qs| &&
    (forall b :: 0 <= b < |qs| ==> qs[b] <= qs[a]) &&
    (forall b :: 0 <= b < a ==> qs[b] < qs[a])
  }

  /**
    The greedy choice among the first `n` values: a left-to-right scan that
    replaces the best only on a strictly larger value, so ties go to the
    lowest index.
   */
  function GreedyUpTo(qs: seq<real>, n: nat): (a: nat)
    requires 0 < n <= |qs|
    ensures a < n
    ensures forall b :: 0 <= b < n ==> qs[b] <= qs[a]
    ensures forall b :: 0 <= b < a ==> qs[b] < qs[a]
  {
    if n == 1 then 0
    else
      var best := GreedyUpTo(qs, n - 1);
      if qs[best] < qs[n - 1] then n - 1 else best
  }

  /** The greedy action over all of `qs`: the lowest index of the largest value. */
  function Greedy(qs: seq<real>): (a: nat)
    requires |qs| > 0
    ensures IsFirstArgmax(qs, a)
  {
    GreedyUpTo(qs, |qs|)
  }

  /** The reward: +2 when utility went up, -2 otherwise (no dead band). */
  function Reward(deltaUtility: real): (r: real)
    ensures r == 2.0 || r == -2.0
    ensures r == 2.0 <==> deltaUtility > 0.0
  {
    if deltaUtility > 0.0 then 2.0 else -2.0
  }

  /** The change in utility; the prototype always reports an increase. */
  function UtilityDiff(): (d: real)
    ensures d > 0.0 && Reward(d) == 2.0
  {
    1.0
  }

  /** Each weight becomes its membership times the learning rate times the TD error `delta`. */
  function ThetaUpdate(memberships: seq<real>, delta: real): (th: seq<real>)
    ensures |th| == |memberships|
  {
    seq(|memberships|, i requires 0 <= i < |memberships| => memberships[i] * Lr * delta)
  }

  /**
    The weights after a learning step with TD error `delta`: each weight is
    replaced by its prototype's membership of the previous pair times the
    learning rate times `delta`; the old weights play no part.
   */
  function UpdatedThetas(decay: real, protos: seq<StateAction>, prev: StateAction, delta: real): (th: seq<real>)
    requires 0.0 < decay < 1.0 && SameShape(protos, |prev.state|)
    ensures |th| == |protos|
  {
    ThetaUpdate(Memberships(decay, protos, prev), delta)
  }

  function Abs(x: real): real
  {
    if x < 0.0 then -x else x
  }

  /** A new weight is at most `Lr * |delta|` in size and has the sign of `delta`. */
  lemma UpdatedThetaBounded(decay: real, protos: seq<StateAction>, prev: StateAction, delta: real, i: nat)
    requires 0.0 < decay < 1.0 && SameShape(protos, |prev.state|)
    requires i < |protos|
    ensures Abs(UpdatedThetas(decay, protos, prev, delta)[i]) <= Lr * Abs(delta)
    ensures UpdatedThetas(decay, protos, prev, delta)[i] > 0.0 <==> delta > 0.0
    ensures UpdatedThetas(decay, protos, prev, delta)[i] == 0.0 <==> delta == 0.0
  {
    var m := Memberships(decay, protos, prev)[i];
    var th := UpdatedThetas(decay, protos, prev, delta)[i];
    assert th == m * (Lr * delta);
    var e := Lr * Abs(delta);
    assert Abs(th) == m * e;
    assert m * e <= 1.0 * e;
  }

  /** The epsilon-greedy test `rand() / RAND_MAX > epsilon_thresh` (exploit when true). */
  predicate Exploits(draw: Draw)
  {
    draw as real / RandMax as real > EpsilonThresh
  }

  /** The window change for an action: one of the five table entries. */
  function CwndDelta(action: int): (d: int)
    requires 0 <= action < NActions
    ensures d in {-1, 0, 5, 10, 20}
    ensures -1 <= d <= 20
  {
    CwndActionMappings[action]
  }

  predicate ValidActions(actions: seq<int>)
  {
    forall k :: 0 <= k < |actions| ==> 0 <= actions[k] < NActions
  }

  /** Total window change after applying `actions` in order. */
  function CwndTotal(actions: seq<int>): int
    requires ValidActions(actions)
    decreases |actions|
  {
    if actions == [] then 0
    else CwndTotal(actions[..|actions| - 1]) + CwndDelta(actions[|actions| - 1])
  }

  /** Each applied action moves the window by at least -1 and at most +20 segments. */
  lemma {:induction false} CwndTotalBounds(actions: seq<int>)
    requires ValidActions(actions)
    ensures -|actions| <= CwndTotal(actions) <= 20 * |actions|
    decreases |actions|
  {
    if actions != [] {
      CwndTotalBounds(actions[..|actions| - 1]);
    }
  }
}
