/**
  The prototype fuzzy-Kanerva congestion-window learner as a stateful agent.
  Its fields are the program's global tables (prototypes, weights, current and
  previous state-action pair, window) and the stream of `rand()` results, read
  in the order the program draws them.
 */
module KanervaAgent {
  import opened KanervaSpec

  class Agent {
    /** prototype_actions */
    const prototypeActions: array<int>
    /** prototype_states */
    const prototypeStates: array2<int>
    /** thetas: one weight per prototype */
    const thetas: array<real>
    /** curr_state */
    const currState: array<int>
    /** prev.state */
    const prevState: array<int>
    /** prev.action */
    var prevAction: int
    /** cwnd, in segments */
    var cwnd: int
    /** exp(-1 / (2 * variance)): the membership grade at distance 1 */
    const decay: real
    /** The values `rand()` returns after `srand(0)`, in order. */
    const randStream: nat -> Draw
    /** How many values have been drawn so far. */
    var randCount: nat

    /** The table sizes, which never change, and the range of `decay`. */
    ghost predicate Shaped()
    {
      prototypeActions.Length == NPrototypes &&
      prototypeStates.Length0 == NPrototypes && prototypeStates.Length1 == StateDim &&
      thetas.Length == NPrototypes &&
      currState.Length == StateDim && prevState.Length == StateDim &&
      prototypeActions != currState && prototypeActions != prevState && currState != prevState &&
      0.0 < decay < 1.0
    }

    /** The object invariant: every action and state component is a valid index. */
    ghost predicate Valid()
      reads this`prevAction, prototypeActions, prototypeStates, currState, prevState
    {
      Shaped() &&
      (forall i :: 0 <= i < NPrototypes ==> 0 <= prototypeActions[i] < NActions) &&
      (forall i, j :: 0 <= i < NPrototypes && 0 <= j < StateDim ==>
         0 <= prototypeStates[i, j] < NStateIntervals) &&
      (forall j :: 0 <= j < StateDim ==> 0 <= currState[j] < NStateIntervals) &&
      (forall j :: 0 <= j < StateDim ==> 0 <= prevState[j] < NStateIntervals) &&
      0 <= prevAction < NActions
    }

    /** Prototype `i` as a state-action pair. */
    ghost function Prototype(i: nat): (p: StateAction)
      reads prototypeActions, prototypeStates
      requires Shaped() && i < NPrototypes
      ensures |p.state| == StateDim && p.action == prototypeActions[i]
      ensures forall j :: 0 <= j < StateDim ==> p.state[j] == prototypeStates[i, j]
    {
      StateAction(seq(StateDim, j requires 0 <= j < StateDim reads prototypeStates => prototypeStates[i, j]),
                  prototypeActions[i])
    }

    ghost function Prototypes(): (ps: seq<StateAction>)
      reads prototypeActions, prototypeStates
      requires Shaped()
      ensures |ps| == NPrototypes && SameShape(ps, StateDim)
      ensures forall i :: 0 <= i < NPrototypes ==> ps[i] == Prototype(i)
    {
      seq(NPrototypes, i requires 0 <= i < NPrototypes reads prototypeActions, prototypeStates => Prototype(i))
    }

    /** The previous state-action pair, `prev`. */
    ghost function Prev(): StateAction
      reads this`prevAction, prevState
    {
      StateAction(prevState[..], prevAction)
    }

    /** `count` draws from position `start`, each reduced modulo `m`. */
    ghost function Draws(start: nat, count: nat, m: nat): seq<int>
      requires m > 0
    {
      seq(count, k requires 0 <= k < count => randStream(start + k) % m)
    }

    /** The zero-initialised globals, with `srand(0)` fixing the draw stream. */
    constructor (randStream: nat -> Draw, decay: real)
      requires 0.0 < decay < 1.0
      ensures Valid() && fresh(prototypeActions) && fresh(prototypeStates) && fresh(thetas)
      ensures fresh(currState) && fresh(prevState)
      ensures this.randStream == randStream && this.decay == decay && randCount == 0
      ensures prototypeActions[..] == seq(NPrototypes, _ => 0)
      ensures forall i, j :: 0 <= i < NPrototypes && 0 <= j < StateDim ==> prototypeStates[i, j] == 0
      ensures thetas[..] == seq(NPrototypes, _ => 0.0)
      ensures currState[..] == seq(StateDim, _ => 0) && prevState[..] == seq(StateDim, _ => 0)
      ensures prevAction == 0 && cwnd == InitialCwnd
    {
      prototypeActions := new int[NPrototypes](_ => 0);
      prototypeStates := new int[NPrototypes, StateDim]((_, _) => 0);
      thetas := new real[NPrototypes](_ => 0.0);
      currState := new int[StateDim](_ => 0);
      prevState := new int[StateDim](_ => 0);
      prevAction := 0;
      cwnd := InitialCwnd;
      this.decay := decay;
      this.randStream := randStream;
      randCount := 0;
    }

    /** `rand()`: the next value of the stream. */
    method Rand() returns (r: Draw)
      modifies this`randCount
      ensures r == randStream(old(randCount)) && randCount == old(randCount) + 1
    {
      r := randStream(randCount);
      randCount := randCount + 1;
    }

    /**
      The start of `main`: draw every prototype (its action, then its state
      components) and set the previous pair to the zero state with action 1.
     */
    method InitPrototypes()
      requires Valid()
      modifies this`randCount, this`prevAction, prototypeActions, prototypeStates, prevState
      ensures Valid()
      ensures randCount == old(randCount) + 50
      ensures forall i :: 0 <= i < NPrototypes ==>
                prototypeActions[i] == randStream(old(randCount) + 5 * i) % NActions
      ensures forall i, j :: 0 <= i < NPrototypes && 0 <= j < StateDim ==>
                prototypeStates[i, j] == randStream(old(randCount) + 5 * i + 1 + j) % NStateIntervals
      ensures prevState[..] == seq(StateDim, _ => 0) && prevAction == 1
    {
      ghost var start := randCount;
      for i := 0 to NPrototypes
        invariant Valid()
        invariant randCount == start + 5 * i
        invariant forall i' :: 0 <= i' < i ==> prototypeActions[i'] == randStream(start + 5 * i') % NActions
        invariant forall i', j :: 0 <= i' < i && 0 <= j < StateDim ==>
                    prototypeStates[i', j] == randStream(start + 5 * i' + 1 + j) % NStateIntervals
      {
        DrawPrototype(i);
      }
      for j := 0 to StateDim
        modifies prevState
        invariant Valid()
        invariant forall j' :: 0 <= j' < j ==> prevState[j'] == 0
      {
        prevState[j] := 0;
      }
      prevAction := 1;
    }

    /** One pass of the prototype loop of `main`: draw prototype `i`'s action, then its state components. */
    method DrawPrototype(i: nat)
      requires Valid() && i < NPrototypes
      modifies this`randCount, prototypeActions, prototypeStates
      ensures Valid()
      ensures randCount == old(randCount) + 1 + StateDim
      ensures prototypeActions[..] == old(prototypeActions[..])[i := randStream(old(randCount)) % NActions]
      ensures forall i', j :: 0 <= i' < NPrototypes && 0 <= j < StateDim ==>
                prototypeStates[i', j] ==
                  if i' == i then randStream(old(randCount) + 1 + j) % NStateIntervals
                  else old(prototypeStates[i', j])
    {
      var r := Rand();
      prototypeActions[i] := r % NActions;
      for j := 0 to StateDim
        invariant Valid()
        invariant randCount == old(randCount) + 1 + j
        invariant prototypeActions[..] == old(prototypeActions[..])[i := randStream(old(randCount)) % NActions]
        invariant forall i', j' :: 0 <= i' < NPrototypes && 0 <= j' < StateDim ==>
                    prototypeStates[i', j'] ==
                      if i' == i && j' < j then randStream(old(randCount) + 1 + j') % NStateIntervals
                      else old(prototypeStates[i', j'])
      {
        r := Rand();
        prototypeStates[i, j] := r % NStateIntervals;
      }
    }

    /** `update_curr_state`: each component of the current state is a fresh draw modulo the interval count. */
    method UpdateCurrState()
      requires Valid()
      modifies this`randCount, currState
      ensures Valid()
      ensures randCount == old(randCount) + StateDim
      ensures currState[..] == Draws(old(randCount), StateDim, NStateIntervals)
    {
      for j := 0 to StateDim
        invariant Valid()
        invariant randCount == old(randCount) + j
        invariant forall k :: 0 <= k < j ==> currState[k] == randStream(old(randCount) + k) % NStateIntervals
      {
        var r := Rand();
        currState[j] := r % NStateIntervals;
      }
    }

    /** `getMembershipGrade`: the membership of (`state`, `action`) in prototype `p`. */
    method MembershipGrade(p: nat, state: array<int>, action: int) returns (m: real)
      requires Shaped() && p < NPrototypes && state.Length == StateDim
      ensures m == Membership(decay, SquaredDistance(StateAction(state[..], action), Prototype(p)))
    {
      ghost var row := Prototype(p).state;
      var diff: nat := Sq(action - prototypeActions[p]);
      for i := 0 to StateDim
        invariant diff == Sq(action - prototypeActions[p]) + PartialDistance(state[..], row, i)
      {
        diff := diff + Sq(state[i] - prototypeStates[p, i]);
      }
      m := Membership(decay, diff);
    }

    /** The first loop of `fuzzyKanerva`: memberships of the previous pair and its Q value. */
    method PrevValue() returns (memberships: seq<real>, prevQ: real)
      requires Shaped()
      ensures memberships == Memberships(decay, Prototypes(), Prev())
      ensures prevQ == QValue(decay, Prototypes(), thetas[..], Prev())
    {
      ghost var ps, th, x := Prototypes(), thetas[..], Prev();
      memberships, prevQ := [], 0.0;
      for i := 0 to NPrototypes
        invariant memberships == MembershipsUpTo(decay, ps, x, i)
        invariant prevQ == PartialQ(decay, ps, th, x, i)
      {
        assert ps[i] == Prototype(i);
        var m := MembershipGrade(i, prevState, prevAction);
        var t := thetas[i];
        PartialQStep(decay, ps, th, x, i, m, t);
        memberships := memberships + [m];
        prevQ := prevQ + m * t;
      }
    }

    /** The inner loop of the second loop of `fuzzyKanerva`: the Q value of `action` in the current state. */
    method CurrentQ(action: int) returns (q: real)
      requires Shaped()
      ensures q == QValue(decay, Prototypes(), thetas[..], StateAction(currState[..], action))
    {
      ghost var ps, th, x := Prototypes(), thetas[..], StateAction(currState[..], action);
      q := 0.0;
      for i := 0 to NPrototypes
        invariant q == PartialQ(decay, ps, th, x, i)
      {
        assert ps[i] == Prototype(i);
        var m := MembershipGrade(i, currState, action);
        var t := thetas[i];
        PartialQStep(decay, ps, th, x, i, m, t);
        q := q + m * t;
      }
    }

    /**
      The second loop of `fuzzyKanerva`: the Q value of every action in the
      current state and the greedy action, the lowest index of the largest Q value.
     */
    method GreedyAction() returns (best: int, maxQ: real)
      requires Shaped()
      ensures var qs := ActionValues(decay, Prototypes(), thetas[..], currState[..]);
              0 <= best < NActions && best == Greedy(qs) && maxQ == qs[best] &&
              (forall a :: 0 <= a < NActions ==> qs[a] <= maxQ) &&
              (forall a :: 0 <= a < best ==> qs[a] < maxQ)
    {
      ghost var ps, th := Prototypes(), thetas[..];
      ghost var qs := ActionValues(decay, ps, th, currState[..]);
      best, maxQ := 0, 0.0;
      for a := 0 to NActions
        invariant 0 < a ==> best == GreedyUpTo(qs, a) && maxQ == qs[best]
      {
        var currQ := CurrentQ(a);
        if a == 0 {
          maxQ := currQ;
          best := a;
        } else if maxQ < currQ {
          maxQ := currQ;
          best := a;
        }
      }
    }

    /**
      `fuzzyKanerva`: one learning step. Draw the current state, score the
      previous pair and every current action with the old weights, overwrite
      every weight from the TD error, choose the next action epsilon-greedily
      and remember the current state as the previous one.
     */
    method FuzzyKanerva(deltaUtility: real)
      requires Valid()
      modifies this`randCount, this`prevAction, currState, thetas, prevState
      ensures Valid()
      ensures unchanged(prototypeActions, prototypeStates)
      ensures currState[..] == Draws(old(randCount), StateDim, NStateIntervals)
      ensures prevState[..] == currState[..]
      ensures var ps, x, th := Prototypes(), old(Prev()), old(thetas[..]);
              thetas[..] == UpdatedThetas(decay, ps, x, TdError(decay, ps, th, x, currState[..], deltaUtility))
      ensures var qs := ActionValues(decay, Prototypes(), old(thetas[..]), currState[..]);
              if Exploits(randStream(old(randCount) + StateDim)) then
                prevAction == Greedy(qs) && randCount == old(randCount) + StateDim + 1
              else
                prevAction == randStream(old(randCount) + StateDim + 1) % NActions &&
                randCount == old(randCount) + StateDim + 2
    {
      ghost var x, th, ps := Prev(), thetas[..], Prototypes();
      var argmaxCurrQ := Learn(deltaUtility);
      ghost var cs, th' := currState[..], thetas[..];
      assert Prototypes() == ps && Prev() == x;
      ChooseAction(argmaxCurrQ);
      CopyCurrState();
      assert Prototypes() == ps && currState[..] == cs && thetas[..] == th';
    }

    /**
      The learning half of `fuzzyKanerva`, up to the weight update: draw the
      current state, compute the TD error from the old weights and overwrite
      the weights. Returns the greedy action of the current state.
     */
    method Learn(deltaUtility: real) returns (argmaxCurrQ: int)
      requires Valid()
      modifies this`randCount, currState, thetas
      ensures Valid()
      ensures randCount == old(randCount) + StateDim
      ensures currState[..] == Draws(old(randCount), StateDim, NStateIntervals)
      ensures var ps, x, th, cs := Prototypes(), Prev(), old(thetas[..]), currState[..];
              argmaxCurrQ == Greedy(ActionValues(decay, ps, th, cs)) &&
              thetas[..] == UpdatedThetas(decay, ps, x, TdError(decay, ps, th, x, cs, deltaUtility))
    {
      ghost var x, th, ps := Prev(), thetas[..], Prototypes();
      UpdateCurrState();
      assert Prototypes() == ps;
      ghost var cs := currState[..];
      var reward := Reward(deltaUtility);
      var prevMemberships, prevQ := PrevValue();
      var maxCurrQ;
      argmaxCurrQ, maxCurrQ := GreedyAction();
      var delta := reward + DiscountFactor * maxCurrQ - prevQ;
      assert delta == TdError(decay, ps, th, x, cs, deltaUtility);
      UpdateThetas(prevMemberships, delta);
      assert Prototypes() == ps && Prev() == x;
    }

    /** The weight loop of `fuzzyKanerva`: every weight is overwritten, none accumulated. */
    method UpdateThetas(memberships: seq<real>, delta: real)
      requires Shaped() && |memberships| == NPrototypes
      modifies thetas
      ensures thetas[..] == ThetaUpdate(memberships, delta)
    {
      for i := 0 to NPrototypes
        invariant forall k :: 0 <= k < i ==> thetas[k] == memberships[k] * Lr * delta
      {
        thetas[i] := memberships[i] * Lr * delta;
      }
      assert forall k :: 0 <= k < NPrototypes ==> thetas[..][k] == ThetaUpdate(memberships, delta)[k];
    }

    /** The epsilon-greedy choice of `fuzzyKanerva`: a second draw is made only when exploring. */
    method ChooseAction(argmaxCurrQ: int)
      requires 0 <= argmaxCurrQ < NActions
      modifies this`randCount, this`prevAction
      ensures 0 <= prevAction < NActions
      ensures if Exploits(randStream(old(randCount))) then
                prevAction == argmaxCurrQ && randCount == old(randCount) + 1
              else
                prevAction == randStream(old(randCount) + 1) % NActions && randCount == old(randCount) + 2
    {
      var r := Rand();
      if r as real / RandMax as real > EpsilonThresh {
        prevAction := argmaxCurrQ;
      } else {
        r := Rand();
        prevAction := r % NActions;
      }
    }

    /** The last loop of `fuzzyKanerva`: the current state becomes the previous state. */
    method CopyCurrState()
      requires Valid()
      modifies prevState
      ensures Valid()
      ensures prevState[..] == currState[..]
    {
      for i := 0 to StateDim
        invariant Valid()
        invariant forall k :: 0 <= k < i ==> prevState[k] == currState[k]
      {
        prevState[i] := currState[i];
      }
    }

    /** `change_cwnd`: apply the window change of the previous action. */
    method ChangeCwnd()
      requires Valid()
      modifies this`cwnd
      ensures cwnd == old(cwnd) + CwndDelta(prevAction)
    {
      cwnd := cwnd + CwndActionMappings[prevAction];
    }

    /**
      How many values one learning step starting after `start` draws: the
      state components, the epsilon draw, and a second draw when it explores.
     */
    ghost function StepDraws(start: nat): nat
    {
      StateDim + if Exploits(randStream(start + StateDim)) then 1 else 2
    }

    /**
      The epsilon choice of a learning step starting after `start` draws: when
      the epsilon draw explores, `action` is the next draw modulo the action count.
     */
    ghost predicate DrawnIfExplored(start: nat, action: int)
    {
      !Exploits(randStream(start + StateDim)) ==> action == randStream(start + StateDim + 1) % NActions
    }

    /**
      A run of acknowledgments: `applied[k]` is the action ack `k` applied and
      `drawn[k]` how many values had been drawn before it (the last entry: after
      the last ack). Each step draws `StepDraws` values and, when it explores,
      applies the draw it made.
     */
    ghost predicate AckHistory(applied: seq<int>, drawn: seq<nat>)
    {
      |drawn| == |applied| + 1 && ValidActions(applied) &&
      (forall k :: 0 <= k < |applied| ==> drawn[k + 1] == drawn[k] + StepDraws(drawn[k])) &&
      (forall k :: 0 <= k < |applied| ==> DrawnIfExplored(drawn[k], applied[k]))
    }

    /** One more acknowledgment extends the history. */
    lemma AckHistoryStep(applied: seq<int>, drawn: seq<nat>, action: int, count: nat)
      requires AckHistory(applied, drawn) && 0 <= action < NActions
      requires count == drawn[|applied|] + StepDraws(drawn[|applied|])
      requires DrawnIfExplored(drawn[|applied|], action)
      ensures AckHistory(applied + [action], drawn + [count])
      ensures (applied + [action])[..|applied|] == applied
    {
      assert (drawn + [count])[..|drawn|] == drawn;
    }

    /**
      One pass of the acknowledgment loop of `main`: a learning step when the
      utility changed (it always does), then the window change of the chosen action.
     */
    method Ack()
      requires Valid()
      modifies this`randCount, this`prevAction, this`cwnd, currState, thetas, prevState
      ensures Valid()
      ensures cwnd == old(cwnd) + CwndDelta(prevAction)
      ensures randCount == old(randCount) + StepDraws(old(randCount))
      ensures currState[..] == Draws(old(randCount), StateDim, NStateIntervals) && prevState[..] == currState[..]
      ensures DrawnIfExplored(old(randCount), prevAction)
    {
      var deltaUtility := UtilityDiff();
      if deltaUtility != 0.0 {
        FuzzyKanerva(deltaUtility);
      }
      ChangeCwnd();
    }

    /**
      The acknowledgment loop of `main`: for each of the `NAcks` acks, a
      learning step (utility always changes) and then a window change.
      `applied` lists the action each window change used, and `drawn[k]` how
      many values had been drawn before ack `k` (`drawn[NAcks]`: after the last).
     */
    method RunAcks() returns (ghost applied: seq<int>, ghost drawn: seq<nat>)
      requires Valid()
      modifies this`randCount, this`prevAction, this`cwnd, currState, thetas, prevState
      ensures Valid()
      ensures |applied| == NAcks && ValidActions(applied) && prevAction == applied[NAcks - 1]
      ensures cwnd == old(cwnd) + CwndTotal(applied)
      ensures |drawn| == NAcks + 1 && drawn[0] == old(randCount) && drawn[NAcks] == randCount
      ensures forall k :: 0 <= k < NAcks ==> drawn[k + 1] == drawn[k] + StepDraws(drawn[k])
      ensures forall k :: 0 <= k < NAcks ==> DrawnIfExplored(drawn[k], applied[k])
      ensures currState[..] == Draws(drawn[NAcks - 1], StateDim, NStateIntervals) && prevState[..] == currState[..]
      ensures old(randCount) + NAcks * (StateDim + 1) <= randCount <= old(randCount) + NAcks * (StateDim + 2)
    {
      applied, drawn := [], [randCount];
      for ack := 0 to NAcks
        invariant Valid()
        invariant AckHistory(applied, drawn) && |applied| == ack
        invariant drawn[0] == old(randCount) && drawn[ack] == randCount
        invariant cwnd == old(cwnd) + CwndTotal(applied)
        invariant 0 < ack ==> prevAction == applied[ack - 1]
        invariant 0 < ack ==>
                    currState[..] == Draws(drawn[ack - 1], StateDim, NStateIntervals) && prevState[..] == currState[..]
        invariant old(randCount) + ack * (StateDim + 1) <= randCount <= old(randCount) + ack * (StateDim + 2)
      {
        Ack();
        AckHistoryStep(applied, drawn, prevAction, randCount);
        applied := applied + [prevAction];
        drawn := drawn + [randCount];
      }
    }
  }

  /**
    The whole program: zero-initialised globals, prototype initialisation from
    the first 50 draws, then the acknowledgment loop. The window ends within
    the table's extremes.
   */
  method RunMain(randStream: nat -> Draw, decay: real) returns (agent: Agent, ghost applied: seq<int>, ghost drawn: seq<nat>)
    requires 0.0 < decay < 1.0
    ensures agent.Valid() && agent.randStream == randStream && agent.decay == decay
    ensures forall i :: 0 <= i < NPrototypes ==> agent.prototypeActions[i] == randStream(5 * i) % NActions
    ensures forall i, j :: 0 <= i < NPrototypes && 0 <= j < StateDim ==>
              agent.prototypeStates[i, j] == randStream(5 * i + 1 + j) % NStateIntervals
    ensures |applied| == NAcks && ValidActions(applied) && agent.prevAction == applied[NAcks - 1]
    ensures |drawn| == NAcks + 1 && drawn[0] == 50 && drawn[NAcks] == agent.randCount
    ensures forall k :: 0 <= k < NAcks ==> drawn[k + 1] == drawn[k] + agent.StepDraws(drawn[k])
    ensures forall k :: 0 <= k < NAcks ==> agent.DrawnIfExplored(drawn[k], applied[k])
    ensures agent.cwnd == InitialCwnd + CwndTotal(applied)
    ensures InitialCwnd - NAcks <= agent.cwnd <= InitialCwnd + 20 * NAcks
    ensures 50 + NAcks * (StateDim + 1) <= agent.randCount <= 50 + NAcks * (StateDim + 2)
  {
    agent := new Agent(randStream, decay);
    agent.InitPrototypes();
    applied, drawn := agent.RunAcks();
    CwndTotalBounds(applied);
  }
}
