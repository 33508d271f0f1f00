# Learning TCP congestion control: moving average and fuzzy-Kanerva agent

This project models, in Dafny, the two sequential pieces of a reinforcement-learning
TCP congestion controller built on ns-3, and proves properties of the model.

* `tcp_learning.dfy` (module `TcpLearning`) models the `MovingAvg` class. It is a
  fixed-capacity circular buffer of samples with a write index and an `underfilled` flag.
  `Avg` reports the mean of the most recent samples. The class keeps the buffer as an
  `array<real>`, and a ghost field `items` records every sample ever enqueued. The
  object invariant `Layout` says how the buffer holds the last `maxSize` items. While
  underfilled, the items sit in the first `index` slots and every later slot is still 0.
  Once full, reading from the write index round to just before it gives the window,
  oldest first. From this invariant, `BufferSum` proves that summing the whole buffer,
  as `Avg` does, gives the sum of the window. The unit test's trace is reproduced as a
  verified method.
* `kanerva_spec.dfy` (module `KanervaSpec`) holds the learner's fixed tables and
  constants and its pure parts as functions on values:
  - the integer squared distance between a state-action pair and a prototype;
  - the membership grade built on that distance;
  - the membership-weighted Q value and the Q values of all actions in a state;
  - the greedy action, where ties go to the lowest index;
  - the two-way reward, the TD error and the weight overwrite;
  - the window change table.
* `kanerva_agent.dfy` (module `KanervaAgent`) models the program's global state as a
  class `Agent`. Its fields are:
  - the prototype arrays, the weights, the current state, and the previous state and
    action;
  - the congestion window;
  - the stream of `rand()` results, with a counter of draws taken so far.

  Its methods follow the program's functions and loops: `update_curr_state`,
  `getMembershipGrade`, the loops of `fuzzyKanerva`, `change_cwnd`, and the
  initialisation and acknowledgment loops of `main`. The methods that compute values
  (`MembershipGrade`, `PrevValue`, `CurrentQ`, `GreedyAction`, `UpdateThetas`, `Learn`,
  `FuzzyKanerva`, `ChangeCwnd`) are proved against the functions of `KanervaSpec`. The
  methods that draw (`Rand`, `InitPrototypes`, `DrawPrototype`, `UpdateCurrState`) name
  the exact draws they use.

`rand()` after `srand(0)` is a parameter of the agent, `randStream: nat -> Draw`, where
a `Draw` is any value in `[0, RAND_MAX]`. `RAND_MAX` is taken as glibc's 2147483647. The
agent counts the draws it makes, in the order the program draws them. The postconditions
of `InitPrototypes`, `DrawPrototype`, `UpdateCurrState`, `Learn`, `ChooseAction` and
`FuzzyKanerva` name the exact draw each value came from. Those of `Ack`, `RunAcks` and
`RunMain` name the draws of the state and of each explored action. They leave a greedy
action tied only to that step's weights, which `FuzzyKanerva` states.

The learner the code implements makes these choices, which the model follows:
- The distance is the squared Euclidean distance over the action and the four state
  components.
- Each weight is overwritten by `membership * lr * delta`. The old weight plays no part.
- The reward is +2 when the utility went up and -2 otherwise, with nothing in between
  and no dependence on elapsed time.
- The learning rate is the constant 0.5.
- The previous action starts as 0, the value of a zero-initialised global, and `main`
  sets it to 1 before the first acknowledgment.
- The state is drawn at random each step. The code keeps no running utility difference,
  no current/best ratio and no discretised state, so the model has none either.

## Model

| member | source | states |
|---|---|---|
| TcpLearning.MovingAvg.constructor | src/internet/model/tcp-learning.cc:8-12 | The buffer has exactly `size` slots, all 0.0. The index is 0, the flag is underfilled, no item is recorded yet, and the layout invariant holds. |
| TcpLearning.MovingAvg.Enqueue | src/internet/model/tcp-learning.cc:14-24 | The layout invariant is kept, and `item` is appended to the recorded history. Exactly the slot at the old index now holds `item`, and every other slot is unchanged. The index becomes `(old index + 1) % maxSize`. The flag clears exactly when the index wraps to 0 and is never set again. |
| TcpLearning.LayoutStep | src/internet/model/tcp-learning.cc:17-23 | One enqueue takes a buffer that holds `items` to one that holds `items + [item]`, whether the buffer is still filling, just filling up or already full. |
| TcpLearning.MovingAvg.BufferSum | src/internet/model/tcp-learning.cc:43-47 | Under the invariant, the sum of every buffer slot equals the sum of the last `min(k, maxSize)` recorded items. Slots not yet written are 0, and a full buffer is a rotation of the window. |
| TcpLearning.MovingAvg.Avg | src/internet/model/tcp-learning.cc:26-49 | The result is the mean of the last `min(k, maxSize)` of the `k` recorded items, and 0.0 before any enqueue. The divisor is never 0. |
| TcpLearning.WindowStep | src/internet/model/tcp-learning.cc:17-18 | Once at least `n` items are recorded, a new item pushes the oldest one out of the window of `n`. |
| TcpLearning.TraceMeanTwo | src/internet/test/tcp-learning-test.cc:33-35 | After two samples in a buffer of capacity 3, the window is both samples and its mean is their average. |
| TcpLearning.TraceMeanFour | src/internet/test/tcp-learning-test.cc:37-39 | After four samples, the window of capacity 3 has dropped the first one, and its mean is that of samples 2 to 4. |
| TcpLearning.TraceMeanSix | src/internet/test/tcp-learning-test.cc:41-43 | After six samples, the window has the last three, and its mean is that of samples 4 to 6. |
| TcpLearning.Trace | src/internet/test/tcp-learning-test.cc:29-45 | For any six samples, the unit test's steps read 0 on the new buffer, then (a+b)/2, (b+c+d)/3 and (d+e+f)/3. |
| TcpLearning.UnitTestTrace | src/internet/test/tcp-learning-test.cc:29-45 | With capacity 3, `Avg` returns 0.0 on a new buffer, 1.5 after 1,2, 3.0 after 3,4 and 5.0 after 5,6, as the unit test asserts. |
| KanervaSpec.PartialDistanceZero | scratch/TCPLearning.cc:47-49 | The sum of squared component differences over the first `n` components is 0 exactly when those components agree. |
| KanervaSpec.SquaredDistanceZero | scratch/TCPLearning.cc:43-49 | The squared distance, a natural number, is 0 exactly when the state and action equal the prototype's. |
| KanervaSpec.Membership | scratch/TCPLearning.cc:50 | The membership grade lies in (0, 1]. |
| KanervaSpec.FullMembership | scratch/TCPLearning.cc:42-52 | A pair has grade 1 in a prototype exactly when it is that prototype. |
| KanervaSpec.MembershipAntitone | scratch/TCPLearning.cc:50 | A larger distance never gives a larger membership grade. |
| KanervaSpec.Memberships | scratch/TCPLearning.cc:66-70 | There is one grade per prototype, and each lies in (0, 1]. |
| KanervaSpec.PartialQOfZeroWeights | scratch/TCPLearning.cc:13 | With the zero-initialised weights, every Q value, and every partial sum of one, is 0. |
| KanervaSpec.ZeroWeightsStep | scratch/TCPLearning.cc:79-97 | While every weight is still 0, as the zero-initialised weights of line 13 are before the first step, the greedy action is action 0, since ties go to the lowest index. The TD error is then the reward alone. |
| KanervaSpec.GreedyUpTo | scratch/TCPLearning.cc:85-93 | The left-to-right scan over the first `n` values, which replaces the best only on a strictly larger value, returns an index below `n`. Its value is at least every scanned value and strictly above every value at a smaller index. |
| KanervaSpec.Greedy | scratch/TCPLearning.cc:75-94 | The greedy action is an index of the largest Q value, and no smaller index attains that value. |
| KanervaSpec.Reward | scratch/TCPLearning.cc:58-63 | The reward is only ever +2 or -2, and it is +2 exactly when the utility difference is positive. |
| KanervaSpec.UtilityDiff | scratch/TCPLearning.cc:31-33 | The utility difference is always positive, so every acknowledgment runs a learning step with reward +2. |
| KanervaSpec.UpdatedThetaBounded | scratch/TCPLearning.cc:100-103 | Each new weight is at most `lr * abs(delta)` in size. It is positive exactly when `delta` is positive and 0 exactly when `delta` is 0, whatever the old weight was. |
| KanervaSpec.CwndDelta | scratch/TCPLearning.cc:10 | The window change of a valid action is one of -1, 0, 5, 10 and 20. |
| KanervaSpec.CwndTotalBounds | scratch/TCPLearning.cc:117-119 | After `k` window changes the window has moved by at least `-k` and at most `20 * k` segments. |
| KanervaAgent.Agent.constructor | scratch/TCPLearning.cc:6-29 | All globals start zeroed, the window starts at 10, and no draw has been taken. Every table entry is in range. |
| KanervaAgent.Agent.Rand | scratch/TCPLearning.cc:37 | `rand()` returns the next value of the stream and advances the draw count by one. |
| KanervaAgent.Agent.InitPrototypes | scratch/TCPLearning.cc:124-138 | Exactly 50 values are drawn. Prototype `i`'s action is draw `5i` mod 5, and its state component `j` is draw `5i+1+j` mod 10, so all are in range. The previous state becomes all zeros and the previous action 1. |
| KanervaAgent.Agent.DrawPrototype | scratch/TCPLearning.cc:127-132 | One prototype is drawn from five consecutive draws. Only that prototype's action and state row change. |
| KanervaAgent.Agent.UpdateCurrState | scratch/TCPLearning.cc:35-39 | The current state is the next four draws mod 10, and each component is in `[0, 10)`. |
| KanervaAgent.Agent.MembershipGrade | scratch/TCPLearning.cc:42-52 | The result is the membership grade of the given state and action in prototype `p`, at their squared distance. |
| KanervaAgent.Agent.PrevValue | scratch/TCPLearning.cc:65-72 | It returns the grade of the previous pair in every prototype and the previous pair's Q value under the current weights. |
| KanervaAgent.Agent.CurrentQ | scratch/TCPLearning.cc:80-84 | The result is the Q value of the current state with the given action. |
| KanervaAgent.Agent.GreedyAction | scratch/TCPLearning.cc:75-94 | The argmax is an action index whose Q value is at least every action's and strictly above every smaller index's. The maximum is that Q value. |
| KanervaAgent.Agent.UpdateThetas | scratch/TCPLearning.cc:100-103 | Each weight `i` becomes `memberships[i] * lr * delta`, with no trace of its old value. |
| KanervaAgent.Agent.Learn | scratch/TCPLearning.cc:57-103 | The current state is freshly drawn, and the returned action is greedy for it under the old weights. Each weight is overwritten with the previous pair's grade times `lr` times the TD error. The TD error is computed from the old weights. |
| KanervaAgent.Agent.ChooseAction | scratch/TCPLearning.cc:105-110 | The new action is always a valid index. If the first draw over `RAND_MAX` exceeds 0.6, the action is the greedy one and one value is drawn. Otherwise it is a second draw mod 5 and two values are drawn. |
| KanervaAgent.Agent.CopyCurrState | scratch/TCPLearning.cc:111-113 | The previous state equals the current state componentwise. |
| KanervaAgent.Agent.FuzzyKanerva | scratch/TCPLearning.cc:55-115 | A whole learning step. The prototypes are unchanged and the current state is four fresh draws. The weights become the update from the TD error of the old weights. The previous state becomes the current state. The previous action is either the greedy action or a random one, and the number of draws taken is exact in both branches. All entries stay in range. |
| KanervaAgent.Agent.ChangeCwnd | scratch/TCPLearning.cc:117-119 | The window grows by exactly the table entry of the previous action. |
| KanervaAgent.Agent.Ack | scratch/TCPLearning.cc:143-151 | One acknowledgment runs one learning step, then changes the window by the entry of the chosen action. The step takes five draws, or six when it explores. The current state is the first four draws and is copied into the previous state. An explored action is the sixth draw modulo 5. |
| KanervaAgent.Agent.RunAcks | scratch/TCPLearning.cc:142-151 | The five acknowledgments draw in sequence, each starting where the previous one stopped. Each applied action is valid, and an explored one is its step's own draw modulo 5. The window changes by the sum of the table entries of the applied actions, and the final states are the last step's draws. |
| KanervaAgent.RunMain | scratch/TCPLearning.cc:121-154 | The agent uses the given stream and decay. Prototype `i` is built from draws `5i` to `5i+4`. The acknowledgments then draw from position 50 on, as in `RunAcks`. The window is 10 plus the changes of the applied actions, so it lies between 5 and 110, and 75 to 80 values are drawn in total. |

## Left out

- scratch/simple.cc is not part of this model. It holds ns-3 topology set-up, command-line parsing, tracing and flow monitoring.
- The ns-3 `TcpLearning` class (src/internet/model/tcp-learning.cc:51-110 and tcp-learning.h) is not part of this model. It holds type registration, logging, an empty `PktsAcked` and `Fork`, all thin wrappers over framework code.
- The test-suite registration in src/internet/test/tcp-learning-test.cc is not modelled. Only its asserted values are, in `UnitTestTrace`.
- Floating point: samples, weights and Q values are `real`, so `float`/`double` rounding is not modelled. This includes the `(float)` cast in the epsilon-greedy test and the `float` sums of `Avg`.
- KanervaSpec.Membership: `exp(-d / (2 * variance))` is modelled as `decay^d`, where `decay` stands for `exp(-1/2)` and is a constructor parameter assumed only to lie in (0, 1). The numerics of `exp` and `pow` are not modelled.
- The C library generator behind `rand()` is not modelled. The draws are an arbitrary stream of values in `[0, RAND_MAX]`, and `srand(0)` corresponds to choosing that stream.
- C `int` overflow is not modelled. The window, the distances and the draw count are unbounded integers; all stay far below 2^31 here.
- TcpLearning.MovingAvg.constructor: the capacity is a `nat`. A negative `int` size, which makes the source's `resize` fail, is not modelled.
- TcpLearning.MovingAvg.Enqueue: requires a capacity above 0. With capacity 0 the source indexes an empty vector and takes a remainder by zero, both undefined behaviour.
- KanervaAgent.Agent.RunAcks: does not state the weights after each acknowledgment, or which action a greedy step chose, since both depend on that step's weights. `FuzzyKanerva` states both for one step.
- KanervaAgent.Agent.Ack: does not state the learning step's effect on the weights, or which action a greedy step chose. `FuzzyKanerva` states both.
- KanervaAgent.RunMain: like `RunAcks`, does not state the weights or the greedy choices of the acknowledgment loop. It also leaves out the final current and previous state, which `RunAcks` states.
