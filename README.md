# Ben-Or node engine in Dafny

This project models one node of a Ben-Or randomized binary consensus network, as `src/nodes/node.ts` implements it.

Each node holds a mutable state record: `killed`, the current estimate `x` (0, 1 or "?"), `decided` and the round number `k`. A faulty node starts with `x`, `decided` and `k` null. Each node also has a message store: two dictionaries, one per phase, that map a round number to the list of values received for that round, in arrival order.

Three things change this state:

- The `/message` handler appends an inbound vote to its bucket. It does not do this when the node is stopped, and it drops the vote once the node has decided.
- The `/stop` handler sets `killed`.
- The round loop, `benOrConsensus`:
  - increments `k` and broadcasts `x` as the phase-1 vote;
  - waits for N − F non-"?" phase-1 votes;
  - takes a strict majority of N as its estimate (0 tested first, "?" if there is none) and broadcasts it as the phase-2 vote;
  - waits for N − F phase-2 votes of any kind;
  - decides on F + 1 votes for one value (0 tested first);
  - otherwise adopts any concrete value it saw (0 first), or else a coin flip.

The layout follows the program:

- `votes.dfy` (module `Votes`): the three-valued vote and the counting that the source does with `filter(...).length`.
- `rules.dfy` (module `Rules`):
  - the two quorum tests that end the waits;
  - the phase-1 aggregation, `Phase1Next`;
  - the phase-2 rule, `Phase2Decide`;
  - the one-round lemmas: validity, consistency of majorities, agreement after a decision, symmetry, and the inertness of "?".
- `store.dfy` (module `MessageStore`):
  - the message store, as a map from (phase, round) to a bucket;
  - reading a bucket with the source's `? … : []` default;
  - the append of the handler;
  - the fact that the store only grows, and that quorums, once reached, stay reached.
- `engine.dfy` (module `Engine`):
  - the state record;
  - initialisation;
  - one iteration of the round loop, `Iterate`;
  - the loop itself over a sequence of coin values, `Execute`;
  - the inbound-message rule, `Deliver`;
  - the invariant every reachable state keeps.
- `node.dfy` (module `Node`): the class `BenOrNode`, whose fields are the record and the store. Its methods update those fields in place, as the handlers and the loop do. `Receive`, `RoundStep` and `Run` are proved to move the state exactly as `Engine.Deliver`, `Engine.Iterate` and `Engine.Execute` say. `Stop` states its new state directly.

Some modelling choices:

- **Halving.** `count > N / 2` uses JavaScript's real division. The model states it as `2 * count > N`.
- **The coin.** `Math.random() < 0.5` becomes a `coin: bool` parameter, where `true` yields 0. `Run` and `Execute` consume one coin per round entered.
- **The busy waits** (`do … while` with `delay(10)`, node.ts:74-77 and :93-96) become the predicate `Ready`: both buckets of the coming round already meet their quorum.
  - `RoundStep` requires it.
  - `Run` and `Execute` stop before a round that is not ready, which is where the source would still be waiting.
  - `QuorumStable` and `DeliverKeepsReady` show that a wait, once over, stays over.
- **Phase numbers.** In the source, a message whose phase is not 1 or 2 reaches `messages[phase][k]` with `messages[phase]` undefined. The handler then throws before storing anything or replying. The model returns `Failed` and leaves the store unchanged.

## Model

| member | source | states |
|---|---|---|
| Votes.Count | src/nodes/node.ts:79-80 | The number of entries equal to a value, as `filter(v => v == c).length` computes it; it is never more than the bucket's length. |
| Votes.CountNone | src/nodes/node.ts:109-114 | The count of a value is 0 exactly when the value does not occur. This is the `zeroCount > 0` / `oneCount > 0` test used in phase 2. |
| Votes.CountAll | src/nodes/node.ts:98-99 | The count of a value equals the bucket's length exactly when every entry is that value. |
| Votes.KnownCount | src/nodes/node.ts:77 | The number of non-"?" entries that ends the phase-1 wait. It equals the zero count plus the one count, and together with the "?" count it makes up the whole length. |
| Votes.CountIsMultiplicity | src/nodes/node.ts:79-80 | A count is the value's multiplicity in the bucket's multiset, so it does not depend on arrival order. |
| Votes.CountConcat | src/nodes/node.ts:56 | Appending votes adds their counts: the count over `s + t` is the sum of the counts. |
| Votes.CountPrefix | src/nodes/node.ts:53-56 | A bucket that only grew by pushes has at least as many votes of every value as before. |
| Votes.CountSubMultiset | src/nodes/node.ts:79-80 | A snapshot drawn from a pool of votes counts no value more often than the pool does. |
| Votes.CountFlipAll | src/nodes/node.ts:79-80 | Replacing every vote by its opposite keeps the length and exchanges the zero and one counts. |
| Rules.Phase1Quorum | src/nodes/node.ts:77-77 | The phase-1 wait is over once the votes for 0 and for 1 together reach N - F ("?" entries do not count); when N <= F it is over at once. |
| Rules.Phase2Quorum | src/nodes/node.ts:96-96 | The phase-2 wait is over once all entries, "?" included, reach N - F; a bucket that ends the phase-1 wait always ends this one too. |
| Rules.Phase1Next | src/nodes/node.ts:79-87 | The phase-2 vote is a value held by more than N/2 entries, or "?" exactly when neither 0 nor 1 has such a majority. A majority for 0 always gives 0, since 0 is tested first. |
| Rules.Phase2Decide | src/nodes/node.ts:98-118 | The new x is never "?". The node decides exactly when 0 or 1 has at least F + 1 votes, and then on such a value; F + 1 votes for 0 always decide 0. Without a decision, any vote for 0 makes x = 0, and otherwise x is a value that was seen. Only when no concrete vote was seen does the coin choose x. |
| Rules.UnknownVotesInert | src/nodes/node.ts:77-118 | An extra "?" vote lengthens the bucket by one, which counts toward the phase-2 wait. It changes neither the phase-1 quorum test, nor the estimate, nor the phase-2 decision. |
| Rules.Phase2ThresholdExample | src/nodes/node.ts:100-111 | With F = 1, two phase-2 votes for 0 decide 0. A single vote for 0 only makes 0 the next x, undecided. |
| Rules.Phase1Unanimous | src/nodes/node.ts:74-84 | Phase-1 validity. When N > 2F, a quorate snapshot with no concrete vote against v yields v as the estimate. |
| Rules.Phase1Consistent | src/nodes/node.ts:79-87 | Two snapshots of one round's votes, at most N of them, never give different concrete estimates. |
| Rules.Phase1Symmetric | src/nodes/node.ts:79-87 | For at most N votes, testing 0 first favours neither value: flipping every vote flips the estimate. |
| Rules.Phase1ZeroPrecedence | src/nodes/node.ts:79-87 | Messages carry no sender, so a bucket may exceed N entries and both values can pass `> N / 2`. The 0 branch then wins whichever way the votes are flipped. |
| Rules.Phase2CoinOnlyWhenBlank | src/nodes/node.ts:108-117 | The outcome of phase 2 depends on the coin exactly when the bucket holds neither 0 nor 1. |
| Rules.Phase2Unanimous | src/nodes/node.ts:93-107 | Phase-2 validity. When N > 2F, a quorate snapshot in which every vote is v decides v, whatever the coin. |
| Rules.Phase2Agreement | src/nodes/node.ts:93-118 | One-round agreement. The phase-2 votes of a round number at most N, one per node, and never mix 0 and 1. If one node decides from its snapshot, every node with a quorate snapshot of the same votes ends the round with the same x. |
| MessageStore.Append | src/nodes/node.ts:53-56 | The push puts the value at the end of bucket (phase, round), creating the bucket when it is absent. Every other bucket reads as before. The key set gains only that key. The store only grows, and it still holds phases 1 and 2 only. |
| MessageStore.Bucket | src/nodes/node.ts:75-75 | A wait reads the bucket for (phase, round), or the empty list when none exists yet. In a well-formed store, nothing can be read outside phases 1 and 2. |
| MessageStore.Replay | src/nodes/node.ts:53-56 | The store built by pushing every message of a history in order; if every message has phase 1 or 2, the store holds nothing outside those phases. |
| MessageStore.ReplayBucket | src/nodes/node.ts:53-56 | What a snapshot means: after a history of pushes, bucket (phase, round) holds exactly the values received for that phase and round, in arrival order, duplicates included. |
| MessageStore.GrowsBucket | src/nodes/node.ts:74-96 | In a grown store, every snapshot the waits take extends the old one. |
| MessageStore.QuorumStable | src/nodes/node.ts:74-96 | Once a wait's condition holds for a round, it keeps holding however many messages arrive afterwards. |
| Engine.Initial | src/nodes/node.ts:20-25 | A node starts alive and satisfies the state invariant. A live node starts with its initial value, undecided, in round 0; a faulty one with x, decided and k null. |
| Engine.Looping | src/nodes/node.ts:63-63 | `!state.decided` treats null as false: a faulty node, whose decided is null, never leaves the loop here (the guard returns instead); a live node loops exactly while decided is false. |
| Engine.Enters | src/nodes/node.ts:64-66 | The guard at the top of a round: for a state satisfying the invariant, the round is entered exactly when the node is not faulty and not killed. |
| Engine.Ready | src/nodes/node.ts:74-96 | The waits of the coming round are over. A node that will not enter a round, or a network with N <= F, is always ready. |
| Engine.Iterate | src/nodes/node.ts:63-118 | A node that has decided, or whose top-of-round guard returns, neither changes nor sends. An entered round keeps `killed`, sets k to k + 1 and broadcasts two messages. Its new x is the one `Phase2Decide` gives for bucket (2, k + 1), and the loop ends exactly when that rule decides; otherwise `decided` is unchanged. |
| Engine.IterateVotes | src/nodes/node.ts:68-107 | An entered round broadcasts (1, k+1, x) and then (2, k+1, estimate). It ends the loop only on F + 1 phase-2 votes of round k+1 for the new x. |
| Engine.IteratePreservesInvariant | src/nodes/node.ts:63-118 | A round keeps the state invariant: faulty stays null; otherwise all fields are set, k ≥ 0, and a decided x is concrete. |
| Engine.Execute | src/nodes/node.ts:62-120 | The loop runs at most one round per coin and sends two messages per round. If no round is entered, the state is unchanged. After r > 0 rounds, k has grown by exactly r, `killed` is as before and x is concrete. |
| Engine.ExecuteIdle | src/nodes/node.ts:63-66 | A decided, faulty or killed node, or one without k or x, runs no round and sends nothing. |
| Engine.ExecuteStep | src/nodes/node.ts:63-119 | A run that enters a round is that round followed by the run from the round's new state. |
| Engine.ExecuteStops | src/nodes/node.ts:62-120 | A run that uses fewer rounds than it has coins stopped where the loop stops: the node decided, the guard returned, or the next round's waits are not over. |
| Engine.ExecutePreservesInvariant | src/nodes/node.ts:20-120 | Every state the loop reaches satisfies the state invariant. |
| Engine.ExecuteDecidesOnEvidence | src/nodes/node.ts:100-107 | A run that ends decided has entered a round, and the final x has F + 1 phase-2 votes in the final round's bucket. A run that ends undecided leaves `decided` as it was. |
| Engine.DecisionIsFinal | src/nodes/node.ts:63 | After a decision, any later run changes nothing and sends nothing. |
| Engine.UnanimousRoundDecides | src/nodes/node.ts:20-120 | With N = 4, F = 0 and four votes for 1 in both buckets of round 1, a node starting at 1 ends round 1 with x = 1 decided, whatever its coin. |
| Engine.Deliver | src/nodes/node.ts:41-60 | A killed node replies "stopped" and stores nothing. A decided node replies "received" and stores nothing. Otherwise a phase-1 or phase-2 value is appended to bucket (phase, k), and any other phase fails with nothing stored. The store only grows and keeps its shape. |
| Engine.DeliverKeepsReady | src/nodes/node.ts:41-96 | A message arriving never puts back a wait that was already over. |
| Node.BenOrNode.constructor | src/nodes/node.ts:20-27 | The fields hold the initial record, and the store is empty. |
| Node.BenOrNode.Receive | src/nodes/node.ts:41-60 | The in-place handler leaves the store and reply that `Deliver` gives for the old state. The store only grew, and the invariant holds. |
| Node.BenOrNode.Stop | src/nodes/node.ts:158-161 | Sets `killed` and nothing else; on a stopped node it changes nothing. |
| Node.BenOrNode.RoundStep | src/nodes/node.ts:63-118 | The in-place iteration changes x, decided and k exactly as `Iterate` does and returns its broadcasts. The invariant holds. |
| Node.BenOrNode.Run | src/nodes/node.ts:62-120 | The in-place loop ends in the state `Execute` gives and returns every broadcast in order. The invariant holds. |

## Left out

- The HTTP layer is not modelled: the routes `/status` and `/start`, `/getState` beyond the record itself, the status codes and texts, `listen`, and `nodesAreReady`/`setNodeIsReady`. These are I/O.
- `sendMessage` and `fetch` are replaced by the list of messages each round returns. Delivery to the N nodes, and lost deliveries, are network behaviour.
- The busy waits are not modelled as waiting. A round is taken only once its waits are over (`Ready`), and a run stops before a round that would still be waiting. The waits never end when too few votes arrive, and that is not modelled. The source increments k and broadcasts (1, k, x) before the phase-1 wait, and broadcasts (2, k, estimate) before the phase-2 wait. So a node blocked inside a wait already shows the new k and has already sent those votes. `Execute` and `Run` instead end before that round, with the old k and without those broadcasts.
- Interleaving is not modelled. In the source, messages can arrive between the phase-1 wait and the phase-2 wait, and `/stop` can happen in the middle of a round. A round here reads one store and checks `killed` only at its top, as the source's loop does.
- `Math.random` is replaced by a coin parameter.
- Agreement, validity and termination across nodes are not modelled as whole-network theorems. Only the one-round counting lemmas are proved.
- The node's id, its port and the `console.log` calls are left out.
- When the handler throws on an unexpected phase, the request gets no reply. What then happens to the process is not modelled: the reply is `Failed` and the store is unchanged.
- JavaScript numbers are not modelled. Rounds are `int`, and N and F are `nat`. Non-integer or non-numeric `k` and `value` fields in a message body are not represented.
