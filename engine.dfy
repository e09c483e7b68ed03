/** The per-node Ben-Or engine as functions over values: the state record
    and its initialisation (src/nodes/node.ts:20-25), the inbound-message
    rule of the `/message` handler (:41-60), one iteration of the round loop
    of `benOrConsensus` (:63-118) and the loop itself (:62-120). The class in
    node.dfy runs these steps in place. */
module Engine {
  import opened Votes
  import opened Rules
  import opened MessageStore

  datatype Option<T> = None | Some(value: T)

  /** The record `getState` returns; a `null` field is None. */
  datatype NodeState = NodeState(killed: bool, x: Option<Value>, decided: Option<bool>, k: Option<int>)

  /** What every state of a node satisfies: a faulty node keeps x, decided
      and k null; a live one has all three, a round number that never went
      below 0, and a concrete x once it has decided. */
  predicate Invariant(s: NodeState, isFaulty: bool) {
    if isFaulty then s.x == None && s.decided == None && s.k == None
    else
      && s.x.Some? && s.decided.Some? && s.k.Some? && s.k.value >= 0
      && (s.decided.value ==> s.x.value != Unknown)
  }

  /** A node starts alive and satisfies the invariant; a faulty node starts
      with x, decided and k null, a live one with its initial value, undecided,
      in round 0. */
  function Initial(initialValue: Value, isFaulty: bool): (s: NodeState)
    ensures !s.killed && Invariant(s, isFaulty)
    ensures !isFaulty ==> s.x == Some(initialValue) && s.decided == Some(false) && s.k == Some(0)
  {
    NodeState(false,
              if isFaulty then None else Some(initialValue),
              if isFaulty then None else Some(false),
              if isFaulty then None else Some(0))
  }

  /** The loop condition `!state.decided`: both null and false keep looping. */
  predicate Looping(s: NodeState): (b: bool)
    ensures Invariant(s, true) ==> b
    ensures Invariant(s, false) ==> (b <==> !s.decided.value)
  {
    !(s.decided.Some? && s.decided.value)
  }

  /** The guard at the top of a round lets it through (the engine does not
      return): the node is not faulty, not killed, and has k and x. */
  predicate Enters(s: NodeState, isFaulty: bool): (b: bool)
    ensures Invariant(s, isFaulty) ==> (b <==> !isFaulty && !s.killed)
  {
    !isFaulty && !s.killed && s.k.Some? && s.x.Some?
  }

  /** The two waits of the round the node is about to enter are already over:
      buckets (1, k + 1) and (2, k + 1) meet their quorums. Nothing is asked
      of a node that will not enter a round. */
  predicate Ready(s: NodeState, isFaulty: bool, n: nat, f: nat, store: Store): (b: bool)
    ensures !Looping(s) || !Enters(s, isFaulty) || n <= f ==> b
  {
    Looping(s) && Enters(s, isFaulty) ==>
      && Phase1Quorum(Bucket(store, 1, s.k.value + 1), n, f)
      && Phase2Quorum(Bucket(store, 2, s.k.value + 1), n, f)
  }

  /** One pass of the round loop: the new state and the broadcasts it made. */
  datatype Round = Round(next: NodeState, sent: seq<Message>)

  /** One iteration of `while (!state.decided) { ... }` over the store as it
      stands once both waits are over. The loop goes round again exactly
      when the new state is still `Looping`. */
  function Iterate(s: NodeState, isFaulty: bool, n: nat, f: nat, store: Store, coin: bool): (r: Round)
    requires Ready(s, isFaulty, n, f, store)
    ensures !Looping(s) || !Enters(s, isFaulty) ==> r == Round(s, [])
    ensures Looping(s) && Enters(s, isFaulty) ==>
      && r.next.killed == s.killed
      && r.next.k == Some(s.k.value + 1)
      && r.next.x.Some? && r.next.x.value != Unknown
      && |r.sent| == 2
      && (Looping(r.next) ==> r.next.decided == s.decided)
    ensures Looping(s) && Enters(s, isFaulty) ==>
      var d := Phase2Decide(Bucket(store, 2, s.k.value + 1), f, coin);
      r.next.x == Some(d.x) && (!Looping(r.next) <==> d.decided)
  {
    if !Looping(s) || !Enters(s, isFaulty) then Round(s, [])
    else
      var k := s.k.value + 1;
      var estimate := Phase1Next(Bucket(store, 1, k), n);
      var d := Phase2Decide(Bucket(store, 2, k), f, coin);
      Round(NodeState(s.killed, Some(d.x), if d.decided then Some(true) else s.decided, Some(k)),
            [Message(1, k, s.x.value), Message(2, k, estimate)])
  }

  /** An entered round broadcasts x as its phase-1 vote and the phase-1
      estimate as its phase-2 vote, both tagged with the new round number, and
      it ends the loop only on F + 1 phase-2 votes for the new x. */
  lemma IterateVotes(s: NodeState, isFaulty: bool, n: nat, f: nat, store: Store, coin: bool)
    requires Ready(s, isFaulty, n, f, store) && Looping(s) && Enters(s, isFaulty)
    ensures var r := Iterate(s, isFaulty, n, f, store, coin);
            var k := s.k.value + 1;
            && r.sent == [Message(1, k, s.x.value), Message(2, k, Phase1Next(Bucket(store, 1, k), n))]
            && (!Looping(r.next) ==> Decisive(Bucket(store, 2, k), r.next.x.value, f))
  {
  }

  lemma IteratePreservesInvariant(s: NodeState, isFaulty: bool, n: nat, f: nat, store: Store, coin: bool)
    requires Ready(s, isFaulty, n, f, store) && Invariant(s, isFaulty)
    ensures Invariant(Iterate(s, isFaulty, n, f, store, coin).next, isFaulty)
  {
  }

  /** What a run of the round loop leaves: the final state, every broadcast
      in order, and the number of rounds entered. */
  datatype Trace = Trace(final: NodeState, sent: seq<Message>, rounds: nat)

  /** The round loop, one coin per round. The run ends where the source's
      loop ends (decided, or the guard returns), and also before a round whose
      waits are not over yet (the source would be blocked there) or when the
      coins run out: it is a prefix of the engine's execution. */
  function Execute(s: NodeState, isFaulty: bool, n: nat, f: nat, store: Store, coins: seq<bool>): (t: Trace)
    ensures t.rounds <= |coins|
    ensures |t.sent| == 2 * t.rounds
    ensures t.rounds == 0 ==> t.final == s
    ensures t.rounds > 0 ==>
      && s.k.Some? && t.final.k == Some(s.k.value + t.rounds)
      && t.final.killed == s.killed
      && t.final.x.Some? && t.final.x.value != Unknown
    decreases |coins|
  {
    if coins == [] || !Looping(s) || !Enters(s, isFaulty) || !Ready(s, isFaulty, n, f, store) then
      Trace(s, [], 0)
    else
      var r := Iterate(s, isFaulty, n, f, store, coins[0]);
      var t := Execute(r.next, isFaulty, n, f, store, coins[1..]);
      Trace(t.final, r.sent + t.sent, t.rounds + 1)
  }

  /** A run ends only where the loop ends: on a decision or at the guard,
      before a round whose waits are not over, or when the coins run out. */
  lemma {:induction false} ExecuteStops(s: NodeState, isFaulty: bool, n: nat, f: nat,
                                        store: Store, coins: seq<bool>)
    ensures var t := Execute(s, isFaulty, n, f, store, coins);
            t.rounds < |coins| ==>
              !Looping(t.final) || !Enters(t.final, isFaulty) || !Ready(t.final, isFaulty, n, f, store)
    decreases |coins|
  {
    if coins != [] && Looping(s) && Enters(s, isFaulty) && Ready(s, isFaulty, n, f, store) {
      var r := Iterate(s, isFaulty, n, f, store, coins[0]);
      ExecuteStops(r.next, isFaulty, n, f, store, coins[1..]);
    }
  }

  /** A node that is decided, faulty, killed or without x or k runs no round:
      nothing changes and nothing is sent. */
  lemma ExecuteIdle(s: NodeState, isFaulty: bool, n: nat, f: nat, store: Store, coins: seq<bool>)
    requires !Looping(s) || !Enters(s, isFaulty)
    ensures Execute(s, isFaulty, n, f, store, coins) == Trace(s, [], 0)
  {
  }

  /** One turn of the loop: a run that enters a round is that round followed
      by the run from the round's new state on the remaining coins. */
  lemma ExecuteStep(s: NodeState, isFaulty: bool, n: nat, f: nat, store: Store, coins: seq<bool>)
    requires coins != [] && Looping(s) && Enters(s, isFaulty) && Ready(s, isFaulty, n, f, store)
    ensures var r := Iterate(s, isFaulty, n, f, store, coins[0]);
            var rest := Execute(r.next, isFaulty, n, f, store, coins[1..]);
            && Execute(s, isFaulty, n, f, store, coins).final == rest.final
            && Execute(s, isFaulty, n, f, store, coins).sent == r.sent + rest.sent
  {
  }

  /** Every state a run reaches satisfies the invariant. */
  lemma {:induction false} ExecutePreservesInvariant(s: NodeState, isFaulty: bool, n: nat, f: nat,
                                                     store: Store, coins: seq<bool>)
    requires Invariant(s, isFaulty)
    ensures Invariant(Execute(s, isFaulty, n, f, store, coins).final, isFaulty)
    decreases |coins|
  {
    if coins != [] && Looping(s) && Enters(s, isFaulty) && Ready(s, isFaulty, n, f, store) {
      var r := Iterate(s, isFaulty, n, f, store, coins[0]);
      IteratePreservesInvariant(s, isFaulty, n, f, store, coins[0]);
      ExecutePreservesInvariant(r.next, isFaulty, n, f, store, coins[1..]);
    }
  }

  /** A run that decides does so in its last round, on F + 1 phase-2 votes
      for the decided value in that round's bucket; a run that does not
      decide leaves `decided` as it was. */
  lemma {:induction false} ExecuteDecidesOnEvidence(s: NodeState, isFaulty: bool, n: nat, f: nat,
                                                    store: Store, coins: seq<bool>)
    requires Looping(s)
    ensures var t := Execute(s, isFaulty, n, f, store, coins);
            if t.final.decided == Some(true)
            then t.rounds > 0 && Decisive(Bucket(store, 2, t.final.k.value), t.final.x.value, f)
            else t.final.decided == s.decided
    decreases |coins|
  {
    if coins != [] && Looping(s) && Enters(s, isFaulty) && Ready(s, isFaulty, n, f, store) {
      var r := Iterate(s, isFaulty, n, f, store, coins[0]);
      IterateVotes(s, isFaulty, n, f, store, coins[0]);
      if Looping(r.next) {
        ExecuteDecidesOnEvidence(r.next, isFaulty, n, f, store, coins[1..]);
      } else {
        ExecuteIdle(r.next, isFaulty, n, f, store, coins[1..]);
      }
    }
  }

  /** Once decided, a node's later runs change nothing and send nothing. */
  lemma DecisionIsFinal(s: NodeState, isFaulty: bool, n: nat, f: nat, store: Store,
                        coins: seq<bool>, later: seq<bool>)
    ensures var t := Execute(s, isFaulty, n, f, store, coins);
            t.final.decided == Some(true) ==>
              Execute(t.final, isFaulty, n, f, store, later) == Trace(t.final, [], 0)
  {
    var t := Execute(s, isFaulty, n, f, store, coins);
    if t.final.decided == Some(true) {
      ExecuteIdle(t.final, isFaulty, n, f, store, later);
    }
  }

  /** N = 4, F = 0, every node starting with 1: once the four votes of round 1
      are in, a live node decides 1 in that round whatever its coin. */
  lemma UnanimousRoundDecides(coin: bool)
    ensures var votes := [One, One, One, One];
            var store := map[(1, 1) := votes, (2, 1) := votes];
            var s := Initial(One, false);
            Execute(s, false, 4, 0, store, [coin]).final == NodeState(false, Some(One), Some(true), Some(1))
  {
    var votes := [One, One, One, One];
    var store := map[(1, 1) := votes, (2, 1) := votes];
    var s := Initial(One, false);
    assert Bucket(store, 1, 1) == votes && Bucket(store, 2, 1) == votes;
    assert Count(votes, One) == 4 && Count(votes, Zero) == 0;
    assert KnownCount(votes) == 4;
    Phase1Unanimous(votes, 4, 0, One);
    Phase2Unanimous(votes, 4, 0, One, coin);
    ExecuteStep(s, false, 4, 0, store, [coin]);
    var r := Iterate(s, false, 4, 0, store, coin);
    assert r.next == NodeState(false, Some(One), Some(true), Some(1));
    ExecuteIdle(r.next, false, 4, 0, store, []);
  }

  /** The reply of the `/message` handler: 400 "Node is stopped", 200
      "Message received", or Failed when the handler raises before replying
      (a phase other than 1 or 2 has no dictionary in the store). */
  datatype Reply = Stopped | Received | Failed

  datatype Delivery = Delivery(store: Store, reply: Reply)

  /** The inbound-message rule: a killed node refuses the message, a decided
      node acknowledges and drops it; otherwise its value goes at the end of
      bucket (phase, k). */
  function Deliver(s: NodeState, store: Store, m: Message): (d: Delivery)
    ensures s.killed ==> d == Delivery(store, Stopped)
    ensures !s.killed && !Looping(s) ==> d == Delivery(store, Received)
    ensures !s.killed && Looping(s) && (m.phase == 1 || m.phase == 2) ==>
              d == Delivery(Append(store, m.phase, m.round, m.value), Received)
    ensures !s.killed && Looping(s) && m.phase != 1 && m.phase != 2 ==> d == Delivery(store, Failed)
    ensures Grows(store, d.store)
    ensures WellFormed(store) ==> WellFormed(d.store)
  {
    if s.killed then Delivery(store, Stopped)
    else if !Looping(s) then Delivery(store, Received)
    else if m.phase == 1 || m.phase == 2 then
      Delivery(Append(store, m.phase, m.round, m.value), Received)
    else Delivery(store, Failed)
  }

  /** A message arriving never undoes the readiness of a round. */
  lemma DeliverKeepsReady(s: NodeState, isFaulty: bool, n: nat, f: nat, store: Store, m: Message)
    requires Ready(s, isFaulty, n, f, store)
    ensures Ready(s, isFaulty, n, f, Deliver(s, store, m).store)
  {
    if Looping(s) && Enters(s, isFaulty) {
      QuorumStable(store, Deliver(s, store, m).store, s.k.value + 1, n, f);
    }
  }
}
