/** One Ben-Or node as the source keeps it: a mutable state record and a
    mutable message store, updated in place by the `/message` handler, by
    `/stop` and by the round loop of `benOrConsensus` (src/nodes/node.ts). */
module Node {
  import opened Votes
  import opened Rules
  import opened MessageStore
  import opened Engine

  /** The broadcasts of a run regroup as the ones sent so far, then this
      round's, then the rest of the run's: the step `Run` takes per round. */
  lemma SentRegrouped(sent: seq<Message>, round: seq<Message>, rest: seq<Message>)
    ensures (sent + round) + rest == sent + (round + rest)
  {
  }

  class BenOrNode {
    /** N, the number of nodes in the network. */
    const n: nat
    /** F, the number of faulty nodes the network tolerates. */
    const f: nat
    const isFaulty: bool

    var killed: bool
    var x: Option<Value>
    var decided: Option<bool>
    var k: Option<int>
    /** `messages`, the store the handler appends to and the engine reads. */
    var messages: Store

    /** The state record, as `/getState` returns it. */
    function State(): NodeState
      reads this
    {
      NodeState(killed, x, decided, k)
    }

    ghost predicate Valid()
      reads this
    {
      Invariant(State(), isFaulty) && WellFormed(messages)
    }

    /** The node's start (node.ts:20-27): its record and an empty store. */
    constructor (n: nat, f: nat, initialValue: Value, isFaulty: bool)
      ensures Valid()
      ensures this.n == n && this.f == f && this.isFaulty == isFaulty
      ensures State() == Initial(initialValue, isFaulty) && messages == map[]
    {
      this.n, this.f, this.isFaulty := n, f, isFaulty;
      killed := false;
      x := if isFaulty then None else Some(initialValue);
      decided := if isFaulty then None else Some(false);
      k := if isFaulty then None else Some(0);
      messages := map[];
    }

    /** The `/message` handler. */
    method Receive(m: Message) returns (reply: Reply)
      requires Valid()
      modifies this`messages
      ensures Valid()
      ensures Delivery(messages, reply) == Deliver(old(State()), old(messages), m)
      ensures Grows(old(messages), messages)
    {
      if killed {
        reply := Stopped;
      } else {
        if decided != Some(true) {
          if m.phase == 1 || m.phase == 2 {
            var key := (m.phase, m.round);
            if key !in messages {
              messages := messages[key := []];
            }
            messages := messages[key := messages[key] + [m.value]];
            reply := Received;
          } else {
            reply := Failed;
          }
        } else {
          reply := Received;
        }
      }
      assert messages == Deliver(old(State()), old(messages), m).store;
    }

    /** The `/stop` handler: the only cancellation signal. Stopping a stopped
        node changes nothing. */
    method Stop()
      requires Valid()
      modifies this`killed
      ensures Valid()
      ensures killed && State() == old(State()).(killed := true)
      ensures old(killed) ==> State() == old(State())
    {
      killed := true;
    }

    /** One iteration of the round loop of `benOrConsensus`, once the waits of
        the round are over; returns the messages it broadcast. */
    method RoundStep(coin: bool) returns (sent: seq<Message>)
      requires Valid() && Ready(State(), isFaulty, n, f, messages)
      modifies this`x, this`decided, this`k
      ensures Valid()
      ensures State() == Iterate(old(State()), isFaulty, n, f, messages, coin).next
      ensures sent == Iterate(old(State()), isFaulty, n, f, messages, coin).sent
    {
      if decided == Some(true) {
        return [];
      }
      if isFaulty || killed || k.None? || x.None? {
        return [];
      }
      k := Some(k.value + 1);
      sent := [Message(1, k.value, x.value)];
      var estimate := Phase1Next(Bucket(messages, 1, k.value), n);
      sent := sent + [Message(2, k.value, estimate)];
      var d := Phase2Decide(Bucket(messages, 2, k.value), f, coin);
      x := Some(d.x);
      if d.decided {
        decided := Some(true);
      }
    }

    /** The round loop of `benOrConsensus`, one coin per round, over the store
        as it stands. It ends where the source's loop ends (decided, or the
        guard at the top of a round fails), or before a round whose waits are
        not over yet, or when the coins run out. */
    method Run(coins: seq<bool>) returns (sent: seq<Message>)
      requires Valid()
      modifies this`x, this`decided, this`k
      ensures Valid()
      ensures var t := Execute(old(State()), isFaulty, n, f, messages, coins);
              State() == t.final && sent == t.sent
    {
      ghost var whole := Execute(State(), isFaulty, n, f, messages, coins);
      ghost var rest := whole;
      sent := [];
      var i := 0;
      while Looping(State()) && Enters(State(), isFaulty) && i < |coins|
            && Ready(State(), isFaulty, n, f, messages)
        invariant Valid()
        invariant 0 <= i <= |coins|
        invariant rest == Execute(State(), isFaulty, n, f, messages, coins[i..])
        invariant whole.final == rest.final && whole.sent == sent + rest.sent
        decreases |coins| - i
      {
        ghost var r := Iterate(State(), isFaulty, n, f, messages, coins[i]);
        ExecuteStep(State(), isFaulty, n, f, messages, coins[i..]);
        assert coins[i..][1..] == coins[i + 1..];
        ghost var rest' := Execute(r.next, isFaulty, n, f, messages, coins[i + 1..]);
        var out := RoundStep(coins[i]);
        SentRegrouped(sent, out, rest'.sent);
        sent := sent + out;
        i := i + 1;
        rest := rest';
      }
    }
  }
}
