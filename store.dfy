/** The node's message store (src/nodes/node.ts:27, 53-56): received votes,
    keyed by phase and round, each bucket in arrival order. The source nests
    two dictionaries, `{1: {}, 2: {}}`; here the key is the pair (phase, round). */
module MessageStore {
  import opened Votes
  import opened Rules

  /** `{ phase, k, value }`, the body of every protocol message. No sender. */
  datatype Message = Message(phase: int, round: int, value: Value)

  type Store = map<(int, int), seq<Value>>

  /** Only the two dictionaries the source creates can hold buckets. */
  ghost predicate WellFormed(store: Store) {
    forall key :: key in store ==> key.0 == 1 || key.0 == 2
  }

  /** The snapshot the engine reads: the bucket, or [] when none exists yet.
      A well-formed store has nothing to read outside phases 1 and 2. */
  function Bucket(store: Store, phase: int, round: int): (r: seq<Value>)
    ensures WellFormed(store) && phase != 1 && phase != 2 ==> r == []
  {
    if (phase, round) in store then store[(phase, round)] else []
  }

  /** Every bucket of `store` is still there in `store'`, possibly longer. */
  ghost predicate Grows(store: Store, store': Store) {
    forall key :: key in store ==> key in store' && store[key] <= store'[key]
  }

  /** Record v at the end of bucket (phase, round), creating it when absent. */
  function Append(store: Store, phase: int, round: int, v: Value): (r: Store)
    ensures Bucket(r, phase, round) == Bucket(store, phase, round) + [v]
    ensures r.Keys == store.Keys + {(phase, round)}
    ensures forall p, q :: (p, q) != (phase, round) ==> Bucket(r, p, q) == Bucket(store, p, q)
    ensures Grows(store, r)
    ensures WellFormed(store) && (phase == 1 || phase == 2) ==> WellFormed(r)
  {
    store[(phase, round) := Bucket(store, phase, round) + [v]]
  }

  /** A grown store reads every bucket as an extension of the old one. */
  lemma GrowsBucket(store: Store, store': Store, phase: int, round: int)
    requires Grows(store, store')
    ensures Bucket(store, phase, round) <= Bucket(store', phase, round)
  {
  }

  /** Once a wait's predicate holds for a bucket it keeps holding however
      many messages arrive later: the busy waits of node.ts:74-77 and
      :93-96 can only end, never be undone. */
  lemma QuorumStable(store: Store, store': Store, round: int, n: nat, f: nat)
    requires Grows(store, store')
    ensures Phase1Quorum(Bucket(store, 1, round), n, f) ==> Phase1Quorum(Bucket(store', 1, round), n, f)
    ensures Phase2Quorum(Bucket(store, 2, round), n, f) ==> Phase2Quorum(Bucket(store', 2, round), n, f)
  {
    var b1, b1' := Bucket(store, 1, round), Bucket(store', 1, round);
    GrowsBucket(store, store', 1, round);
    GrowsBucket(store, store', 2, round);
    CountPrefix(b1, b1', Zero);
    CountPrefix(b1, b1', One);
  }

  /** The store built by appending every message of a history, in order. */
  function Replay(history: seq<Message>): (r: Store)
    ensures (forall i :: 0 <= i < |history| ==> history[i].phase == 1 || history[i].phase == 2) ==> WellFormed(r)
    decreases |history|
  {
    if history == [] then map[]
    else
      var last := history[|history| - 1];
      Append(Replay(history[..|history| - 1]), last.phase, last.round, last.value)
  }

  /** The values of the messages for (phase, round) in a history, in arrival
      order, duplicates included. */
  function Received(history: seq<Message>, phase: int, round: int): (r: seq<Value>)
    ensures |r| <= |history|
    decreases |history|
  {
    if history == [] then []
    else
      var last := history[|history| - 1];
      Received(history[..|history| - 1], phase, round)
        + (if last.phase == phase && last.round == round then [last.value] else [])
  }

  /** What a snapshot means: after a history of appends, bucket (phase, round)
      holds exactly the values received for that phase and round, in the
      order they arrived, duplicates included. */
  lemma {:induction false} ReplayBucket(history: seq<Message>, phase: int, round: int)
    ensures Bucket(Replay(history), phase, round) == Received(history, phase, round)
    decreases |history|
  {
    if history != [] {
      ReplayBucket(history[..|history| - 1], phase, round);
    }
  }
}
