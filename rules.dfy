/** The pure threshold arithmetic of one Ben-Or round (src/nodes/node.ts:74-117):
    the two quorum tests that end the waits, the phase-1 aggregation and the
    phase-2 decision rule. N is the number of nodes and F the number of faulty
    ones; both are counts, hence `nat`. */
module Rules {
  import opened Votes

  /** The phase-1 wait ends once the bucket holds N - F votes other than "?";
      the "?" entries stay in the snapshot but do not count. */
  predicate Phase1Quorum(bucket: seq<Value>, n: nat, f: nat): (b: bool)
    ensures b <==> Count(bucket, Zero) + Count(bucket, One) >= n - f
    ensures n <= f ==> b
  {
    KnownCount(bucket) >= n - f
  }

  /** The phase-2 wait ends once the bucket holds N - F entries of any value. */
  predicate Phase2Quorum(bucket: seq<Value>, n: nat, f: nat): (b: bool)
    ensures b <==> KnownCount(bucket) + Count(bucket, Unknown) >= n - f
    ensures Phase1Quorum(bucket, n, f) ==> b
  {
    |bucket| >= n - f
  }

  /** `count > N / 2` where `/` is real division: twice the count exceeds N. */
  predicate Majority(bucket: seq<Value>, v: Value, n: nat) {
    2 * Count(bucket, v) > n
  }

  /** The estimate voted in phase 2: a value held by a strict majority of N,
      Zero tested first, and "?" when neither has one. */
  function Phase1Next(bucket: seq<Value>, n: nat): (r: Value)
    ensures r != Unknown ==> Majority(bucket, r, n)
    ensures Majority(bucket, Zero, n) ==> r == Zero
    ensures r == Unknown <==> !Majority(bucket, Zero, n) && !Majority(bucket, One, n)
  {
    if Majority(bucket, Zero, n) then Zero
    else if Majority(bucket, One, n) then One
    else Unknown
  }

  /** The state a phase-2 snapshot leaves the node in. */
  datatype Decision = Decision(x: Value, decided: bool)

  /** F + 1 phase-2 votes for v: enough to decide v. */
  predicate Decisive(bucket: seq<Value>, v: Value, f: nat) {
    Count(bucket, v) >= f + 1
  }

  /** The phase-2 rule. `coin` stands for `Math.random() < 0.5`: true gives 0. */
  function Phase2Decide(bucket: seq<Value>, f: nat, coin: bool): (d: Decision)
    ensures d.x != Unknown
    ensures d.decided <==> Decisive(bucket, Zero, f) || Decisive(bucket, One, f)
    ensures d.decided ==> Decisive(bucket, d.x, f)
    ensures Count(bucket, Zero) > 0 || Count(bucket, One) > 0 ==> Count(bucket, d.x) > 0
    ensures Count(bucket, Zero) == 0 && Count(bucket, One) == 0 ==> d.x == (if coin then Zero else One)
    ensures Decisive(bucket, Zero, f) ==> d == Decision(Zero, true)
    ensures !Decisive(bucket, Zero, f) && !Decisive(bucket, One, f) && Count(bucket, Zero) > 0 ==>
              d == Decision(Zero, false)
  {
    if Decisive(bucket, Zero, f) then Decision(Zero, true)
    else if Decisive(bucket, One, f) then Decision(One, true)
    else if Count(bucket, Zero) > 0 then Decision(Zero, false)
    else if Count(bucket, One) > 0 then Decision(One, false)
    else Decision(if coin then Zero else One, false)
  }

  /** A "?" vote is kept in the snapshot and counts toward the phase-2 wait,
      but changes neither the phase-1 wait, nor the estimate, nor the
      phase-2 decision. */
  lemma UnknownVotesInert(bucket: seq<Value>, n: nat, f: nat, coin: bool)
    ensures var b := bucket + [Unknown];
            && (Phase1Quorum(b, n, f) <==> Phase1Quorum(bucket, n, f))
            && Phase1Next(b, n) == Phase1Next(bucket, n)
            && Phase2Decide(b, f, coin) == Phase2Decide(bucket, f, coin)
            && |b| == |bucket| + 1
  {
    var b := bucket + [Unknown];
    CountConcat(bucket, [Unknown], Zero);
    CountConcat(bucket, [Unknown], One);
    assert Count([Unknown], Zero) == 0 && Count([Unknown], One) == 0;
  }

  /** The threshold at N = 4, F = 1: two phase-2 votes for 0 are F + 1, and
      the node decides 0 in that round rather than only adopting it. */
  lemma Phase2ThresholdExample(coin: bool)
    ensures Phase2Decide([Zero, Zero, Unknown], 1, coin) == Decision(Zero, true)
    ensures Phase2Decide([Zero, Unknown, Unknown], 1, coin) == Decision(Zero, false)
  {
    assert Count([Zero, Zero, Unknown], Zero) == 2;
    assert Count([Zero, Unknown, Unknown], Zero) == 1;
  }

  /** Validity of phase 1: when no concrete vote in a quorate snapshot
      disagrees with v and N > 2F, the node carries v into phase 2. */
  lemma Phase1Unanimous(bucket: seq<Value>, n: nat, f: nat, v: Value)
    requires v != Unknown && Flip(v) !in bucket
    requires Phase1Quorum(bucket, n, f) && n > 2 * f
    ensures Phase1Next(bucket, n) == v
  {
    CountNone(bucket, Flip(v));
    assert Count(bucket, v) == KnownCount(bucket) by {
      if v == Zero { assert Flip(v) == One; } else { assert Flip(v) == Zero; }
    }
  }

  /** Two phase-1 snapshots drawn from the same round's votes, at most one
      per node, never yield different concrete estimates: a strict majority
      is unique. This is why phase-2 votes of one round agree. */
  lemma Phase1Consistent(a: seq<Value>, b: seq<Value>, votes: seq<Value>, n: nat)
    requires |votes| <= n
    requires multiset(a) <= multiset(votes) && multiset(b) <= multiset(votes)
    ensures Phase1Next(a, n) == Unknown || Phase1Next(b, n) == Unknown
            || Phase1Next(a, n) == Phase1Next(b, n)
  {
    CountSubMultiset(a, votes, Zero);
    CountSubMultiset(a, votes, One);
    CountSubMultiset(b, votes, Zero);
    CountSubMultiset(b, votes, One);
    assert Count(votes, Zero) + Count(votes, One) <= |votes| by {
      assert KnownCount(votes) + Count(votes, Unknown) == |votes|;
    }
  }

  /** With at most N entries, only one value can hold a strict majority, so
      testing Zero first favours neither value: flipping every vote flips
      the estimate. */
  lemma Phase1Symmetric(bucket: seq<Value>, n: nat)
    requires |bucket| <= n
    ensures Phase1Next(FlipAll(bucket), n) == Flip(Phase1Next(bucket, n))
  {
    CountFlipAll(bucket, Zero);
    CountFlipAll(bucket, One);
    assert Count(bucket, Zero) + Count(bucket, One) <= |bucket| by {
      assert KnownCount(bucket) + Count(bucket, Unknown) == |bucket|;
    }
  }

  /** Messages carry no sender, so a bucket may hold more than N entries; then
      both values can hold a "majority" and the Zero test wins either way. */
  lemma Phase1ZeroPrecedence()
    ensures var b := [Zero, Zero, Zero, One, One, One];
            Phase1Next(b, 4) == Zero && Phase1Next(FlipAll(b), 4) == Zero
  {
    var b := [Zero, Zero, Zero, One, One, One];
    assert Count(b, Zero) == 3 && Count(b, One) == 3;
    CountFlipAll(b, Zero);
    CountFlipAll(b, One);
  }

  /** The coin is consulted exactly when phase 2 saw no concrete vote. */
  lemma Phase2CoinOnlyWhenBlank(bucket: seq<Value>, f: nat)
    ensures Phase2Decide(bucket, f, true) == Phase2Decide(bucket, f, false)
            <==> Zero in bucket || One in bucket
  {
    CountNone(bucket, Zero);
    CountNone(bucket, One);
  }

  /** Validity of phase 2: a quorate snapshot in which every entry is v
      decides v when N > 2F. */
  lemma Phase2Unanimous(bucket: seq<Value>, n: nat, f: nat, v: Value, coin: bool)
    requires v != Unknown && forall i :: 0 <= i < |bucket| ==> bucket[i] == v
    requires Phase2Quorum(bucket, n, f) && n > 2 * f
    ensures Phase2Decide(bucket, f, coin) == Decision(v, true)
  {
    CountAll(bucket, v);
    if v == One {
      assert Zero !in bucket;
      CountNone(bucket, Zero);
    }
  }

  /** The safety step of Ben-Or for one round. Let `votes` be the phase-2
      votes of the round, at most one per node, with no two differing
      concrete values (Phase1Consistent). If one node decides from snapshot
      a, every node whose quorate snapshot b is drawn from the same votes
      ends the round with the same x, decided or not. */
  lemma Phase2Agreement(a: seq<Value>, b: seq<Value>, votes: seq<Value>, n: nat, f: nat,
                        coinA: bool, coinB: bool)
    requires |votes| <= n
    requires !(Zero in votes && One in votes)
    requires multiset(a) <= multiset(votes) && multiset(b) <= multiset(votes)
    requires Phase2Quorum(b, n, f)
    requires Phase2Decide(a, f, coinA).decided
    ensures Phase2Decide(b, f, coinB).x == Phase2Decide(a, f, coinA).x
  {
    var v := Phase2Decide(a, f, coinA).x;
    CountSubMultiset(a, votes, v);
    CountSubMultiset(b, votes, Flip(v));
    CountSubMultiset(b, votes, Unknown);
    assert Count(votes, Flip(v)) == 0 by {
      CountNone(votes, v);
      CountNone(votes, Flip(v));
      if v == Zero { assert One !in votes; } else { assert Zero !in votes; }
    }
    assert Count(votes, v) + Count(votes, Flip(v)) + Count(votes, Unknown) == |votes| by {
      assert KnownCount(votes) + Count(votes, Unknown) == |votes|;
    }
    assert Count(b, v) + Count(b, Flip(v)) + Count(b, Unknown) == |b| by {
      assert KnownCount(b) + Count(b, Unknown) == |b|;
    }
    assert Count(b, v) > 0 && Count(b, Flip(v)) == 0;
  }
}
