/** The three-valued vote carried by every protocol message, and the counts
    the engine takes over a bucket of received votes (src/nodes/node.ts). */
module Votes {

  /** A vote: 0, 1 or "?" on the wire. Unknown means "no majority was
      observed in phase 1"; it is a value that was received, not a missing one. */
  datatype Value = Zero | One | Unknown

  /** The opposite concrete value; Unknown is its own opposite. */
  function Flip(v: Value): (r: Value)
    ensures (r == Unknown) == (v == Unknown)
    ensures v != Unknown ==> r != v
  {
    match v
    case Zero => One
    case One => Zero
    case Unknown => Unknown
  }

  /** Every vote of s replaced by its opposite. */
  function FlipAll(s: seq<Value>): (r: seq<Value>)
    ensures |r| == |s|
  {
    if s == [] then [] else [Flip(s[0])] + FlipAll(s[1..])
  }

  /** The number of entries of s equal to v: `s.filter(w => w == v).length`. */
  function Count(s: seq<Value>, v: Value): (n: nat)
    ensures n <= |s|
  {
    if s == [] then 0 else (if s[0] == v then 1 else 0) + Count(s[1..], v)
  }

  /** No entry is v exactly when none is counted. */
  lemma {:induction false} CountNone(s: seq<Value>, v: Value)
    ensures Count(s, v) == 0 <==> v !in s
  {
    if s != [] {
      CountNone(s[1..], v);
      assert s == [s[0]] + s[1..];
    }
  }

  /** Every entry is v exactly when all of them are counted. */
  lemma {:induction false} CountAll(s: seq<Value>, v: Value)
    ensures Count(s, v) == |s| <==> forall i :: 0 <= i < |s| ==> s[i] == v
  {
    if s != [] {
      CountAll(s[1..], v);
      assert forall i :: 0 < i < |s| ==> s[i] == s[1..][i - 1];
    }
  }

  /** The number of entries other than "?": `s.filter(w => w != "?").length`. */
  function KnownCount(s: seq<Value>): (n: nat)
    ensures n == Count(s, Zero) + Count(s, One)
    ensures n + Count(s, Unknown) == |s|
  {
    if s == [] then 0 else (if s[0] != Unknown then 1 else 0) + KnownCount(s[1..])
  }

  /** Count agrees with the multiplicity of v in the multiset of s. */
  lemma {:induction false} CountIsMultiplicity(s: seq<Value>, v: Value)
    ensures Count(s, v) == multiset(s)[v]
  {
    if s != [] {
      CountIsMultiplicity(s[1..], v);
      assert s == [s[0]] + s[1..];
      assert multiset(s) == multiset{s[0]} + multiset(s[1..]);
    }
  }

  /** Counting distributes over concatenation. */
  lemma {:induction false} CountConcat(s: seq<Value>, t: seq<Value>, v: Value)
    ensures Count(s + t, v) == Count(s, v) + Count(t, v)
  {
    if s != [] {
      assert (s + t)[1..] == s[1..] + t;
      CountConcat(s[1..], t, v);
    } else {
      assert s + t == t;
    }
  }

  /** A bucket that only grew by appends never has fewer votes of any value. */
  lemma CountPrefix(s: seq<Value>, t: seq<Value>, v: Value)
    requires s <= t
    ensures Count(s, v) <= Count(t, v)
  {
    assert t == s + t[|s|..];
    CountConcat(s, t[|s|..], v);
  }

  /** A vote is held by a sub-multiset at most as often as in the whole. */
  lemma CountSubMultiset(s: seq<Value>, t: seq<Value>, v: Value)
    requires multiset(s) <= multiset(t)
    ensures Count(s, v) <= Count(t, v)
  {
    CountIsMultiplicity(s, v);
    CountIsMultiplicity(t, v);
  }

  /** Flipping every vote exchanges the counts of Zero and One. */
  lemma {:induction false} CountFlipAll(s: seq<Value>, v: Value)
    ensures |FlipAll(s)| == |s|
    ensures Count(FlipAll(s), Flip(v)) == Count(s, v)
  {
    if s != [] {
      CountFlipAll(s[1..], v);
      var r := FlipAll(s);
      assert r[1..] == FlipAll(s[1..]);
      assert (r[0] == Flip(v)) == (s[0] == v);
    }
  }
}
