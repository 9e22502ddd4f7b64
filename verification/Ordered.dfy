/**
 Identities and digests.

 Every 32-byte value of the workspace (device, user, certificate digest, namespace digest) is
 used through equality and through byte order only, so it is modelled by the number its bytes
 spell. An ordered container iterates in ascending order of its keys; `Ascending` is that order.
 */
module Ordered {

  type Id = nat

  /** A document, and one operation of its history. */
  type DocId = Id
  type Atom = nat

  ghost predicate IsAscending(s: seq<Id>) {
    forall i, j | 0 <= i < j < |s| :: s[i] < s[j]
  }

  ghost predicate IsLeast(s: set<Id>, m: Id) {
    m in s && forall x | x in s :: m <= x
  }

  lemma LeastExists(s: set<Id>)
    requires s != {}
    ensures exists m :: IsLeast(s, m)
  {
    var x :| x in s;
    if s == {x} {
      assert IsLeast(s, x);
    } else {
      var rest := s - {x};
      assert s == rest + {x} && rest != {};
      LeastExists(rest);
      var m :| IsLeast(rest, m);
      assert IsLeast(s, if m < x then m else x);
    }
  }

  function Least(s: set<Id>): (m: Id)
    requires s != {}
    ensures m in s && forall x | x in s :: m <= x
  {
    LeastExists(s);
    assert exists m :: IsLeast(s, m);
    var m :| m in s && forall x | x in s :: m <= x;
    m
  }

  /** The keys of an ordered map or set, in iteration order. */
  function Ascending(s: set<Id>): (r: seq<Id>)
    ensures IsAscending(r)
    ensures forall x :: x in r <==> x in s
    ensures |r| == |s|
  {
    if s == {} then
      []
    else
      var m := Least(s);
      [m] + Ascending(s - {m})
  }

  lemma Regroup<T>(a: set<T>, b: set<T>, c: set<T>)
    ensures a + b + c == a + (b + c)
  {
  }

  /** What is false at first and true in the end becomes true at some step. */
  lemma {:induction false} Crossing(p: nat -> bool, n: nat) returns (i: nat)
    requires !p(0) && p(n)
    ensures i < n && !p(i) && p(i + 1)
    decreases n
  {
    if p(n - 1) {
      i := Crossing(p, n - 1);
    } else {
      i := n - 1;
    }
  }

  lemma PrefixNext<T>(s: seq<T>, k: nat)
    requires k < |s|
    ensures s[..k + 1] == s[..k] + [s[k]]
  {
  }

  lemma Rejoin<T>(s: seq<T>, k: nat)
    requires k <= |s|
    ensures s[..k] + s[k..] == s
  {
  }

  lemma PrefixOfThree<T>(a: seq<T>, b: seq<T>, c: seq<T>, k: nat)
    requires k <= |a|
    ensures (a + b + c)[..k] == a[..k]
  {
  }

  lemma Refill<T>(a: set<T>, x: T, d: set<T>)
    requires a <= d && x in d
    ensures a + {x} + (d - {x}) == d
  {
  }
}
