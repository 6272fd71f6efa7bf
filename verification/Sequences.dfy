/** Options, and the few facts about duplicate-free sequences that every list of the system relies on. */
module Sequences {

  datatype Option<+T> = None | Some(value: T)

  ghost predicate Distinct<T>(s: seq<T>) {
    forall i, j :: 0 <= i < j < |s| ==> s[i] != s[j]
  }

  function Elems<T>(s: seq<T>): set<T> {
    set x | x in s
  }

  /** The position of the first occurrence of x. */
  function IndexOf<T(==)>(s: seq<T>, x: T): (i: nat)
    requires x in s
    ensures i < |s| && s[i] == x
    ensures forall j :: 0 <= j < i ==> s[j] != x
  {
    if s[0] == x then 0 else 1 + IndexOf(s[1..], x)
  }

  /** The sequence with position i taken out. */
  function RemoveAt<T>(s: seq<T>, i: nat): (r: seq<T>)
    requires i < |s|
    ensures |r| == |s| - 1
    ensures forall j :: 0 <= j < |r| ==> r[j] == s[if j < i then j else j + 1]
  {
    s[..i] + s[i + 1..]
  }

  /** The sequence without the first occurrence of x; unchanged when x does not occur. */
  function Without<T(==)>(s: seq<T>, x: T): (r: seq<T>)
    ensures |r| == if x in s then |s| - 1 else |s|
    ensures forall y :: y in r ==> y in s
    ensures x !in s ==> r == s
  {
    if x in s then RemoveAt(s, IndexOf(s, x)) else s
  }

  /** On a duplicate-free sequence, Without takes out exactly x. */
  lemma {:induction false} WithoutDistinct<T>(s: seq<T>, x: T)
    requires Distinct(s)
    ensures Distinct(Without(s, x))
    ensures forall y :: y in Without(s, x) <==> y in s && y != x
    ensures Elems(Without(s, x)) == Elems(s) - {x}
  {
    var r := Without(s, x);
    if x in s {
      var k := IndexOf(s, x);
      forall y | y in s && y != x
        ensures y in r
      {
        var i := IndexOf(s, y);
        assert r[if i < k then i else i - 1] == y;
      }
    }
  }

  /** On a duplicate-free sequence, taking out position i is the same as taking out the element there. */
  lemma {:induction false} RemoveAtIsWithout<T>(s: seq<T>, i: nat)
    requires Distinct(s) && i < |s|
    ensures RemoveAt(s, i) == Without(s, s[i])
  {
    assert IndexOf(s, s[i]) == i;
  }

  lemma {:induction false} ElemsSize<T>(s: seq<T>)
    requires Distinct(s)
    ensures |Elems(s)| == |s|
  {
    if s == [] {
    } else {
      var rest, last := s[..|s| - 1], s[|s| - 1];
      ElemsSize(rest);
      assert s == rest + [last];
      assert last !in Elems(rest);
      assert Elems(s) == Elems(rest) + {last};
    }
  }

  /** The n naturals below n. */
  function Below(n: nat): (s: set<nat>)
    ensures forall x :: x in s <==> 0 <= x < n
    ensures |s| == n
  {
    if n == 0 then {} else Below(n - 1) + {n - 1}
  }

  /** A set of naturals all below n has at most n members. */
  lemma {:induction false} BoundedSetSize(s: set<nat>, n: nat)
    requires forall x :: x in s ==> 0 <= x < n
    ensures |s| <= n
  {
    SubsetSize(s, Below(n));
  }

  lemma {:induction false} SubsetSize<T>(a: set<T>, b: set<T>)
    requires a <= b
    ensures |a| <= |b|
  {
    if a == {} {
    } else {
      var x :| x in a;
      SubsetSize(a - {x}, b - {x});
    }
  }
}
