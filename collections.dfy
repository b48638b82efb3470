/** The two operations of Doctrine's `ArrayCollection` that an entry uses on its owned
    collections, over the collection's values in order: appending (`$c[] = x`) is `s + [x]`,
    and `removeElement` is `RemoveElement` below. */
module ArrayCollections {

  /** Position of the first occurrence of `x` in `s`, as found by a strict search. */
  function IndexOf<T(==)>(s: seq<T>, x: T): (i: nat)
    requires x in s
    ensures i < |s| && s[i] == x
    ensures x !in s[..i]
  {
    if s[0] == x then 0
    else
      var j := IndexOf(s[1..], x);
      assert s[1..][..j] == s[1..j + 1];
      1 + j
  }

  /** `removeElement`: drop the first element strictly equal to `x`, keep the others in order;
      nothing changes when `x` is absent. */
  function RemoveElement<T(==)>(s: seq<T>, x: T): (r: seq<T>)
    ensures x !in s ==> r == s
    ensures x in s ==> r == s[..IndexOf(s, x)] + s[IndexOf(s, x) + 1..]
  {
    if s == [] then []
    else if s[0] == x then s[1..]
    else
      FirstOccurrenceInTail(s, x);
      [s[0]] + RemoveElement(s[1..], x)
  }

  /** When `s` does not start with `x`, its first `x` is the tail's first `x`, one place on, and
      the slices around it are the tail's slices around it. */
  lemma {:induction false} FirstOccurrenceInTail<T>(s: seq<T>, x: T)
    requires s != [] && s[0] != x
    ensures x in s ==> x in s[1..]
    ensures x in s ==> IndexOf(s, x) == 1 + IndexOf(s[1..], x)
    ensures x in s ==> s[..IndexOf(s, x)] == [s[0]] + s[1..][..IndexOf(s[1..], x)]
    ensures x in s ==> s[IndexOf(s, x) + 1..] == s[1..][IndexOf(s[1..], x) + 1..]
  {
    assert s == [s[0]] + s[1..];
  }

  /** Removing an element takes exactly one copy of it out of the collection, if there is one. */
  lemma {:induction false} RemoveElementMultiset<T>(s: seq<T>, x: T)
    ensures multiset(RemoveElement(s, x)) == multiset(s) - multiset{x}
    ensures |RemoveElement(s, x)| == if x in s then |s| - 1 else |s|
  {
    if x in s {
      var i := IndexOf(s, x);
      assert s == s[..i] + [x] + s[i + 1..];
      calc {
        multiset(s);
        multiset(s[..i] + [x] + s[i + 1..]);
        multiset(s[..i]) + multiset{x} + multiset(s[i + 1..]);
      }
    } else {
      assert multiset(s)[x] == 0;
    }
  }

  /** Appending an element that was not yet in the collection and removing it again gives back
      the collection as it was. */
  lemma {:induction false} AppendThenRemove<T>(s: seq<T>, x: T)
    requires x !in s
    ensures RemoveElement(s + [x], x) == s
  {
    assert x in s + [x];
    assert IndexOf(s + [x], x) == |s| by {
      assert (s + [x])[..|s|] == s;
    }
    assert (s + [x])[..|s|] == s;
  }

  /** Appending leaves the position of the first occurrence of an element already present. */
  lemma {:induction false} IndexOfAppend<T>(s: seq<T>, x: T, y: T)
    requires x in s
    ensures IndexOf(s + [y], x) == IndexOf(s, x)
  {
    var i, j := IndexOf(s + [y], x), IndexOf(s, x);
    assert (s + [y])[..j] == s[..j];
    assert (s + [y])[j] == x;
    assert i <= j;
    assert (s + [y])[i] == s[i];
  }

  /** When the element was already present, the round trip removes its first copy and leaves the
      appended one at the end. */
  lemma {:induction false} AppendThenRemovePresent<T>(s: seq<T>, x: T)
    requires x in s
    ensures RemoveElement(s + [x], x) == RemoveElement(s, x) + [x]
  {
    IndexOfAppend(s, x, x);
    var i := IndexOf(s, x);
    assert (s + [x])[..i] == s[..i];
    assert (s + [x])[i + 1..] == s[i + 1..] + [x];
  }

  /** A sequence that is unchanged by moving its first element to the end and replacing it by `x`
      consists of `x` only. */
  lemma {:induction false} RotateFixed<T>(t: seq<T>, x: T)
    requires t != [] && t[1..] + [x] == t
    ensures forall k :: 0 <= k < |t| ==> t[k] == x
  {
    if |t| == 1 {
      assert t[0] == (t[1..] + [x])[0];
    } else {
      assert (t[1..] + [x])[1..] == t[2..] + [x];
      RotateFixed(t[1..], x);
      assert t[0] == (t[1..] + [x])[0] == t[1];
    }
  }

  /** A sequence starting with `x` is unchanged by moving its first element to the end exactly
      when it consists of `x` only. */
  lemma {:induction false} RotateFixedIff<T>(t: seq<T>, x: T)
    requires t != [] && t[0] == x
    ensures t[1..] + [x] == t <==> forall k :: 0 <= k < |t| ==> t[k] == x
  {
    if t[1..] + [x] == t {
      RotateFixed(t, x);
    }
    if forall k :: 0 <= k < |t| ==> t[k] == x {
      assert forall k :: 0 <= k < |t| ==> (t[1..] + [x])[k] == t[k];
    }
  }

  /** A common prefix can be cancelled from both sides of an equation. */
  lemma {:induction false} CancelPrefix<T>(p: seq<T>, u: seq<T>, v: seq<T>)
    ensures p + u == p + v <==> u == v
  {
    if p + u == p + v {
      assert u == (p + u)[|p|..] && v == (p + v)[|p|..];
    }
  }

  /** All elements of `s[i..]` are `x` exactly when all elements of `s` from position `i` on are. */
  lemma {:induction false} AllFromOn<T>(s: seq<T>, i: nat, x: T)
    requires i <= |s|
    ensures (forall k :: 0 <= k < |s[i..]| ==> s[i..][k] == x) <==> (forall k :: i <= k < |s| ==> s[k] == x)
  {
    if forall k :: 0 <= k < |s[i..]| ==> s[i..][k] == x {
      forall k | i <= k < |s| ensures s[k] == x {
        assert s[k] == s[i..][k - i];
      }
    }
  }

  /** The round trip for an element already present, split at the element's first occurrence:
      the part before it stays, and the part from it on is rotated by one place. */
  lemma {:induction false} RoundTripSplit<T>(s: seq<T>, x: T)
    requires x in s
    ensures RemoveElement(s + [x], x) == s[..IndexOf(s, x)] + (s[IndexOf(s, x)..][1..] + [x])
  {
    var i := IndexOf(s, x);
    var p, t := s[..i], s[i..];
    AppendThenRemovePresent(s, x);
    assert RemoveElement(s, x) == p + t[1..];
    assert (p + t[1..]) + [x] == p + (t[1..] + [x]);
  }

  /** The round trip for an element already present restores the collection exactly when every
      element from its first occurrence onward is that element. */
  lemma {:induction false} AppendThenRemoveRestoresPresent<T>(s: seq<T>, x: T)
    requires x in s
    ensures RemoveElement(s + [x], x) == s <==> forall k :: IndexOf(s, x) <= k < |s| ==> s[k] == x
  {
    var i := IndexOf(s, x);
    var p, t := s[..i], s[i..];
    RoundTripSplit(s, x);
    assert s == p + t;
    CancelPrefix(p, t[1..] + [x], t);
    assert RemoveElement(s + [x], x) == s <==> t[1..] + [x] == t;
    RotateFixedIff(t, x);
    AllFromOn(s, i, x);
  }

  /** Appending an element and removing it again restores the collection exactly when the element
      is absent or every element from its first occurrence onward is that element; otherwise the
      first copy moves to the end. */
  lemma {:induction false} AppendThenRemoveRestores<T>(s: seq<T>, x: T)
    ensures RemoveElement(s + [x], x) == s <==>
      x !in s || forall k :: IndexOf(s, x) <= k < |s| ==> s[k] == x
  {
    if x !in s {
      AppendThenRemove(s, x);
    } else {
      AppendThenRemoveRestoresPresent(s, x);
    }
  }
}
