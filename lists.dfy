/** Python list operations shared by the models: membership without
    repeats, and `list.remove`. */
module Lists {
  predicate Distinct<T(==)>(s: seq<T>) {
    forall i, j :: 0 <= i < j < |s| ==> s[i] != s[j]
  }

  /** Regrouping a concatenation. Long method proofs call this instead of
      leaving the regrouping to the solver, which finds it expensive there. */
  lemma Regroup<T>(a: seq<T>, b: seq<T>, c: seq<T>)
    ensures a + b + c == a + (b + c)
  {
  }

  /** The index of the first `x` in `s`. */
  function IndexOf<T(==)>(s: seq<T>, x: T): (i: nat)
    requires x in s
    ensures i < |s| && s[i] == x && x !in s[..i]
  {
    if s[0] == x then 0 else 1 + IndexOf(s[1..], x)
  }

  /** `list.remove(x)`: drop the first `x`. */
  function Remove<T(==)>(s: seq<T>, x: T): seq<T>
    requires x in s
  {
    if s[0] == x then s[1..] else [s[0]] + Remove(s[1..], x)
  }

  /** Removing drops exactly the first occurrence and keeps the order of
      everything else. */
  lemma {:induction false} RemoveFirst<T>(s: seq<T>, x: T)
    requires x in s
    ensures Remove(s, x) == s[..IndexOf(s, x)] + s[IndexOf(s, x) + 1..]
  {
    if s[0] != x {
      var t := s[1..];
      RemoveFirst(t, x);
      var i := IndexOf(t, x);
      assert IndexOf(s, x) == i + 1;
      assert s[..i + 1] == [s[0]] + t[..i];
      assert s[i + 2..] == t[i + 1..];
      assert [s[0]] + (t[..i] + t[i + 1..]) == ([s[0]] + t[..i]) + t[i + 1..];
    }
  }

  /** Removing takes away one `x` and nothing else. */
  lemma RemoveCount<T>(s: seq<T>, x: T)
    requires x in s
    ensures multiset(Remove(s, x)) == multiset(s) - multiset{x}
  {
    RemoveFirst(s, x);
    var i := IndexOf(s, x);
    assert s == s[..i] + [x] + s[i + 1..];
  }

  /** In a list without repeats, removing `x` leaves no `x` and no repeat. */
  lemma {:induction false} RemoveDistinct<T>(s: seq<T>, x: T)
    requires x in s && Distinct(s)
    ensures Distinct(Remove(s, x)) && x !in Remove(s, x)
  {
    if s[0] != x {
      var t := s[1..];
      assert Distinct(t);
      RemoveDistinct(t, x);
      RemoveCount(t, x);
      assert s[0] !in t;
      assert s[0] !in Remove(t, x) by {
        assert multiset(Remove(t, x))[s[0]] == 0;
      }
    } else {
      assert s[1..][..0] == [];
      assert x !in s[1..];
    }
  }

  /** Removing an element that was absent and then appended undoes the
      append. */
  lemma {:induction false} RemoveAppended<T>(s: seq<T>, x: T)
    requires x !in s
    ensures Remove(s + [x], x) == s
  {
    if s != [] {
      RemoveAppended(s[1..], x);
      assert (s + [x])[1..] == s[1..] + [x];
    }
  }
}
