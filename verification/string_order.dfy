/** The ordering Java's `String.compareTo` puts on strings (code unit by code
    unit; a proper prefix sorts first), and sorting a set of names by it. */
module StringOrder {
  import opened Seqs

  /** `a.compareTo(b) < 0`: at the first position where the two differ the
      character of `a` is smaller, or `a` is a proper prefix of `b`. */
  predicate Less(a: string, b: string)
  {
    if a == [] then b != []
    else if b == [] then false
    else if a[0] != b[0] then a[0] < b[0]
    else Less(a[1..], b[1..])
  }

  lemma {:induction false} LessIrreflexive(a: string)
    ensures !Less(a, a)
  {
    if a != [] {
      LessIrreflexive(a[1..]);
    }
  }

  lemma {:induction false} LessTransitive(a: string, b: string, c: string)
    requires Less(a, b) && Less(b, c)
    ensures Less(a, c)
  {
    if a != [] && a[0] == b[0] && b[0] == c[0] {
      LessTransitive(a[1..], b[1..], c[1..]);
    }
  }

  /** Any two different strings are ordered one way or the other. */
  lemma {:induction false} LessTotal(a: string, b: string)
    ensures a == b || Less(a, b) || Less(b, a)
  {
    if a != [] && b != [] && a[0] == b[0] {
      LessTotal(a[1..], b[1..]);
      assert a == [a[0]] + a[1..] && b == [b[0]] + b[1..];
    }
  }

  lemma LessAsymmetric(a: string, b: string)
    requires Less(a, b)
    ensures !Less(b, a)
  {
    if Less(b, a) {
      LessTransitive(a, b, a);
      LessIrreflexive(a);
    }
  }

  /** Sorted by `Less` with no two equal elements. */
  predicate StrictlyAscending(s: seq<string>)
  {
    forall i, j :: 0 <= i < j < |s| ==> Less(s[i], s[j])
  }

  lemma AscendingNoDup(s: seq<string>)
    ensures StrictlyAscending(s) ==> NoDup(s)
  {
    forall i, j | 0 <= i < j < |s| && StrictlyAscending(s) ensures s[i] != s[j] {
      if s[i] == s[j] {
        LessIrreflexive(s[i]);
      }
    }
  }

  /** `m` is the least element of `names`. */
  predicate IsLeast(m: string, names: set<string>)
  {
    m in names && forall n :: n in names ==> n == m || Less(m, n)
  }

  lemma {:induction false} LeastExists(names: set<string>)
    requires names != {}
    ensures exists m :: IsLeast(m, names)
    decreases names
  {
    var x :| x in names;
    if names != {x} {
      LeastExists(names - {x});
      var rest :| IsLeast(rest, names - {x});
      LessTotal(x, rest);
      if Less(x, rest) {
        forall n | n in names ensures n == x || Less(x, n) {
          if n != x && n != rest {
            LessTransitive(x, rest, n);
          }
        }
        assert IsLeast(x, names);
      } else {
        assert IsLeast(rest, names);
      }
    } else {
      assert IsLeast(x, names);
    }
  }

  lemma LeastUnique(names: set<string>)
    ensures forall m1, m2 :: IsLeast(m1, names) && IsLeast(m2, names) ==> m1 == m2
  {
    forall m1, m2 | IsLeast(m1, names) && IsLeast(m2, names) ensures m1 == m2 {
      if m1 != m2 {
        LessAsymmetric(m1, m2);
      }
    }
  }

  /** The names of a set in ascending order, as a stream's `sorted()` yields them. */
  function SortedSet(names: set<string>): (r: seq<string>)
    ensures StrictlyAscending(r)
    ensures Elems(r) == names
    decreases names
  {
    if names == {} then []
    else
      LeastExists(names);
      LeastUnique(names);
      var m :| IsLeast(m, names);
      var rest := SortedSet(names - {m});
      assert Elems([m] + rest) == {m} + Elems(rest);
      [m] + rest
  }

  /** A set has only one strictly ascending listing, so `SortedSet`'s two
      guarantees determine its result. */
  lemma {:induction false} AscendingUnique(a: seq<string>, b: seq<string>)
    requires StrictlyAscending(a) && StrictlyAscending(b)
    requires Elems(a) == Elems(b)
    ensures a == b
  {
    if a == [] {
      assert forall k :: 0 <= k < |b| ==> b[k] in Elems(b);
    } else {
      assert b != [] by { assert a[0] in Elems(a); }
      assert a[0] == b[0] by {
        if a[0] != b[0] {
          assert b[0] in Elems(a);
          var k :| 0 <= k < |a| && a[k] == b[0];
          assert a[0] in Elems(b);
          var l :| 0 <= l < |b| && b[l] == a[0];
          LessAsymmetric(a[0], a[k]);
        }
      }
      AscendingNoDup(a);
      AscendingNoDup(b);
      assert Elems(a[1..]) == Elems(a) - {a[0]} by {
        assert a == [a[0]] + a[1..];
      }
      assert Elems(b[1..]) == Elems(b) - {b[0]} by {
        assert b == [b[0]] + b[1..];
      }
      AscendingUnique(a[1..], b[1..]);
      assert a == [a[0]] + a[1..] && b == [b[0]] + b[1..];
    }
  }
}
