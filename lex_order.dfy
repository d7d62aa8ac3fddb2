/**
 * The key order of `std::map<std::string, ...>`: `std::less<std::string>`,
 * lexicographic comparison character by character, a proper prefix first.
 * The maps of configfile.cpp are iterated in this order, so the model lists a
 * map's keys with SortedKeys.
 */
module LexOrder {

  /** `a < b` for `std::string`. */
  predicate Less(a: string, b: string)
    decreases |a|
  {
    |b| > 0 && (|a| == 0 || a[0] < b[0] || (a[0] == b[0] && Less(a[1..], b[1..])))
  }

  lemma {:induction false} LessIrreflexive(a: string)
    ensures !Less(a, a)
    decreases |a|
  {
    if |a| > 0 {
      LessIrreflexive(a[1..]);
    }
  }

  lemma {:induction false} LessAsymmetric(a: string, b: string)
    requires Less(a, b)
    ensures !Less(b, a)
    decreases |a|
  {
    if |a| > 0 && a[0] == b[0] {
      LessAsymmetric(a[1..], b[1..]);
    }
  }

  lemma {:induction false} LessTransitive(a: string, b: string, c: string)
    requires Less(a, b) && Less(b, c)
    ensures Less(a, c)
    decreases |a|
  {
    if |a| > 0 && a[0] == b[0] && b[0] == c[0] {
      LessTransitive(a[1..], b[1..], c[1..]);
    }
  }

  /** Two different strings are ordered one way or the other. */
  lemma {:induction false} LessTotal(a: string, b: string)
    ensures a == b || Less(a, b) || Less(b, a)
    decreases |a|
  {
    if |a| > 0 && |b| > 0 && a[0] == b[0] {
      LessTotal(a[1..], b[1..]);
      if a[1..] == b[1..] {
        assert a == [a[0]] + a[1..] && b == [b[0]] + b[1..];
      }
    }
  }

  /** The empty string precedes every other string. */
  lemma {:induction false} EmptyFirst(b: string)
    requires b != ""
    ensures Less("", b)
  {
  }

  /** `k` is the least element of `s`. */
  predicate IsLeast(k: string, s: set<string>) {
    k in s && forall y :: y in s && y != k ==> Less(k, y)
  }

  /** Every non-empty finite set of strings has a least element. */
  lemma {:induction false} LeastExists(s: set<string>)
    requires s != {}
    ensures exists k :: IsLeast(k, s)
    decreases |s|
  {
    var x :| x in s;
    if s == {x} {
      assert IsLeast(x, s);
    } else {
      var rest := s - {x};
      LeastExists(rest);
      var m :| IsLeast(m, rest);
      LessTotal(x, m);
      if Less(x, m) {
        forall y | y in s && y != x ensures Less(x, y) {
          if y != m {
            LessTransitive(x, m, y);
          }
        }
        assert IsLeast(x, s);
      } else {
        assert IsLeast(m, s);
      }
    }
  }

  /** The least element is unique. */
  lemma {:induction false} LeastUnique(s: set<string>)
    ensures forall a, b :: IsLeast(a, s) && IsLeast(b, s) ==> a == b
  {
    forall a, b | IsLeast(a, s) && IsLeast(b, s) ensures a == b {
      if a != b {
        LessAsymmetric(a, b);
      }
    }
  }

  /** The keys of a std::map in its iteration order. */
  function SortedKeys(s: set<string>): (r: seq<string>)
    ensures |r| == |s|
    decreases |s|
  {
    if s == {} then []
    else
      LeastExists(s);
      LeastUnique(s);
      var k :| IsLeast(k, s);
      [k] + SortedKeys(s - {k})
  }

  /** The least key comes first. */
  lemma {:induction false} SortedKeysFirst(s: set<string>, k: string)
    requires IsLeast(k, s)
    ensures SortedKeys(s) == [k] + SortedKeys(s - {k})
  {
    LeastUnique(s);
  }

  /** `r` is strictly ascending. */
  predicate Ascending(r: seq<string>) {
    forall i, j :: 0 <= i < j < |r| ==> Less(r[i], r[j])
  }

  /** SortedKeys lists exactly the keys of the map. */
  lemma {:induction false} SortedKeysMembers(s: set<string>)
    ensures forall x :: x in SortedKeys(s) <==> x in s
    decreases |s|
  {
    if s != {} {
      LeastExists(s);
      var k :| IsLeast(k, s);
      SortedKeysFirst(s, k);
      SortedKeysMembers(s - {k});
    }
  }

  /** SortedKeys lists the keys in strictly ascending order, so each once. */
  lemma {:induction false} SortedKeysAscending(s: set<string>)
    ensures Ascending(SortedKeys(s))
    decreases |s|
  {
    if s != {} {
      LeastExists(s);
      var k :| IsLeast(k, s);
      SortedKeysFirst(s, k);
      var rest := SortedKeys(s - {k});
      SortedKeysAscending(s - {k});
      SortedKeysMembers(s - {k});
      var r := [k] + rest;
      forall i, j | 0 <= i < j < |r| ensures Less(r[i], r[j]) {
        var y := rest[j - 1];
        if i > 0 {
          assert Less(rest[i - 1], y);
        } else {
          assert y in rest;
          assert y in s && y != k;
        }
      }
    }
  }

  /** The default section `""` is written first. */
  lemma {:induction false} EmptyKeyFirst(s: set<string>)
    requires "" in s
    ensures SortedKeys(s)[0] == ""
  {
    forall y | y in s && y != "" ensures Less("", y) {
      EmptyFirst(y);
    }
    SortedKeysFirst(s, "");
  }
}
