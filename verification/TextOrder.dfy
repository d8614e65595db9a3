/** The order Rust gives strings, and the unique ascending listing of a set of strings. */
module TextOrder {
  /** Strict lexicographic order by code point. */
  predicate Below(a: string, b: string) {
    b != "" && (a == "" || a[0] < b[0] || (a[0] == b[0] && Below(a[1..], b[1..])))
  }

  lemma {:induction false} BelowIsTransitive(a: string, b: string, c: string)
    requires Below(a, b) && Below(b, c)
    ensures Below(a, c)
  {
    if a != "" && a[0] == b[0] && b[0] == c[0] {
      BelowIsTransitive(a[1..], b[1..], c[1..]);
    }
  }

  lemma {:induction false} BelowIsTotal(a: string, b: string)
    ensures a == b || Below(a, b) || Below(b, a)
  {
    if a != "" && b != "" && a[0] == b[0] {
      BelowIsTotal(a[1..], b[1..]);
      assert a == [a[0]] + a[1..] && b == [b[0]] + b[1..];
    }
  }

  lemma {:induction false} BelowIsAsymmetric(a: string, b: string)
    requires Below(a, b)
    ensures !Below(b, a) && a != b
  {
    if a != "" && a[0] == b[0] {
      BelowIsAsymmetric(a[1..], b[1..]);
    }
  }

  predicate IsLeast(m: string, s: set<string>) {
    m in s && forall y | y in s :: m == y || Below(m, y)
  }

  lemma {:induction false} LeastExists(s: set<string>)
    requires s != {}
    ensures exists m :: IsLeast(m, s)
    decreases |s|
  {
    var x :| x in s;
    var rest := s - {x};
    if rest == {} {
      assert s == {x};
      assert IsLeast(x, s);
    } else {
      LeastExists(rest);
      var m :| IsLeast(m, rest);
      BelowIsTotal(x, m);
      if Below(x, m) {
        forall y | y in s ensures x == y || Below(x, y) {
          if y != x && y != m { BelowIsTransitive(x, m, y); }
        }
        assert IsLeast(x, s);
      } else {
        assert IsLeast(m, s);
      }
    }
  }

  lemma LeastIsUnique(s: set<string>)
    ensures forall a, b | IsLeast(a, s) && IsLeast(b, s) :: a == b
  {
    forall a, b | IsLeast(a, s) && IsLeast(b, s) ensures a == b {
      if a != b { BelowIsAsymmetric(a, b); }
    }
  }

  function Least(s: set<string>): (m: string)
    requires s != {}
    ensures IsLeast(m, s)
  {
    LeastExists(s);
    LeastIsUnique(s);
    var m :| m in s && IsLeast(m, s);
    m
  }

  /** The elements of a set in ascending order, each once. */
  function Ascending(s: set<string>): (r: seq<string>)
    ensures forall x :: x in r <==> x in s
    ensures |r| == |s|
    decreases |s|
  {
    if s == {} then [] else
      var m := Least(s);
      [m] + Ascending(s - {m})
  }

  lemma AscendingListsAll(s: set<string>)
    ensures (set x | x in Ascending(s)) == s
  {}

  predicate StrictlyAscending(r: seq<string>) {
    forall i, j | 0 <= i < j < |r| :: Below(r[i], r[j])
  }

  lemma {:induction false} AscendingIsOrdered(s: set<string>)
    ensures StrictlyAscending(Ascending(s))
    decreases |s|
  {
    if s != {} {
      var m := Least(s);
      AscendingIsOrdered(s - {m});
      var rest := Ascending(s - {m});
      forall i, j | 0 <= i < j < |rest| + 1 ensures Below(([m] + rest)[i], ([m] + rest)[j]) {
        if i == 0 { assert rest[j - 1] in s - {m}; }
      }
    }
  }

  lemma AscendingIsDistinct(s: set<string>, i: nat, j: nat)
    requires i < |s| && j < |s| && i != j
    ensures Ascending(s)[i] != Ascending(s)[j]
  {
    AscendingIsOrdered(s);
    if i < j { BelowIsAsymmetric(Ascending(s)[i], Ascending(s)[j]); }
    else { BelowIsAsymmetric(Ascending(s)[j], Ascending(s)[i]); }
  }

  lemma HeadIsLeast(r: seq<string>)
    requires r != [] && StrictlyAscending(r)
    ensures IsLeast(r[0], set x | x in r)
    ensures r[0] !in r[1..]
    ensures StrictlyAscending(r[1..])
  {
    if r[0] in r[1..] {
      var k :| 0 <= k < |r| - 1 && r[1..][k] == r[0];
      assert Below(r[0], r[k + 1]);
      BelowIsAsymmetric(r[0], r[k + 1]);
    }
  }

  lemma LeastIs(m: string, s: set<string>)
    requires IsLeast(m, s)
    ensures Least(s) == m
  {
    LeastIsUnique(s);
  }

  lemma TailElements(r: seq<string>)
    requires r != [] && r[0] !in r[1..]
    ensures (set x | x in r) - {r[0]} == set x | x in r[1..]
  {
    assert r == [r[0]] + r[1..];
  }

  /** An ascending listing is determined by its elements. */
  lemma AscendingFrom(m: string, rest: seq<string>, s: set<string>)
    requires s != {} && Least(s) == m && Ascending(s - {m}) == rest
    ensures Ascending(s) == [m] + rest
  {}

  lemma {:induction false} AscendingIsUnique(r: seq<string>)
    requires StrictlyAscending(r)
    ensures r == Ascending(set x | x in r)
  {
    if r != [] {
      HeadIsLeast(r);
      LeastIs(r[0], set x | x in r);
      TailElements(r);
      AscendingIsUnique(r[1..]);
      AscendingFrom(r[0], r[1..], set x | x in r);
      assert r == [r[0]] + r[1..];
    } else {
      assert (set x | x in r) == {};
    }
  }
}
