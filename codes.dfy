/** Python's `sorted()` applied to a set of permission codes. Python compares
    strings lexicographically by code point, a proper prefix coming first; the
    sorted list of a set is the unique strictly increasing list of its codes. */
module Codes {

  /** Python's `a < b` on two strings. */
  predicate Below(a: string, b: string)
    decreases |a|
  {
    if |a| == 0 then |b| > 0
    else |b| > 0 && (a[0] < b[0] || (a[0] == b[0] && Below(a[1..], b[1..])))
  }

  lemma {:induction false} BelowAsymmetric(a: string, b: string)
    requires Below(a, b)
    ensures !Below(b, a) && a != b
    decreases |a|
  {
    if |a| > 0 && |b| > 0 && a[0] == b[0] {
      BelowAsymmetric(a[1..], b[1..]);
    }
  }

  lemma {:induction false} BelowTransitive(a: string, b: string, c: string)
    requires Below(a, b) && Below(b, c)
    ensures Below(a, c)
    decreases |a|
  {
    if |a| > 0 && a[0] == b[0] && b[0] == c[0] {
      BelowTransitive(a[1..], b[1..], c[1..]);
    }
  }

  lemma {:induction false} BelowTotal(a: string, b: string)
    requires a != b
    ensures Below(a, b) || Below(b, a)
    decreases |a|
  {
    if |a| > 0 && |b| > 0 && a[0] == b[0] {
      assert a == [a[0]] + a[1..] && b == [b[0]] + b[1..];
      BelowTotal(a[1..], b[1..]);
    }
  }

  /** `m` is the first code of `s` in sorted order. */
  predicate IsLeast(m: string, s: set<string>)
  {
    m in s && forall x | x in s && x != m :: Below(m, x)
  }

  lemma {:induction false} LeastExists(s: set<string>)
    requires s != {}
    ensures exists m :: IsLeast(m, s)
    decreases |s|
  {
    var y :| y in s;
    if s == {y} {
      assert IsLeast(y, s);
    } else {
      LeastExists(s - {y});
      var m :| IsLeast(m, s - {y});
      if Below(m, y) {
        assert IsLeast(m, s);
      } else {
        BelowTotal(m, y);
        forall x | x in s && x != y
          ensures Below(y, x)
        {
          if x != m {
            BelowTransitive(y, m, x);
          }
        }
        assert IsLeast(y, s);
      }
    }
  }

  lemma LeastUnique(s: set<string>)
    ensures forall m, n | IsLeast(m, s) && IsLeast(n, s) :: m == n
  {
    forall m, n | IsLeast(m, s) && IsLeast(n, s)
      ensures m == n
    {
      if m != n {
        BelowAsymmetric(m, n);
      }
    }
  }

  function Least(s: set<string>): (m: string)
    requires s != {}
    ensures IsLeast(m, s)
  {
    LeastExists(s);
    LeastUnique(s);
    var m :| IsLeast(m, s);
    m
  }

  predicate StrictlySorted(r: seq<string>)
  {
    forall i, j | 0 <= i < j < |r| :: Below(r[i], r[j])
  }

  function Elems(xs: seq<string>): set<string>
  {
    set x | x in xs
  }

  /** `sorted(s)` for a set of codes: strictly increasing and holding exactly
      the codes of `s`, each once. */
  function SortedCodes(s: set<string>): (r: seq<string>)
    ensures StrictlySorted(r)
    ensures Elems(r) == s
    ensures |r| == |s|
    decreases |s|
  {
    if s == {} then []
    else
      var m := Least(s);
      var rest := SortedCodes(s - {m});
      PrependLeast(m, s - {m}, rest);
      [m] + rest
  }

  lemma PrependLeast(m: string, s: set<string>, rest: seq<string>)
    requires IsLeast(m, s + {m}) && m !in s
    requires StrictlySorted(rest) && Elems(rest) == s
    ensures StrictlySorted([m] + rest)
    ensures Elems([m] + rest) == s + {m}
  {
    assert forall x | x in rest :: x in Elems(rest);
    assert Elems([m] + rest) == {m} + Elems(rest);
  }

  lemma ElemsEmpty(xs: seq<string>)
    ensures Elems(xs) == {} <==> xs == []
  {
    if xs != [] {
      assert xs[0] in Elems(xs);
    }
  }

  /** A strictly sorted list is determined by its codes: so `sorted(set(p))`
      gives back `p` itself when `p` was already sorted. */
  lemma {:induction false} StrictlySortedUnique(r: seq<string>, q: seq<string>)
    requires StrictlySorted(r) && StrictlySorted(q)
    requires Elems(r) == Elems(q)
    ensures r == q
    decreases |r|
  {
    ElemsEmpty(r);
    ElemsEmpty(q);
    if r != [] && q != [] {
      if r[0] != q[0] {
        assert r[0] in Elems(q) && q[0] in Elems(r);
        var i :| 0 <= i < |q| && q[i] == r[0];
        var j :| 0 <= j < |r| && r[j] == q[0];
        assert Below(q[0], r[0]) by {
          assert i > 0;
        }
        assert Below(r[0], q[0]) by {
          assert j > 0;
        }
        BelowAsymmetric(r[0], q[0]);
      }
      assert Elems(r[1..]) == Elems(r) - {r[0]} by {
        forall x | x in r[1..] ensures x != r[0] {
          var k :| 0 <= k < |r[1..]| && r[1..][k] == x;
          assert r[k + 1] == x;
          BelowAsymmetric(r[0], r[k + 1]);
        }
        assert r == [r[0]] + r[1..];
      }
      assert Elems(q[1..]) == Elems(q) - {q[0]} by {
        forall x | x in q[1..] ensures x != q[0] {
          var k :| 0 <= k < |q[1..]| && q[1..][k] == x;
          assert q[k + 1] == x;
          BelowAsymmetric(q[0], q[k + 1]);
        }
        assert q == [q[0]] + q[1..];
      }
      StrictlySortedUnique(r[1..], q[1..]);
      assert r == [r[0]] + r[1..] && q == [q[0]] + q[1..];
    }
  }
}
