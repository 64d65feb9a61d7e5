/**
 * The order in which the pass visits buffer names. The buffers are kept in an
 * ordered map keyed by string, so every walk over it goes through the names in
 * ascending order of the standard string comparison: character by character,
 * a proper prefix first.
 */
module NameOrder {

  /** `a` sorts strictly before `b`. */
  predicate Below(a: string, b: string)
    decreases |a|
  {
    if a == [] then b != []
    else if b == [] then false
    else if a[0] == b[0] then Below(a[1..], b[1..])
    else a[0] < b[0]
  }

  lemma {:induction false} BelowIrreflexive(a: string)
    ensures !Below(a, a)
    decreases |a|
  {
    if a != [] {
      BelowIrreflexive(a[1..]);
    }
  }

  lemma {:induction false} BelowAsymmetric(a: string, b: string)
    requires Below(a, b)
    ensures !Below(b, a)
    decreases |a|
  {
    if a != [] && b != [] && a[0] == b[0] {
      BelowAsymmetric(a[1..], b[1..]);
    }
  }

  lemma {:induction false} BelowTransitive(a: string, b: string, c: string)
    requires Below(a, b) && Below(b, c)
    ensures Below(a, c)
    decreases |a|
  {
    if a != [] && a[0] == b[0] && b[0] == c[0] {
      BelowTransitive(a[1..], b[1..], c[1..]);
    }
  }

  lemma {:induction false} BelowTotal(a: string, b: string)
    requires a != b
    ensures Below(a, b) || Below(b, a)
    decreases |a|
  {
    if a != [] && b != [] && a[0] == b[0] {
      assert a == [a[0]] + a[1..] && b == [b[0]] + b[1..];
      BelowTotal(a[1..], b[1..]);
    }
  }

  /** Consecutive in the walk means strictly ascending, so no name comes twice. */
  predicate Ascending(names: seq<string>)
  {
    forall i, j :: 0 <= i < j < |names| ==> Below(names[i], names[j])
  }

  /** `m` is the first of `keys` in the walk. */
  predicate IsLeast(m: string, keys: set<string>)
  {
    m in keys && forall k :: k in keys && k != m ==> Below(m, k)
  }

  lemma {:induction false} LeastExists(keys: set<string>)
    requires keys != {}
    ensures exists m :: IsLeast(m, keys)
    decreases |keys|
  {
    var x :| x in keys;
    if keys != {x} {
      var rest := keys - {x};
      LeastExists(rest);
      var m :| IsLeast(m, rest);
      if Below(m, x) {
        forall k | k in keys && k != m ensures Below(m, k) {
          if k == x {
          } else {
            assert k in rest;
          }
        }
        assert IsLeast(m, keys);
      } else {
        BelowTotal(m, x);
        forall k | k in keys && k != x ensures Below(x, k) {
          if k != m {
            assert k in rest;
            BelowTransitive(x, m, k);
          }
        }
        assert IsLeast(x, keys);
      }
    } else {
      assert IsLeast(x, keys);
    }
  }

  lemma LeastUnique(m: string, n: string, keys: set<string>)
    requires IsLeast(m, keys) && IsLeast(n, keys)
    ensures m == n
  {
    if m != n {
      BelowAsymmetric(m, n);
    }
  }

  /** The names of `keys` in the order an ordered map visits them: least first. */
  ghost function Sorted(keys: set<string>): seq<string>
    decreases |keys|
  {
    if keys == {} then []
    else
      LeastExists(keys);
      var m :| IsLeast(m, keys);
      [m] + Sorted(keys - {m})
  }

  /** The walk lists every name of the set, each once, in ascending order. */
  lemma {:induction false} SortedLists(keys: set<string>)
    ensures Ascending(Sorted(keys))
    ensures forall k :: k in Sorted(keys) <==> k in keys
    ensures |Sorted(keys)| == |keys|
    decreases |keys|
  {
    if keys != {} {
      LeastExists(keys);
      var m :| IsLeast(m, keys);
      var others := keys - {m};
      SortedStartsWithLeast(m, keys);
      SortedLists(others);
      var rest := Sorted(others);
      var r := [m] + rest;
      forall i, j | 0 <= i < j < |r| ensures Below(r[i], r[j]) {
        assert r[j] == rest[j - 1];
        if i > 0 {
          assert r[i] == rest[i - 1];
        } else {
          assert r[j] in others;
        }
      }
      forall k ensures k in r <==> k in keys {
        assert k in r <==> k == m || k in rest;
      }
      assert |others| == |keys| - 1;
    }
  }

  /** The walk starts with the least name and goes on with the rest. */
  lemma SortedStartsWithLeast(m: string, keys: set<string>)
    requires IsLeast(m, keys)
    ensures Sorted(keys) == [m] + Sorted(keys - {m})
  {
    var r := Sorted(keys);
    LeastExists(keys);
    assert IsLeast(r[0], keys) && r == [r[0]] + Sorted(keys - {r[0]});
    LeastUnique(m, r[0], keys);
  }

  /** Picks the least name of a non-empty set by one pass over it. */
  method Least(keys: set<string>) returns (m: string)
    requires keys != {}
    ensures IsLeast(m, keys)
  {
    m :| m in keys;
    var todo := keys - {m};
    while todo != {}
      invariant todo <= keys && m in keys && m !in todo
      invariant forall k :: k in keys - todo && k != m ==> Below(m, k)
      decreases |todo|
    {
      var k :| k in todo;
      if Below(k, m) {
        forall j | j in keys - (todo - {k}) && j != k ensures Below(k, j) {
          if j != m {
            BelowTransitive(k, m, j);
          }
        }
        m := k;
      } else {
        BelowTotal(k, m);
      }
      todo := todo - {k};
    }
  }

  /** Lists the names of `keys` in ascending order, least first. */
  method SortedNames(keys: set<string>) returns (names: seq<string>)
    ensures names == Sorted(keys)
  {
    names := [];
    var rest := keys;
    while rest != {}
      invariant names + Sorted(rest) == Sorted(keys)
      decreases |rest|
    {
      var m := Least(rest);
      SortedStartsWithLeast(m, rest);
      names := names + [m];
      rest := rest - {m};
    }
  }
}
