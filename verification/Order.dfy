/** The byte order of names: the iteration order of `BTreeMap<String, _>`. */
module Order {
  predicate Le(a: string, b: string) {
    a == "" || (b != "" && (a[0] < b[0] || (a[0] == b[0] && Le(a[1..], b[1..]))))
  }

  lemma {:induction false} LeTotal(a: string, b: string)
    ensures Le(a, b) || Le(b, a)
  {
    if a != "" && b != "" {
      LeTotal(a[1..], b[1..]);
    }
  }

  lemma {:induction false} LeAntisymmetric(a: string, b: string)
    requires Le(a, b) && Le(b, a)
    ensures a == b
  {
    if a != "" && b != "" {
      LeAntisymmetric(a[1..], b[1..]);
      assert a == [a[0]] + a[1..] && b == [b[0]] + b[1..];
    }
  }

  lemma {:induction false} LeTransitive(a: string, b: string, c: string)
    requires Le(a, b) && Le(b, c)
    ensures Le(a, c)
  {
    if a != "" && b != "" && c != "" && a[0] == b[0] == c[0] {
      LeTransitive(a[1..], b[1..], c[1..]);
    }
  }

  predicate IsLeast(x: string, s: set<string>) {
    x in s && forall y | y in s :: Le(x, y)
  }

  lemma {:induction false} LeastExists(s: set<string>) returns (x: string)
    requires s != {}
    ensures IsLeast(x, s)
    decreases |s|
  {
    x :| x in s;
    LeTotal(x, x);
    if s != {x} {
      var y := LeastExists(s - {x});
      LeTotal(x, y);
      if Le(y, x) {
        x := y;
      } else {
        forall z | z in s
          ensures Le(x, z)
        {
          if z != x {
            LeTransitive(x, y, z);
          }
        }
      }
    }
  }

  function Least(s: set<string>): (x: string)
    requires s != {}
    ensures IsLeast(x, s)
  {
    assert exists x :: IsLeast(x, s) by {
      var x := LeastExists(s);
    }
    assert forall x, y | IsLeast(x, s) && IsLeast(y, s) :: x == y by {
      forall x, y | IsLeast(x, s) && IsLeast(y, s)
        ensures x == y
      {
        LeAntisymmetric(x, y);
      }
    }
    var x :| IsLeast(x, s);
    x
  }

  /** The keys of a `BTreeMap` in iteration order. */
  function Ascending(s: set<string>): (r: seq<string>)
    ensures forall x :: x in r <==> x in s
  {
    if s == {} then []
    else
      var x := Least(s);
      [x] + Ascending(s - {x})
  }

  /** The first element of an ascending sequence that satisfies `p` is the least one that does. */
  ghost predicate FirstWith(r: seq<string>, p: string -> bool, x: string) {
    exists i :: 0 <= i < |r| && r[i] == x && p(x) && forall j | 0 <= j < i :: !p(r[j])
  }

  lemma {:induction false} FirstIsLeast(s: set<string>, p: string -> bool, x: string)
    requires FirstWith(Ascending(s), p, x)
    ensures x in s && p(x) && forall y | y in s && p(y) :: Le(x, y)
    decreases |s|
  {
    var r := Ascending(s);
    var i :| 0 <= i < |r| && r[i] == x && p(x) && forall j | 0 <= j < i :: !p(r[j]);
    assert x in r;
    if i > 0 {
      var m := Least(s);
      var rest := Ascending(s - {m});
      assert r == [m] + rest && !p(r[0]);
      assert rest[i - 1] == x && forall j | 0 <= j < i - 1 :: rest[j] == r[j + 1];
      assert FirstWith(rest, p, x);
      FirstIsLeast(s - {m}, p, x);
    }
  }
}
