/** Small vocabulary shared by every module: options, results, object names,
    16-bit ports and a fallible map over a sequence. */
module Base {
  datatype Option<+T> = None | Some(value: T)

  datatype Result<+T> = Ok(value: T) | Err

  /** The name of a namespaced Kubernetes object. */
  datatype Id = Id(ns: string, name: string)

  type u16 = n: int | 0 <= n < 0x1_0000

  predicate EndsWith(s: string, suffix: string) {
    |suffix| <= |s| && s[|s| - |suffix|..] == suffix
  }

  /** `iter().map(f).collect::<Result<Vec<_>>>()`. */
  function Collect<A, B>(f: A -> Result<B>, xs: seq<A>): Result<seq<B>> {
    if xs == [] then Ok([])
    else match f(xs[0])
      case Err => Err
      case Ok(y) =>
        match Collect(f, xs[1..])
        case Err => Err
        case Ok(ys) => Ok([y] + ys)
  }

  /** Collecting succeeds exactly when every element converts, and then element by element. */
  lemma {:induction false} CollectMeaning<A, B>(f: A -> Result<B>, xs: seq<A>)
    ensures Collect(f, xs).Ok? <==> forall i | 0 <= i < |xs| :: f(xs[i]).Ok?
    ensures Collect(f, xs).Ok? ==>
              && |Collect(f, xs).value| == |xs|
              && forall i | 0 <= i < |xs| :: f(xs[i]) == Ok(Collect(f, xs).value[i])
  {
    if xs != [] {
      CollectMeaning(f, xs[1..]);
      assert forall i | 1 <= i < |xs| :: xs[i] == xs[1..][i - 1];
      if forall i | 0 <= i < |xs| :: f(xs[i]).Ok? {
        assert forall i | 0 <= i < |xs[1..]| :: f(xs[1..][i]).Ok?;
      }
      if Collect(f, xs).Ok? {
        var ys := Collect(f, xs).value;
        assert ys[1..] == Collect(f, xs[1..]).value;
        forall i | 0 <= i < |xs|
          ensures f(xs[i]) == Ok(ys[i])
        {
          if i > 0 {
            assert ys[i] == ys[1..][i - 1];
          }
        }
      }
    }
  }

  function Get<V>(m: map<string, V>, x: string): Option<V> {
    if x in m then Some(m[x]) else None
  }

  lemma SameMap<V>(m: map<string, V>, m': map<string, V>)
    requires forall x :: Get(m, x) == Get(m', x)
    ensures m == m'
  {
    assert forall x | x in m :: Get(m, x) == Get(m', x);
    assert forall x | x in m' :: Get(m, x) == Get(m', x);
  }
}
