/** Small vocabulary shared by the models. */
module Prelude {

  datatype Option<+T> = None | Some(value: T)

  /** No two entries of the list share a key. */
  ghost predicate DistinctBy<T, K>(l: seq<T>, key: T -> K) {
    forall i, j :: 0 <= i < j < |l| ==> key(l[i]) != key(l[j])
  }

  ghost function KeysBy<T, K(!new)>(l: seq<T>, key: T -> K): set<K> {
    set i | 0 <= i < |l| :: key(l[i])
  }

  lemma KeysByAppend<T, K(!new)>(l: seq<T>, m: seq<T>, key: T -> K)
    ensures KeysBy(l + m, key) == KeysBy(l, key) + KeysBy(m, key)
  {
    var u := l + m;
    forall i | 0 <= i < |m| ensures key(m[i]) in KeysBy(u, key) {
      assert u[|l| + i] == m[i];
    }
    forall i | 0 <= i < |l| ensures key(l[i]) in KeysBy(u, key) {
      assert u[i] == l[i];
    }
  }

  /** A list with distinct keys is as long as its set of keys is large. */
  lemma {:induction false} DistinctCount<T, K(!new)>(l: seq<T>, key: T -> K)
    requires DistinctBy(l, key)
    ensures |KeysBy(l, key)| == |l|
  {
    if l != [] {
      var n := |l| - 1;
      DistinctCount(l[..n], key);
      assert l == l[..n] + [l[n]];
      KeysByAppend(l[..n], [l[n]], key);
      assert KeysBy([l[n]], key) == {key([l[n]][0])};
    } else {
      assert KeysBy(l, key) == {};
    }
  }

  lemma KeysByOne<T, K(!new)>(x: T, key: T -> K)
    ensures KeysBy([x], key) == {key(x)}
  {
    assert [x][0] == x;
    assert key([x][0]) in KeysBy([x], key);
  }

  /** Decimal notation. */
  function Digits(n: nat): (s: string)
    ensures s != [] && forall c :: c in s ==> '0' <= c <= '9'
    ensures |s| > 1 ==> s[0] != '0'
  {
    if n < 10 then [n as char + '0'] else Digits(n / 10) + [(n % 10) as char + '0']
  }

  lemma {:induction false} DigitsInjective(m: nat, n: nat)
    requires Digits(m) == Digits(n)
    ensures m == n
  {
    if m >= 10 && n >= 10 {
      var a, b := Digits(m / 10), Digits(n / 10);
      assert a == Digits(m)[..|Digits(m)| - 1] && b == Digits(n)[..|Digits(n)| - 1];
      DigitsInjective(m / 10, n / 10);
      assert Digits(m)[|a|] == Digits(n)[|b|];
    }
  }
}
