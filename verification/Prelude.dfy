/** Result types, bytes and the few sequence facts that every other module shares. */
module Prelude {

  datatype Option<+T> = None | Some(value: T)

  datatype Result<+T, +E> = Ok(value: T) | Err(error: E)

  type Byte = b: int | 0 <= b < 256

  type Bytes = seq<Byte>

  /** The number of elements of s that satisfy p. */
  function Count<T>(s: seq<T>, p: T -> bool): nat {
    if s == [] then 0 else Count(s[..|s| - 1], p) + (if p(s[|s| - 1]) then 1 else 0)
  }

  /** The index of the first place where pat occurs in s. */
  function Find(s: string, pat: string): (r: Option<nat>)
    ensures r.Some? ==> r.value + |pat| <= |s|
  {
    if pat <= s then Some(0)
    else if s == "" then None
    else
      match Find(s[1..], pat)
      case None => None
      case Some(i) => Some(i + 1)
  }

  /** No occurrence lies in front of the one that is found, and none anywhere when none is found. */
  lemma {:induction false} FindIsFirst(s: string, pat: string, j: nat)
    requires j <= |s| && pat <= s[j..]
    ensures Find(s, pat).Some? && Find(s, pat).value <= j
  {
    if j == 0 {
      assert s[0..] == s;
    } else if !(pat <= s) {
      assert s[1..][j - 1..] == s[j..];
      FindIsFirst(s[1..], pat, j - 1);
    }
  }

  /** The first occurrence is found. */
  lemma {:induction false} FindAt(s: string, pat: string, i: nat)
    requires i <= |s| && pat <= s[i..]
    requires forall j :: 0 <= j < i ==> !(pat <= s[j..])
    ensures Find(s, pat) == Some(i)
  {
    assert s[0..] == s;
    if i > 0 {
      assert s[1..][i - 1..] == s[i..];
      forall j | 0 <= j < i - 1 ensures !(pat <= s[1..][j..]) {
        assert s[1..][j..] == s[j + 1..];
      }
      FindAt(s[1..], pat, i - 1);
    }
  }

  lemma {:induction false} FindAbsent(s: string, c: char)
    requires c !in s
    ensures Find(s, [c]).None?
  {
    if s != "" {
      assert [c][0] != s[0];
      FindAbsent(s[1..], c);
    }
  }

  // ----- division

  lemma {:induction false} MultiplesLieApart(d: int, z: int)
    requires d > 0
    ensures z > 0 ==> d * z >= d
    ensures z < 0 ==> d * z <= 0 - d
    decreases if z < 0 then 0 - z else z
  {
    if z > 1 {
      MultiplesLieApart(d, z - 1);
      assert d * z == d * (z - 1) + d;
    } else if z < -1 {
      MultiplesLieApart(d, z + 1);
      assert d * z == d * (z + 1) - d;
    }
  }

  lemma DivideUnique(n: nat, d: nat, x: int, r: int)
    requires d > 0 && n == d * x + r && 0 <= r < d
    ensures n / d == x
  {
    var y, m := n / d, n % d;
    assert d * (y - x) == r - m;
    MultiplesLieApart(d, y - x);
  }

  lemma DivideTwice(n: nat, a: nat, p: nat)
    requires a > 0 && p > 0
    ensures a * p > 0 && n / a / p == n / (a * p)
  {
    var q, r := n / a, n % a;
    var x, y := q / p, q % p;
    assert n == a * (p * x + y) + r;
    assert a * (p * x + y) == a * p * x + a * y;
    MultiplesLieApart(p, a);
    assert a * p >= p;
    Below(a, p, y, r);
    DivideUnique(n, a * p, x, a * y + r);
  }

  lemma Below(a: int, p: int, y: int, r: int)
    requires a > 0 && 0 <= y < p && 0 <= r < a
    ensures 0 <= a * y + r < a * p
  {
    assert a * p == a * y + a * (p - y);
    MultiplesLieApart(a, p - y);
    if y > 0 {
      MultiplesLieApart(a, y);
    }
  }
}
