/** Datatypes, predicates and arithmetic shared by the other modules. */
module Common {

  datatype Option<+T> = None | Some(value: T)

  newtype Byte = x: int | 0 <= x < 256

  /** True iff no value occurs twice in `s`. */
  ghost predicate NoDuplicates<T>(s: seq<T>) {
    forall i, j :: 0 <= i < j < |s| ==> s[i] != s[j]
  }

  function Min(a: nat, b: nat): nat { if a <= b then a else b }

  lemma MulMono(a: int, b: int, c: nat)
    requires a <= b
    ensures a * c <= b * c
  {
  }

  /** Different multiples of `c` are at least `c` apart. */
  lemma MulStrict(a: int, b: int, c: nat)
    ensures a < b ==> c * a + c <= c * b
  {
    if a < b {
      MulMono(a + 1, b, c);
      assert c * (a + 1) == c * a + c;
    }
  }

  lemma Distribute(x: int, y: int, c: int)
    ensures (x + y) * c == x * c + y * c == c * (x + y)
    ensures (x - y) * c == x * c - y * c == c * (x - y)
  {
  }

  /** Quotient and remainder are unique. */
  lemma DivMod(c: nat, q: int, y: nat)
    requires y < c
    ensures (c * q + y) / c == q && (c * q + y) % c == y
  {
    var x := c * q + y;
    var d := x / c;
    assert x == c * d + x % c && 0 <= x % c < c;
    MulStrict(d, q, c);
    MulStrict(q, d, c);
  }
}
