/** Failure-carrying values shared by every module: Ruby's `nil` becomes
    `None`, and a raised exception becomes `Failure`. */
module Common {

  datatype Option<+T> = None | Some(value: T)

  datatype Result<+T, +E> = Success(value: T) | Failure(error: E) {
    predicate IsFailure() { Failure? }
    function PropagateFailure<U>(): Result<U, E>
      requires Failure?
    {
      Failure(error)
    }
    function Extract(): T
      requires Success?
    {
      value
    }
  }

  function Max(a: int, b: int): int { if a < b then b else a }

  // ---------------------------------------------------------------------
  // Decimal digits

  function Pow10(i: nat): (r: int)
    ensures r >= 1
  {
    if i == 0 then 1 else 10 * Pow10(i - 1)
  }

  /** Decimal digit `i` of `x`, counting from the least significant (Ruby's
      `x / 10**i % 10`, which floors like Dafny's `/` for positive divisors). */
  function Digit(x: int, i: nat): int
  {
    x / Pow10(i) % 10
  }

  lemma DivUnique(a: int, d: int, q: int, s: int)
    requires d > 0 && a == d * q + s && 0 <= s < d
    ensures a / d == q
  {
    var k := q - a / d;
    assert d * k == a % d - s;
    MulAwayFromZero(d, k);
  }

  lemma MulAwayFromZero(d: int, k: int)
    requires d > 0
    ensures k >= 1 ==> d * k >= d
    ensures k <= -1 ==> d * k <= -d
  {
    if k >= 1 {
      assert d * k == d + d * (k - 1);
    } else if k <= -1 {
      assert d * k == -d + d * (k + 1);
    }
  }

  /** Dividing twice is dividing by the product. */
  lemma DivDiv(a: int, b: int, c: int)
    requires b > 0 && c > 0
    ensures a / b / c == a / (b * c)
  {
    var q := a / b / c;
    var r1 := a % b;
    var r2 := (a / b) % c;
    assert a == b * (c * q + r2) + r1;
    assert a == (b * c) * q + (b * r2 + r1);
    assert b * r2 <= b * (c - 1);
    DivUnique(a, b * c, q, b * r2 + r1);
  }

  /** Dropping the last `k` digits shifts the digit positions down by `k`. */
  lemma DigitShift(x: int, k: nat, i: nat)
    ensures Digit(x / Pow10(k), i) == Digit(x, k + i)
    decreases k
  {
    DivDiv(x, Pow10(k), Pow10(i));
    Pow10Add(k, i);
  }

  lemma {:induction false} Pow10Add(k: nat, i: nat)
    ensures Pow10(k) * Pow10(i) == Pow10(k + i)
    decreases k
  {
    if k > 0 {
      Pow10Add(k - 1, i);
      assert Pow10(k) * Pow10(i) == 10 * (Pow10(k - 1) * Pow10(i));
    }
  }

  // ---------------------------------------------------------------------
  // Ruby's `Array#&`

  /** Where the first occurrence of `x` in `s` is. */
  function FirstIndex<T(==)>(s: seq<T>, x: T): (i: nat)
    requires x in s
    ensures i < |s| && s[i] == x && forall j :: 0 <= j < i ==> s[j] != x
  {
    if s[0] == x then 0 else 1 + FirstIndex(s[1..], x)
  }

  /** `a & b`: the elements of `a` that are also in `b`, each once, in the
      order of their first occurrence in `a`. */
  function Intersect<T(==,!new)>(a: seq<T>, b: seq<T>): (r: seq<T>)
    ensures forall x :: x in r <==> x in a && x in b
    ensures forall i, j :: 0 <= i < j < |r| ==> r[i] != r[j]
    ensures forall i, j :: 0 <= i < j < |r| ==> FirstIndex(a, r[i]) < FirstIndex(a, r[j])
  {
    if a == [] then []
    else
      var init, last := a[..|a| - 1], a[|a| - 1];
      var r := Intersect(init, b);
      FirstIndexPrefix(a, init);
      if last in b && last !in r then
        assert last !in init;
        assert FirstIndex(a, last) == |a| - 1;
        r + [last]
      else r
  }

  /** Elements of a prefix are found first in that prefix. */
  lemma FirstIndexPrefix<T>(a: seq<T>, init: seq<T>)
    requires init <= a
    ensures forall x :: x in init ==> FirstIndex(a, x) == FirstIndex(init, x)
  {
    forall x | x in init ensures FirstIndex(a, x) == FirstIndex(init, x) {
      var i := FirstIndex(init, x);
      assert a[i] == x;
      var k := FirstIndex(a, x);
      assert k <= i;
      assert init[k] == a[k];
    }
  }

  /** The first element of `a & b` is the earliest element of `a` found in `b`. */
  lemma IntersectFirst<T(!new)>(a: seq<T>, b: seq<T>)
    requires Intersect(a, b) != []
    ensures var x := Intersect(a, b)[0];
      x in a && x in b && forall i :: 0 <= i < |a| && a[i] in b ==> FirstIndex(a, x) <= i
  {
    var r := Intersect(a, b);
    var x := r[0];
    forall i | 0 <= i < |a| && a[i] in b ensures FirstIndex(a, x) <= i {
      var y := a[i];
      var j :| 0 <= j < |r| && r[j] == y;
      assert FirstIndex(a, y) <= i;
      if j > 0 {
        assert FirstIndex(a, x) < FirstIndex(a, y);
      }
    }
  }
}
