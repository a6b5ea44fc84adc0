/** Day 4: the password rules, checked on the decimal text of a number. The
    two rules written as folds with a captured flag are methods with loops;
    the others are predicates. */
module Day4 {
  import opened Common
  import Text

  const RangeMin := 171309
  const RangeMax := 643603

  /** `n.to_s` */
  function Digits(n: int): string
  {
    Text.IntToString(n)
  }

  /** `check_digits(n)`: the decimal text has six characters. */
  predicate CheckDigits(n: int)
  {
    |Digits(n)| == 6
  }

  /** `check_range(n)`, both ends included. */
  predicate CheckRange(n: int)
  {
    RangeMin <= n <= RangeMax
  }

  /** The character the fold compares position `i` with: the one before, or
      the seed `'0'` at the start. */
  function Prev(s: string, i: nat): char
    requires i < |s|
  {
    if i == 0 then '0' else s[i - 1]
  }

  /** Two neighbouring characters are equal. */
  predicate HasAdjacentPair(s: string)
  {
    exists i :: 0 < i < |s| && s[i - 1] == s[i]
  }

  /** No character reads as a larger number than the one after it. */
  predicate NonDecreasing(s: string)
  {
    forall i :: 0 < i < |s| ==> Text.CharToI(s[i - 1]) <= Text.CharToI(s[i])
  }

  /** `check_adjacency(n)`: the fold from `'0'` sets the flag when a
      character equals the one before it, so a leading zero also counts. */
  method CheckAdjacency(n: int) returns (result: bool)
    ensures result <==> Digits(n)[0] == '0' || HasAdjacentPair(Digits(n))
  {
    var s := Digits(n);
    result := false;
    var prev := '0';
    for i := 0 to |s|
      invariant prev == (if i == 0 then '0' else s[i - 1])
      invariant result <==> exists j :: 0 <= j < i && Prev(s, j) == s[j]
    {
      if prev == s[i] {
        result := true;
      }
      prev := s[i];
    }
    if Digits(n)[0] == '0' {
      assert Prev(s, 0) == s[0];
    }
    if HasAdjacentPair(s) {
      var j :| 0 < j < |s| && s[j - 1] == s[j];
      assert Prev(s, j) == s[j];
    }
  }

  /** The decimal text of `n` starts with `'0'` only for zero itself. */
  lemma LeadingZero(n: int)
    ensures Digits(n)[0] == '0' <==> n == 0
  {
  }

  /** `check_increase(n)`: the fold from `'0'` clears the flag when a
      character reads larger than the one after it. */
  method CheckIncrease(n: int) returns (result: bool)
    ensures result <==> NonDecreasing(Digits(n))
  {
    var s := Digits(n);
    result := true;
    var prev := '0';
    for i := 0 to |s|
      invariant prev == (if i == 0 then '0' else s[i - 1])
      invariant result <==> forall j :: 0 <= j < i ==> Text.CharToI(Prev(s, j)) <= Text.CharToI(s[j])
    {
      if Text.CharToI(prev) > Text.CharToI(s[i]) {
        result := false;
      }
      prev := s[i];
    }
    if NonDecreasing(s) {
      forall j | 0 <= j < |s| ensures Text.CharToI(Prev(s, j)) <= Text.CharToI(s[j]) {
        if j == 0 {
          assert Text.CharToI('0') == 0;
        }
      }
    }
  }

  /** `check_adjacency_p2(n)`: grouping the characters, some group has
      exactly two members. */
  predicate CheckAdjacencyP2(n: int)
  {
    var s := Digits(n);
    exists i :: 0 <= i < |s| && multiset(s)[s[i]] == 2
  }

  /** The conjunction `check` computes. */
  predicate Part1(n: int)
  {
    CheckDigits(n) && CheckRange(n) && NonDecreasing(Digits(n))
    && (Digits(n)[0] == '0' || HasAdjacentPair(Digits(n)))
  }

  /** The conjunction `check_p2` computes. */
  predicate Part2(n: int)
  {
    CheckDigits(n) && CheckRange(n) && NonDecreasing(Digits(n)) && CheckAdjacencyP2(n)
  }

  /** `check(n)` */
  method Check(n: int) returns (b: bool)
    ensures b == Part1(n)
  {
    b := CheckDigits(n) && CheckRange(n);
    if b {
      b := CheckIncrease(n);
      if b {
        b := CheckAdjacency(n);
      }
    }
  }

  /** `check_p2(n)` */
  method CheckP2(n: int) returns (b: bool)
    ensures b == Part2(n)
  {
    b := CheckDigits(n) && CheckRange(n);
    if b {
      b := CheckIncrease(n);
      b := b && CheckAdjacencyP2(n);
    }
  }

  /** `check_test(n)`: the second part's rules without the range. */
  method CheckTest(n: int) returns (b: bool)
    ensures b <==> CheckDigits(n) && CheckAdjacencyP2(n) && NonDecreasing(Digits(n))
  {
    b := CheckDigits(n) && CheckAdjacencyP2(n);
    if b {
      b := CheckIncrease(n);
    }
  }

  // ---------------------------------------------------------------------
  // Properties

  /** Exactly the numbers with six digits, or with a minus sign and five. */
  lemma CheckDigitsMeaning(n: int)
    ensures CheckDigits(n) <==> 100000 <= n <= 999999 || -99999 <= n <= -10000
  {
    var m := if n < 0 then -n else n;
    var len := |Text.NatToString(m)|;
    NatToStringLength(m);
    assert Pow10(4) == 10000 && Pow10(5) == 100000 && Pow10(6) == 1000000;
    if len <= 4 {
      Pow10Mono(len, 4);
    } else if len >= 7 {
      Pow10Mono(6, len - 1);
    } else if len == 5 {
      Pow10Mono(len, 5);
    }
  }

  lemma {:induction false} Pow10Mono(i: nat, j: nat)
    requires i <= j
    ensures Pow10(i) <= Pow10(j)
    decreases j
  {
    if i < j {
      Pow10Mono(i, j - 1);
    }
  }

  /** A number written with `k` digits lies below `10^k`, and at or above
      `10^(k-1)` when it has more than one. */
  lemma {:induction false} NatToStringLength(n: nat)
    ensures var k := |Text.NatToString(n)|;
      n < Pow10(k) && (k > 1 ==> Pow10(k - 1) <= n)
    decreases n
  {
    if n >= 10 {
      NatToStringLength(n / 10);
      var k := |Text.NatToString(n / 10)|;
      assert |Text.NatToString(n)| == k + 1;
      if k == 1 {
        assert Pow10(1) == 10;
      }
    }
  }

  /** With non-decreasing digits, the order holds between any two positions. */
  lemma {:induction false} NonDecreasingSorted(s: string, i: nat, j: nat)
    requires NonDecreasing(s) && i <= j < |s|
    ensures Text.CharToI(s[i]) <= Text.CharToI(s[j])
    decreases j - i
  {
    if i < j {
      NonDecreasingSorted(s, i + 1, j);
    }
  }

  /** A character occurring twice occurs at two positions. */
  lemma {:induction false} TwoPositions(s: string, c: char)
    requires multiset(s)[c] >= 2
    ensures exists i, j :: 0 <= i < j < |s| && s[i] == c && s[j] == c
    decreases |s|
  {
    assert s == [s[0]] + s[1..];
    if s[0] == c {
      assert c in multiset(s[1..]);
      var j :| 0 <= j < |s[1..]| && s[1..][j] == c;
      assert s[j + 1] == c;
    } else {
      TwoPositions(s[1..], c);
      var i, j :| 0 <= i < j < |s[1..]| && s[1..][i] == c && s[1..][j] == c;
      assert s[i + 1] == c && s[j + 1] == c;
    }
  }

  /** Two digits that read as the same number are the same digit. */
  lemma SameValueSameDigit(a: char, b: char)
    requires Text.IsDigit(a) && Text.IsDigit(b) && Text.CharToI(a) == Text.CharToI(b)
    ensures a == b
  {
  }

  /** `check_p2(n)` implies `check(n)`: in non-decreasing digits the two
      copies of a digit that occurs exactly twice sit side by side. */
  lemma Part2ImpliesPart1(n: int)
    requires Part2(n)
    ensures Part1(n)
  {
    var s := Digits(n);
    assert n >= 0;
    assert Text.AllDigits(s);
    var k :| 0 <= k < |s| && multiset(s)[s[k]] == 2;
    TwoPositions(s, s[k]);
    var i, j :| 0 <= i < j < |s| && s[i] == s[k] && s[j] == s[k];
    NonDecreasingSorted(s, i, i + 1);
    NonDecreasingSorted(s, i + 1, j);
    SameValueSameDigit(s[i], s[i + 1]);
    assert s[i] == s[i + 1];
  }
}
