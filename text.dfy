/** The few pieces of Ruby's String and Integer behaviour the puzzle scripts
    depend on: `Integer#to_s`, `String#to_i`, `String#split` with a string
    separator, `Array#join` and `String#chomp`. */
module Text {

  predicate IsDigit(c: char) { '0' <= c <= '9' }

  function DigitValue(c: char): (d: nat)
    requires IsDigit(c)
    ensures d < 10
  {
    c as int - '0' as int
  }

  function DigitChar(d: nat): (c: char)
    requires d < 10
    ensures IsDigit(c) && DigitValue(c) == d
  {
    ('0' as int + d) as char
  }

  predicate AllDigits(s: string) { forall i :: 0 <= i < |s| ==> IsDigit(s[i]) }

  /** Decimal digits of a natural number, most significant first, no leading zero. */
  function NatToString(n: nat): (s: string)
    ensures |s| > 0 && AllDigits(s)
    ensures n > 0 ==> s[0] != '0'
    decreases n
  {
    if n < 10 then [DigitChar(n)] else NatToString(n / 10) + [DigitChar(n % 10)]
  }

  /** Ruby's `Integer#to_s`. */
  function IntToString(n: int): (s: string)
    ensures |s| > 0
  {
    if n < 0 then "-" + NatToString(-n) else NatToString(n)
  }

  /** The value of a string of decimal digits, most significant first. */
  function DigitsValue(s: string): nat
    requires AllDigits(s)
  {
    if s == [] then 0 else DigitsValue(s[..|s| - 1]) * 10 + DigitValue(s[|s| - 1])
  }

  /** The longest prefix of `s` made of decimal digits. */
  function LeadingDigits(s: string): (p: string)
    ensures AllDigits(p) && p <= s
    ensures |p| < |s| ==> !IsDigit(s[|p|])
  {
    if s != [] && IsDigit(s[0]) then [s[0]] + LeadingDigits(s[1..]) else []
  }

  predicate IsSpace(c: char) {
    c == ' ' || c == '\t' || c == '\n' || c == '\r' || c as int == 11 || c as int == 12
  }

  function SkipSpace(s: string): (t: string)
    ensures |t| <= |s| && t == s[|s| - |t|..]
    ensures t != [] ==> !IsSpace(t[0])
  {
    if s != [] && IsSpace(s[0]) then SkipSpace(s[1..]) else s
  }

  /** Ruby's `String#to_i`: leading white space, an optional sign, then the
      longest run of digits; anything that does not start a number reads as 0.
      Ruby also reads an underscore between digits as a separator ("1_000" is
      1000); this reading stops at the underscore. */
  function ToI(s: string): int
  {
    var t := SkipSpace(s);
    if t != [] && t[0] == '-' then -(DigitsValue(LeadingDigits(t[1..])) as int)
    else if t != [] && t[0] == '+' then DigitsValue(LeadingDigits(t[1..]))
    else DigitsValue(LeadingDigits(t))
  }

  /** Ruby's `to_i` on a one-character string: a digit's value, otherwise 0
      (`CharToIIsToI`). */
  function CharToI(c: char): nat
  {
    if IsDigit(c) then DigitValue(c) else 0
  }

  /** `CharToI` is `String#to_i` on the one-character string. */
  lemma CharToIIsToI(c: char)
    ensures CharToI(c) == ToI([c])
  {
    if IsDigit(c) {
      ToIOfDigits([c]);
      assert [c][..0] == [];
    } else {
      assert LeadingDigits([c]) == [] && LeadingDigits([c][1..]) == [];
    }
  }

  lemma {:induction false} DigitsValueOfNatToString(n: nat)
    ensures DigitsValue(NatToString(n)) == n
    decreases n
  {
    var s := NatToString(n);
    if n >= 10 {
      DigitsValueOfNatToString(n / 10);
      assert s[..|s| - 1] == NatToString(n / 10);
    }
  }

  lemma LeadingDigitsOfDigits(s: string)
    requires AllDigits(s)
    ensures LeadingDigits(s) == s
  {
  }

  lemma SkipNoSpace(s: string)
    requires s != [] && !IsSpace(s[0])
    ensures SkipSpace(s) == s
  {
  }

  lemma ToIOfDigits(s: string)
    requires |s| > 0 && AllDigits(s)
    ensures ToI(s) == DigitsValue(s)
  {
    SkipNoSpace(s);
    LeadingDigitsOfDigits(s);
  }

  lemma ToIOfNegDigits(s: string)
    requires |s| > 0 && AllDigits(s)
    ensures ToI("-" + s) == -(DigitsValue(s) as int)
  {
    var t := "-" + s;
    SkipNoSpace(t);
    assert t[1..] == s;
    LeadingDigitsOfDigits(s);
  }

  /** `to_i` reads back what `to_s` wrote. */
  lemma ToIOfIntToString(n: int)
    ensures ToI(IntToString(n)) == n
  {
    if n < 0 {
      ToIOfNegDigits(NatToString(-n));
      DigitsValueOfNatToString(-n);
    } else {
      ToIOfDigits(NatToString(n));
      DigitsValueOfNatToString(n);
    }
  }

  /** The fields of `s` between the occurrences of `sep`, scanning left to
      right, before Ruby drops the trailing empty ones. */
  function Fields(s: string, sep: string): (r: seq<string>)
    requires |sep| > 0
    ensures |r| > 0
    decreases |s|
  {
    if |s| < |sep| then [s]
    else if s[..|sep|] == sep then [""] + Fields(s[|sep|..], sep)
    else
      var rest := Fields(s[1..], sep);
      [[s[0]] + rest[0]] + rest[1..]
  }

  function DropTrailingEmpty(fs: seq<string>): (r: seq<string>)
    ensures r <= fs
    ensures r == [] || r[|r| - 1] != ""
    ensures forall i :: |r| <= i < |fs| ==> fs[i] == ""
  {
    if fs == [] then []
    else if fs[|fs| - 1] == "" then DropTrailingEmpty(fs[..|fs| - 1])
    else fs
  }

  /** Ruby's `String#split` with a non-empty string separator (and no limit). */
  function Split(s: string, sep: string): seq<string>
    requires |sep| > 0
  {
    DropTrailingEmpty(Fields(s, sep))
  }

  /** Ruby's `Array#join`. */
  function Join(parts: seq<string>, sep: string): string
  {
    if parts == [] then ""
    else if |parts| == 1 then parts[0]
    else parts[0] + sep + Join(parts[1..], sep)
  }

  /** Ruby's `String#chomp` without an argument: one trailing line break. */
  function Chomp(s: string): (t: string)
    ensures t <= s && |s| - 2 <= |t|
  {
    if |s| >= 2 && s[|s| - 2..] == "\r\n" then s[..|s| - 2]
    else if |s| >= 1 && (s[|s| - 1] == '\n' || s[|s| - 1] == '\r') then s[..|s| - 1]
    else s
  }

  /** `chomp` leaves a line without breaks alone, and takes off one newline after it. */
  lemma ChompPlain(t: string)
    requires Avoids(t, '\n') && Avoids(t, '\r')
    ensures Chomp(t) == t && Chomp(t + "\n") == t
  {
    var u := t + "\n";
    if |t| > 0 {
      assert t[|t| - 1] != '\n' && t[|t| - 1] != '\r';
      assert u[|u| - 2] == t[|t| - 1];
      assert u[|u| - 2..] != "\r\n" by {
        assert u[|u| - 2..][0] == u[|u| - 2];
      }
    }
    assert u[..|u| - 1] == t;
  }

  /** `c` does not occur in `p`. */
  predicate Avoids(p: string, c: char) { forall j :: 0 <= j < |p| ==> p[j] != c }

  /** `sep[k]` occurs in `sep` only at position `k`. */
  predicate UniqueAt(sep: string, k: nat)
  {
    k < |sep| && forall j :: 0 <= j < |sep| && j != k ==> sep[j] != sep[k]
  }

  /** `sep[k]` is unique in `sep` and occurs in no part: then the only
      occurrences of `sep` in the joined text are the ones `Join` put there. */
  predicate Separates(parts: seq<string>, sep: string, k: nat)
  {
    UniqueAt(sep, k) && forall i :: 0 <= i < |parts| ==> Avoids(parts[i], sep[k])
  }

  lemma {:induction false} FieldsOfPlain(p: string, sep: string, k: nat)
    requires UniqueAt(sep, k) && Avoids(p, sep[k])
    ensures Fields(p, sep) == [p]
    decreases |p|
  {
    if |p| >= |sep| {
      assert p[..|sep|][k] == p[k];
      FieldsOfPlain(p[1..], sep, k);
      assert [p[0]] + p[1..] == p;
    }
  }

  lemma {:induction false} FieldsOfSeparated(p: string, sep: string, rest: string, k: nat)
    requires UniqueAt(sep, k) && Avoids(p, sep[k])
    ensures Fields(p + sep + rest, sep) == [p] + Fields(rest, sep)
    decreases |p|
  {
    var s := p + sep + rest;
    if p == [] {
      assert s[..|sep|] == sep && s[|sep|..] == rest;
    } else {
      assert s[..|sep|][k] != sep[k] by {
        if k < |p| {
          assert s[k] == p[k];
        } else {
          assert s[k] == sep[k - |p|];
        }
      }
      assert s[1..] == p[1..] + sep + rest;
      FieldsOfSeparated(p[1..], sep, rest, k);
      assert [p[0]] + p[1..] == p;
    }
  }

  lemma {:induction false} FieldsOfJoin(parts: seq<string>, sep: string, k: nat)
    requires |parts| > 0 && Separates(parts, sep, k)
    ensures Fields(Join(parts, sep), sep) == parts
    decreases |parts|
  {
    if |parts| == 1 {
      FieldsOfPlain(parts[0], sep, k);
    } else {
      assert Separates(parts[1..], sep, k) by {
        forall i | 0 <= i < |parts| - 1 ensures Avoids(parts[1..][i], sep[k]) {
          assert parts[1..][i] == parts[i + 1];
        }
      }
      FieldsOfSeparated(parts[0], sep, Join(parts[1..], sep), k);
      FieldsOfJoin(parts[1..], sep, k);
    }
  }

  /** Splitting what was joined gives the parts back, provided the last part is
      not empty (Ruby would drop it) and the separator is recognisable. */
  lemma SplitJoin(parts: seq<string>, sep: string, k: nat)
    requires Separates(parts, sep, k)
    requires parts == [] || parts[|parts| - 1] != ""
    ensures Split(Join(parts, sep), sep) == parts
  {
    if parts == [] {
      assert Fields("", sep) == [""];
    } else {
      FieldsOfJoin(parts, sep, k);
    }
  }

  /** Ruby's `str.split(',').map(&:to_i)`. */
  function ParseInts(s: string): (r: seq<int>)
    ensures |r| == |Split(s, ",")|
    ensures forall i :: 0 <= i < |r| ==> r[i] == ToI(Split(s, ",")[i])
  {
    var fields := Split(s, ",");
    seq(|fields|, i requires 0 <= i < |fields| => ToI(fields[i]))
  }

  /** The decimal text of the integers, joined with commas. */
  function ShowInts(p: seq<int>): string
  {
    Join(ShownInts(p), ",")
  }

  function ShownInts(p: seq<int>): (r: seq<string>)
    ensures |r| == |p| && forall i :: 0 <= i < |p| ==> r[i] == IntToString(p[i])
  {
    seq(|p|, i requires 0 <= i < |p| => IntToString(p[i]))
  }

  lemma IntToStringShape(n: int, c: char)
    requires c == ',' || c == '\n' || c == '\r'
    ensures Avoids(IntToString(n), c)
  {
    var s := NatToString(if n < 0 then -n else n);
    assert AllDigits(s);
  }

  /** Joining keeps out a character that neither the parts nor the separator contain. */
  lemma {:induction false} JoinAvoids(parts: seq<string>, sep: string, c: char)
    requires Avoids(sep, c) && forall i :: 0 <= i < |parts| ==> Avoids(parts[i], c)
    ensures Avoids(Join(parts, sep), c)
    decreases |parts|
  {
    if |parts| > 1 {
      JoinAvoids(parts[1..], sep, c);
      var t := Join(parts, sep);
      var r := Join(parts[1..], sep);
      assert t == parts[0] + sep + r;
      forall j | 0 <= j < |t| ensures t[j] != c {
        if j < |parts[0]| {
          assert t[j] == parts[0][j];
        } else if j < |parts[0]| + |sep| {
          assert t[j] == sep[j - |parts[0]|];
        } else {
          assert t[j] == r[j - |parts[0]| - |sep|];
        }
      }
    }
  }

  lemma ShowIntsHasNoBreak(p: seq<int>)
    ensures Avoids(ShowInts(p), '\n') && Avoids(ShowInts(p), '\r')
  {
    var parts := ShownInts(p);
    forall i | 0 <= i < |parts| ensures Avoids(parts[i], '\n') && Avoids(parts[i], '\r') {
      IntToStringShape(p[i], '\n');
      IntToStringShape(p[i], '\r');
    }
    JoinAvoids(parts, ",", '\n');
    JoinAvoids(parts, ",", '\r');
  }

  /** Reading back the comma-joined decimal text of a program gives the program. */
  lemma ParseShowInts(p: seq<int>)
    ensures ParseInts(ShowInts(p)) == p
  {
    var parts := ShownInts(p);
    forall i | 0 <= i < |parts| ensures Avoids(parts[i], ',') {
      IntToStringShape(p[i], ',');
    }
    assert UniqueAt(",", 0);
    SplitJoin(parts, ",", 0);
    forall i | 0 <= i < |p| ensures ToI(parts[i]) == p[i] {
      ToIOfIntToString(p[i]);
    }
  }
}
