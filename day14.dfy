/** Day 14: reactions that turn amounts of some chemicals into an amount of
    another, parsed from `"7 A, 1 B => 1 C"` lines, and the work-list loop
    that breaks a demand down into what must be consumed and produced. */
module Day14 {
  import opened Common
  import Text

  /** `Value = Struct.new(:resource, :amount)` */
  datatype Value = Value(resource: string, amount: int)

  /** `Rule`: what one application consumes, and what it yields. */
  datatype Rule = Rule(requirements: seq<Value>, output: Value)

  // ---------------------------------------------------------------------
  // Parsing

  /** Ruby's `\w` on ASCII text. */
  predicate IsWordChar(c: char)
  {
    ('a' <= c <= 'z') || ('A' <= c <= 'Z') || Text.IsDigit(c) || c == '_'
  }

  predicate IsWord(s: string)
  {
    |s| > 0 && forall i :: 0 <= i < |s| ==> IsWordChar(s[i])
  }

  /** The longest prefix of `s` made of word characters. */
  function LeadingWord(s: string): (p: string)
    ensures p <= s && (forall i :: 0 <= i < |p| ==> IsWordChar(p[i]))
    ensures |p| < |s| ==> !IsWordChar(s[|p|])
  {
    if s != [] && IsWordChar(s[0]) then [s[0]] + LeadingWord(s[1..]) else []
  }

  /** `/(\d+)\s+(\w+)/` matched at the very start of `s`. The greedy runs
      never need to give anything back: a shorter run of digits is followed
      by a digit, not by white space, and a shorter run of white space by
      white space, not by a word character. */
  function MatchHere(s: string): Option<Value>
  {
    var digits := Text.LeadingDigits(s);
    var rest := s[|digits|..];
    var word := Text.SkipSpace(rest);
    var name := LeadingWord(word);
    if digits == [] || |word| == |rest| || name == [] then None
    else Some(Value(name, Text.DigitsValue(digits)))
  }

  /** `parse_value(str)`: the leftmost match of `/(\d+)\s+(\w+)/`, as a
      value of the word and the number, or nil. */
  function ParseValue(s: string): Option<Value>
  {
    if s == [] then None
    else if MatchHere(s).Some? then MatchHere(s)
    else ParseValue(s[1..])
  }

  /** A parsed value names a word and a non-negative amount. */
  lemma {:induction false} ParsedValueShape(s: string)
    ensures ParseValue(s).Some? ==> ParseValue(s).value.amount >= 0 && IsWord(ParseValue(s).value.resource)
  {
    if s != [] && MatchHere(s).None? {
      ParsedValueShape(s[1..]);
    }
  }

  /** Text without a digit holds no value. */
  lemma {:induction false} NoDigitNoValue(s: string)
    requires forall i :: 0 <= i < |s| ==> !Text.IsDigit(s[i])
    ensures ParseValue(s) == None
  {
    if s != [] {
      NoDigitNoValue(s[1..]);
    }
  }

  /** How a value is written in a rule: `"<amount> <resource>"`. */
  function ShowValue(v: Value): string
    requires v.amount >= 0
  {
    Text.NatToString(v.amount) + " " + v.resource
  }

  predicate WellFormedValue(v: Value)
  {
    v.amount >= 0 && IsWord(v.resource)
  }

  lemma {:induction false} LeadingDigitsStop(d: string, rest: string)
    requires Text.AllDigits(d) && rest != [] && !Text.IsDigit(rest[0])
    ensures Text.LeadingDigits(d + rest) == d
    decreases |d|
  {
    if d != [] {
      assert (d + rest)[1..] == d[1..] + rest;
      LeadingDigitsStop(d[1..], rest);
    } else {
      assert d + rest == rest;
    }
  }

  lemma {:induction false} LeadingWordOfWord(w: string)
    requires forall i :: 0 <= i < |w| ==> IsWordChar(w[i])
    ensures LeadingWord(w) == w
    decreases |w|
  {
    if w != [] {
      LeadingWordOfWord(w[1..]);
    }
  }

  /** `parse_value` reads back a value written as `"<amount> <resource>"`. */
  lemma ParseShowValue(v: Value)
    requires WellFormedValue(v)
    ensures ParseValue(ShowValue(v)) == Some(v)
  {
    var digits := Text.NatToString(v.amount);
    var s := ShowValue(v);
    assert s == digits + (" " + v.resource);
    LeadingDigitsStop(digits, " " + v.resource);
    assert s[|digits|..] == " " + v.resource;
    Text.SkipNoSpace(v.resource);
    assert Text.SkipSpace(" " + v.resource) == v.resource by {
      assert (" " + v.resource)[1..] == v.resource;
    }
    LeadingWordOfWord(v.resource);
    Text.DigitsValueOfNatToString(v.amount);
    assert MatchHere(s) == Some(v);
  }

  datatype RuleFault =
    | NoArrow(line: string)       // no `" => "`: Ruby calls a method on nil
    | BadValue(field: string)     // a field that `parse_value` does not read

  /** `parse_value` on each field, stopping at the first that does not read. */
  function ParseValues(fields: seq<string>): (r: Result<seq<Value>, RuleFault>)
    ensures r.Success? ==> |r.value| == |fields|
    ensures r.Success? ==> forall i :: 0 <= i < |fields| ==> Some(r.value[i]) == ParseValue(fields[i])
  {
    if fields == [] then Success([])
    else
      match ParseValue(fields[0])
      case None => Failure(BadValue(fields[0]))
      case Some(v) =>
        var rest :- ParseValues(fields[1..]);
        Success([v] + rest)
  }

  /** A list that does not parse fails on its first field that `parse_value`
      does not read. */
  lemma {:induction false} ParseValuesFailure(fields: seq<string>)
    ensures ParseValues(fields).Failure? ==>
      exists i :: && 0 <= i < |fields| && ParseValue(fields[i]).None?
                  && ParseValues(fields).error == BadValue(fields[i])
                  && forall j :: 0 <= j < i ==> ParseValue(fields[j]).Some?
    decreases |fields|
  {
    if fields != [] {
      var rest := fields[1..];
      var head := ParseValue(fields[0]);
      if head.None? {
        assert ParseValues(fields) == Failure(BadValue(fields[0]));
        assert 0 < |fields| && ParseValue(fields[0]).None?;
      } else if ParseValues(rest).Failure? {
        assert ParseValues(fields) == Failure(ParseValues(rest).error);
        ParseValuesFailure(rest);
        var i :| && 0 <= i < |rest| && ParseValue(rest[i]).None?
                 && ParseValues(rest).error == BadValue(rest[i])
                 && forall j :: 0 <= j < i ==> ParseValue(rest[j]).Some?;
        assert fields[i + 1] == rest[i];
        forall j | 0 <= j < i + 1
          ensures ParseValue(fields[j]).Some?
        {
          if j > 0 {
            assert fields[j] == rest[j - 1];
          }
        }
      }
    }
  }

  /** `parse_rule(str)`: split on `" => "`, the inputs on `", "`. */
  function ParseRule(s: string): Result<Rule, RuleFault>
  {
    var parts := Text.Split(s, " => ");
    if |parts| < 2 then Failure(NoArrow(s))
    else
      var reqs :- ParseValues(Text.Split(parts[0], ", "));
      match ParseValue(parts[1])
      case None => Failure(BadValue(parts[1]))
      case Some(out) => Success(Rule(reqs, out))
  }

  function ShowValues(vs: seq<Value>): (r: seq<string>)
    requires forall i :: 0 <= i < |vs| ==> vs[i].amount >= 0
    ensures |r| == |vs| && forall i :: 0 <= i < |vs| ==> r[i] == ShowValue(vs[i])
  {
    if vs == [] then [] else [ShowValue(vs[0])] + ShowValues(vs[1..])
  }

  predicate WellFormedRule(r: Rule)
  {
    WellFormedValue(r.output) && AllWellFormed(r.requirements)
  }

  predicate AllWellFormed(vs: seq<Value>)
  {
    forall i :: 0 <= i < |vs| ==> vs[i].amount >= 0 && IsWord(vs[i].resource)
  }

  /** A rule as a line of the puzzle input. */
  function ShowRule(r: Rule): string
    requires WellFormedRule(r)
  {
    Text.Join(ShowValues(r.requirements), ", ") + " => " + ShowValue(r.output)
  }

  /** A written value holds no comma and no equals sign. */
  lemma ShowValueAvoids(v: Value, c: char)
    requires WellFormedValue(v) && (c == ',' || c == '=')
    ensures Text.Avoids(ShowValue(v), c)
  {
    var s := ShowValue(v);
    var d := Text.NatToString(v.amount);
    forall j | 0 <= j < |s| ensures s[j] != c {
      if j < |d| {
        assert s[j] == d[j];
      } else if j > |d| {
        assert s[j] == v.resource[j - |d| - 1];
      }
    }
  }

  /** `parse_rule` reads back a rule written as a line. */
  lemma ParseShowRule(r: Rule)
    requires WellFormedRule(r)
    ensures ParseRule(ShowRule(r)) == Success(r)
  {
    var inputs := Text.Join(ShowValues(r.requirements), ", ");
    var output := ShowValue(r.output);
    SplitShownValues(r.requirements);
    ShowValueAvoids(r.output, '=');
    assert Text.UniqueAt(" => ", 1);
    assert Text.Join([inputs, output], " => ") == ShowRule(r);
    Text.SplitJoin([inputs, output], " => ", 1);
    ParseShownValues(r.requirements);
    ParseShowValue(r.output);
  }

  /** The written inputs of a rule split back on `", "`, and hold no `'='`. */
  lemma SplitShownValues(vs: seq<Value>)
    requires AllWellFormed(vs)
    ensures Text.Split(Text.Join(ShowValues(vs), ", "), ", ") == ShowValues(vs)
    ensures Text.Avoids(Text.Join(ShowValues(vs), ", "), '=')
  {
    var shown := ShowValues(vs);
    forall i | 0 <= i < |shown| ensures Text.Avoids(shown[i], ',') && Text.Avoids(shown[i], '=') {
      ShowValueAvoids(vs[i], ',');
      ShowValueAvoids(vs[i], '=');
    }
    assert Text.UniqueAt(", ", 0);
    Text.SplitJoin(shown, ", ", 0);
    Text.JoinAvoids(shown, ", ", '=');
  }

  lemma ParseShownValues(vs: seq<Value>)
    requires AllWellFormed(vs)
    ensures ParseValues(ShowValues(vs)) == Success(vs)
  {
    var shown := ShowValues(vs);
    forall i | 0 <= i < |shown| ensures ParseValue(shown[i]) == Some(vs[i]) {
      ParseShowValue(vs[i]);
    }
    ParseValuesAll(shown, vs);
  }

  /** `parse_value` on each field reads back the values when it reads each field. */
  lemma {:induction false} ParseValuesAll(fields: seq<string>, vs: seq<Value>)
    requires |fields| == |vs| && forall i :: 0 <= i < |vs| ==> ParseValue(fields[i]) == Some(vs[i])
    ensures ParseValues(fields) == Success(vs)
    decreases |vs|
  {
    if vs != [] {
      assert ParseValue(fields[0]) == Some(vs[0]);
      ParseValuesAll(fields[1..], vs[1..]);
      assert [vs[0]] + vs[1..] == vs;
    }
  }

  // ---------------------------------------------------------------------
  // collapse_values

  /** The total amount of `r` in `vs`. */
  function Total(vs: seq<Value>, r: string): int
  {
    if vs == [] then 0 else (if vs[0].resource == r then vs[0].amount else 0) + Total(vs[1..], r)
  }

  function Resources(vs: seq<Value>): set<string>
  {
    set i | 0 <= i < |vs| :: vs[i].resource
  }

  /** Every resource listed once. */
  predicate Distinct(vs: seq<Value>)
  {
    forall i, j :: 0 <= i < j < |vs| ==> vs[i].resource != vs[j].resource
  }

  /** `h[v.resource] += v.amount` on the hash, kept in insertion order: a
      resource already present keeps its place. */
  function AddValue(acc: seq<Value>, v: Value): seq<Value>
  {
    if acc == [] then [v]
    else if acc[0].resource == v.resource then [Value(v.resource, acc[0].amount + v.amount)] + acc[1..]
    else [acc[0]] + AddValue(acc[1..], v)
  }

  /** `collapse_values(values)` */
  function Collapse(vs: seq<Value>): seq<Value>
  {
    if vs == [] then [] else AddValue(Collapse(vs[..|vs| - 1]), vs[|vs| - 1])
  }

  lemma ResourcesCons(v: Value, s: seq<Value>)
    ensures Resources([v] + s) == {v.resource} + Resources(s)
  {
    var t := [v] + s;
    forall x | x in Resources(t) ensures x in {v.resource} + Resources(s) {
      var i :| 0 <= i < |t| && t[i].resource == x;
      if i > 0 {
        assert s[i - 1].resource == x;
      }
    }
    forall x | x in Resources(s) ensures x in Resources(t) {
      var i :| 0 <= i < |s| && s[i].resource == x;
      assert t[i + 1].resource == x;
    }
    assert t[0].resource == v.resource;
  }

  lemma DistinctCons(v: Value, s: seq<Value>)
    ensures Distinct([v] + s) <==> Distinct(s) && v.resource !in Resources(s)
  {
    var t := [v] + s;
    if Distinct(t) {
      forall i, j | 0 <= i < j < |s| ensures s[i].resource != s[j].resource {
        assert t[i + 1] == s[i] && t[j + 1] == s[j];
      }
      forall i | 0 <= i < |s| ensures s[i].resource != v.resource {
        assert t[i + 1] == s[i] && t[0] == v;
      }
    }
    if Distinct(s) && v.resource !in Resources(s) {
      forall i, j | 0 <= i < j < |t| ensures t[i].resource != t[j].resource {
        assert t[j] == s[j - 1];
        if i > 0 {
          assert t[i] == s[i - 1];
        } else {
          assert s[j - 1].resource in Resources(s);
        }
      }
    }
  }

  /** Merging one value adds its resource to those listed, and at most one entry. */
  lemma {:induction false} AddValueResources(acc: seq<Value>, v: Value)
    ensures Resources(AddValue(acc, v)) == Resources(acc) + {v.resource}
    ensures 0 < |AddValue(acc, v)| <= |acc| + 1
    decreases |acc|
  {
    if acc == [] {
      ResourcesCons(v, []);
    } else {
      var a, t := acc[0], acc[1..];
      assert acc == [a] + t;
      ResourcesCons(a, t);
      if a.resource != v.resource {
        AddValueResources(t, v);
        ResourcesCons(a, AddValue(t, v));
      } else {
        ResourcesCons(Value(v.resource, a.amount + v.amount), t);
      }
    }
  }

  /** Merging one value keeps every resource listed once. */
  lemma {:induction false} AddValueDistinct(acc: seq<Value>, v: Value)
    requires Distinct(acc)
    ensures Distinct(AddValue(acc, v))
    decreases |acc|
  {
    if acc != [] {
      var a, t := acc[0], acc[1..];
      assert acc == [a] + t;
      DistinctCons(a, t);
      if a.resource != v.resource {
        AddValueDistinct(t, v);
        AddValueResources(t, v);
        DistinctCons(a, AddValue(t, v));
      } else {
        ResourcesCons(a, t);
        DistinctCons(Value(v.resource, a.amount + v.amount), t);
      }
    }
  }

  /** Merging one value adds its amount to its resource's total only. */
  lemma {:induction false} AddValueTotal(acc: seq<Value>, v: Value, r: string)
    ensures Total(AddValue(acc, v), r) == Total(acc, r) + (if r == v.resource then v.amount else 0)
    decreases |acc|
  {
    if acc != [] && acc[0].resource != v.resource {
      AddValueTotal(acc[1..], v, r);
      assert ([acc[0]] + AddValue(acc[1..], v))[1..] == AddValue(acc[1..], v);
    } else if acc != [] {
      assert AddValue(acc, v)[1..] == acc[1..];
    }
  }

  lemma {:induction false} TotalAppend(vs: seq<Value>, v: Value, r: string)
    ensures Total(vs + [v], r) == Total(vs, r) + (if v.resource == r then v.amount else 0)
    decreases |vs|
  {
    if vs != [] {
      assert (vs + [v])[1..] == vs[1..] + [v];
      TotalAppend(vs[1..], v, r);
    }
  }

  lemma AddValueHead(acc: seq<Value>, v: Value)
    requires acc != []
    ensures AddValue(acc, v) != [] && AddValue(acc, v)[0].resource == acc[0].resource
  {
  }

  /** The first resource `collapse_values` lists is that of the first value,
      the one `breakdown`'s `values.shift` takes next. */
  lemma {:induction false} CollapseFirst(vs: seq<Value>)
    requires vs != []
    ensures Collapse(vs) != [] && Collapse(vs)[0].resource == vs[0].resource
    decreases |vs|
  {
    var init := vs[..|vs| - 1];
    if init != [] {
      CollapseFirst(init);
      AddValueHead(Collapse(init), vs[|vs| - 1]);
    }
  }

  /** `collapse_values` lists each resource of its input once, with the
      resource's total amount, and only those resources. */
  lemma {:induction false} CollapseSpec(vs: seq<Value>)
    ensures Distinct(Collapse(vs))
    ensures Resources(Collapse(vs)) == Resources(vs)
    ensures forall r :: Total(Collapse(vs), r) == Total(vs, r)
    ensures |Collapse(vs)| <= |vs| && (vs != [] ==> Collapse(vs) != [])
    decreases |vs|
  {
    if vs != [] {
      var init, last := vs[..|vs| - 1], vs[|vs| - 1];
      assert vs == init + [last];
      CollapseSpec(init);
      AddValueResources(Collapse(init), last);
      AddValueDistinct(Collapse(init), last);
      forall r ensures Total(Collapse(vs), r) == Total(vs, r) {
        AddValueTotal(Collapse(init), last, r);
        TotalAppend(init, last, r);
      }
      assert Resources(vs) == Resources(init) + {last.resource} by {
        forall x | x in Resources(vs) ensures x in Resources(init) + {last.resource} {
          var i :| 0 <= i < |vs| && vs[i].resource == x;
          if i < |init| {
            assert init[i].resource == x;
          }
        }
        forall x | x in Resources(init) ensures x in Resources(vs) {
          var i :| 0 <= i < |init| && init[i].resource == x;
          assert vs[i].resource == x;
        }
      }
    }
  }

  /** In a list without repeats, the total of a listed resource is its entry's amount. */
  lemma {:induction false} TotalOfDistinct(vs: seq<Value>, i: nat)
    requires Distinct(vs) && i < |vs|
    ensures Total(vs, vs[i].resource) == vs[i].amount
    decreases |vs|
  {
    if i == 0 {
      TotalAbsent(vs[1..], vs[0].resource);
    } else {
      assert Distinct(vs[1..]) by {
        forall a, b | 0 <= a < b < |vs| - 1 ensures vs[1..][a].resource != vs[1..][b].resource {
          assert vs[1..][a] == vs[a + 1] && vs[1..][b] == vs[b + 1];
        }
      }
      assert vs[1..][i - 1] == vs[i];
      TotalOfDistinct(vs[1..], i - 1);
    }
  }

  lemma {:induction false} TotalAbsent(vs: seq<Value>, r: string)
    requires forall k :: 0 <= k < |vs| ==> vs[k].resource != r
    ensures Total(vs, r) == 0
    decreases |vs|
  {
    if vs != [] {
      TotalAbsent(vs[1..], r);
    }
  }

  // ---------------------------------------------------------------------
  // reqs_for_value

  /** What one demand needs, and what it leaves over. */
  datatype Needs = Needs(reqs: seq<Value>, excess: int)

  datatype Fault =
    | ZeroOutput(resource: string)   // a rule yielding 0: Ruby divides by zero

  /** Ruby's `Integer#/`, which rounds towards negative infinity. */
  function RubyDiv(a: int, b: int): int
    requires b != 0
  {
    if b > 0 then a / b else (-a) / (-b)
  }

  /** Ruby's `Integer#%`, the remainder of `RubyDiv`. */
  function RubyMod(a: int, b: int): int
    requires b != 0
  {
    a - b * RubyDiv(a, b)
  }

  function Scale(reqs: seq<Value>, k: int): (r: seq<Value>)
    ensures |r| == |reqs| && forall i :: 0 <= i < |r| ==> r[i] == Value(reqs[i].resource, reqs[i].amount * k)
  {
    seq(|reqs|, i requires 0 <= i < |reqs| => Value(reqs[i].resource, reqs[i].amount * k))
  }

  /** `reqs_for_value(rules, value)` */
  function ReqsForValue(rules: map<string, Rule>, v: Value): Result<Needs, Fault>
  {
    if v.resource !in rules || v.amount <= 0 then Success(Needs([], 0))
    else
      var rule := rules[v.resource];
      var out := rule.output.amount;
      if out >= v.amount then Success(Needs(rule.requirements, out - v.amount))
      else if out == 0 then Failure(ZeroOutput(v.resource))
      else
        var extras := RubyDiv(v.amount, out) + (if RubyMod(v.amount, out) == 0 then 0 else 1);
        Success(Needs(Scale(rule.requirements, extras), out * extras - v.amount))
  }

  /** The number of times a rule yielding `out` must run to cover `amount`. */
  function Runs(amount: int, out: int): int
    requires out > 0
  {
    (amount + out - 1) / out
  }

  /** Running a rule `Runs(amount, out)` times is the least that covers `amount`. */
  lemma RunsLeast(amount: int, out: int)
    requires out > 0 && amount > 0
    ensures Runs(amount, out) >= 1
    ensures (Runs(amount, out) - 1) * out < amount <= Runs(amount, out) * out
  {
    var k := Runs(amount, out);
    var s := (amount + out - 1) % out;
    assert amount + out - 1 == out * k + s;
    assert (k - 1) * out == out * k - out;
  }

  /** Without a rule for the resource, or for a demand of nothing, nothing is needed. */
  lemma NothingNeeded(rules: map<string, Rule>, v: Value)
    requires v.resource !in rules || v.amount <= 0
    ensures ReqsForValue(rules, v) == Success(Needs([], 0))
  {
  }

  /** Otherwise each requirement is scaled by the least number of runs that
      covers the demand, and the excess is what those runs make beyond it. */
  lemma ReqsScaled(rules: map<string, Rule>, v: Value)
    requires v.resource in rules && v.amount > 0 && rules[v.resource].output.amount > 0
    ensures var out := rules[v.resource].output.amount;
      var k := Runs(v.amount, out);
      && ReqsForValue(rules, v) == Success(Needs(Scale(rules[v.resource].requirements, k), out * k - v.amount))
      && 0 <= out * k - v.amount < out
  {
    var rule := rules[v.resource];
    var out, a := rule.output.amount, v.amount;
    RunsLeast(a, out);
    if out >= a {
      DivUnique(a + out - 1, out, 1, a - 1);
      assert Scale(rule.requirements, 1) == rule.requirements;
    } else {
      var q, m := a / out, a % out;
      if m == 0 {
        DivUnique(a + out - 1, out, q, out - 1);
      } else {
        DivUnique(a + out - 1, out, q + 1, m - 1);
      }
    }
  }

  /** The requirements asked for are non-negative when the rules' are. */
  lemma ReqsNonNegative(rules: map<string, Rule>, v: Value)
    requires Sensible(rules)
    requires ReqsForValue(rules, v).Success?
    ensures forall i :: 0 <= i < |ReqsForValue(rules, v).value.reqs| ==> ReqsForValue(rules, v).value.reqs[i].amount >= 0
  {
    if v.resource in rules && v.amount > 0 {
      var rule := rules[v.resource];
      var out := rule.output.amount;
      assert rule.output.amount >= 0 && forall i :: 0 <= i < |rule.requirements| ==> rule.requirements[i].amount >= 0;
      if out < v.amount && out > 0 {
        var extras := RubyDiv(v.amount, out) + (if RubyMod(v.amount, out) == 0 then 0 else 1);
        assert extras >= 0;
      }
    }
  }

  /** Rules as `parse_rule` makes them: no amount is negative. */
  predicate Sensible(rules: map<string, Rule>)
  {
    forall r | r in rules :: WellFormedRule(rules[r])
  }

  // ---------------------------------------------------------------------
  // breakdown

  const ORE := "ORE"

  /** A read of `Hash.new(0)`. */
  function Get(m: map<string, int>, k: string): int
  {
    if k in m then m[k] else 0
  }

  /** `h[k] += n` on `Hash.new(0)`. */
  function Credit(m: map<string, int>, k: string, n: int): (r: map<string, int>)
    ensures Get(r, k) == Get(m, k) + n && forall j :: j != k ==> Get(r, j) == Get(m, j)
  {
    m[k := Get(m, k) + n]
  }

  /** What the requirement loop leaves of one requirement: the consumed
      counts, and the amount still to be produced. */
  datatype Took = Took(consumed: map<string, int>, left: int)

  /** One pass of the requirement loop: take what is in stock, record it and
      the rest as consumed, and leave the rest to be produced. */
  function Take(produced: map<string, int>, consumed: map<string, int>, req: Value): Took
  {
    var r, amount := req.resource, req.amount;
    var available := Get(produced, r) - Get(consumed, r);
    var stocked := Get(produced, r) > 0 && Get(produced, r) >= Get(consumed, r);
    if stocked && available >= amount then
      Took(Credit(Credit(consumed, r, amount), r, 0), 0)
    else if stocked && available > 0 && available < amount then
      Took(Credit(Credit(consumed, r, available), r, amount - available), amount - available)
    else
      Took(Credit(consumed, r, amount), amount)
  }

  /** In every branch the requirement's resource is consumed by exactly the
      requirement's amount. What is left to produce is the amount less what
      could be taken from stock, and never more than the amount. */
  lemma TakeSpec(produced: map<string, int>, consumed: map<string, int>, req: Value)
    requires req.amount >= 0
    ensures Take(produced, consumed, req).consumed == Credit(consumed, req.resource, req.amount)
    ensures var t := Take(produced, consumed, req);
      var stock := Get(produced, req.resource) - Get(consumed, req.resource);
      && 0 <= t.left <= req.amount
      && (Get(produced, req.resource) > 0 && stock > 0 ==> t.left == Max(req.amount - stock, 0))
      && (stock <= 0 ==> t.left == req.amount)
  {
    var r := req.resource;
    var c := Credit(consumed, r, req.amount);
    assert Credit(Credit(consumed, r, req.amount), r, 0) == c;
    var stock := Get(produced, r) - Get(consumed, r);
    if stock > 0 && stock < req.amount {
      assert Credit(Credit(consumed, r, stock), r, req.amount - stock) == c;
    }
  }

  /** What the requirement loop leaves of all requirements. */
  datatype Charged = Charged(consumed: map<string, int>, left: seq<Value>)

  /** `reqs.each do |req| ... end`, in order. */
  function TakeAll(produced: map<string, int>, consumed: map<string, int>, reqs: seq<Value>): (r: Charged)
    ensures |r.left| == |reqs|
  {
    if reqs == [] then Charged(consumed, [])
    else
      var before := TakeAll(produced, consumed, reqs[..|reqs| - 1]);
      var last := reqs[|reqs| - 1];
      var t := Take(produced, before.consumed, last);
      Charged(t.consumed, before.left + [Value(last.resource, t.left)])
  }

  /** The requirement loop consumes every requirement in full, whatever the
      stock, and leaves each requirement's resource in place. */
  lemma {:induction false} TakeAllSpec(produced: map<string, int>, consumed: map<string, int>, reqs: seq<Value>)
    requires forall i :: 0 <= i < |reqs| ==> reqs[i].amount >= 0
    ensures var c := TakeAll(produced, consumed, reqs);
      && (forall r :: Get(c.consumed, r) == Get(consumed, r) + Total(reqs, r))
      && (forall i :: 0 <= i < |reqs| ==> c.left[i].resource == reqs[i].resource && 0 <= c.left[i].amount <= reqs[i].amount)
    decreases |reqs|
  {
    if reqs != [] {
      var init, last := reqs[..|reqs| - 1], reqs[|reqs| - 1];
      assert reqs == init + [last];
      TakeAllSpec(produced, consumed, init);
      var before := TakeAll(produced, consumed, init);
      TakeSpec(produced, before.consumed, last);
      forall r ensures Get(TakeAll(produced, consumed, reqs).consumed, r) == Get(consumed, r) + Total(reqs, r) {
        TotalAppend(init, last, r);
      }
    }
  }

  datatype Ledger = Ledger(produced: map<string, int>, consumed: map<string, int>)

  /** The state of `breakdown`'s loop: the values still to break down, and the
      two hashes. */
  datatype Work = Work(values: seq<Value>, ledger: Ledger)

  /** The loop's exit test: nothing left, or only ore. */
  predicate Done(values: seq<Value>)
  {
    values == [] || forall i :: 0 <= i < |values| ==> values[i].resource == ORE
  }

  /** One turn of `breakdown`'s loop. */
  function BreakStep(rules: map<string, Rule>, w: Work): Result<Work, Fault>
    requires w.values != []
  {
    var vs := Collapse(w.values);
    CollapseSpec(w.values);
    var needed := vs[0];
    var needs :- ReqsForValue(rules, needed);
    var c := TakeAll(w.ledger.produced, w.ledger.consumed, needs.reqs);
    var produced := Credit(w.ledger.produced, needed.resource, needed.amount + needs.excess);
    Success(Work(vs[1..] + c.left, Ledger(produced, c.consumed)))
  }

  /** Each turn breaks down the first resource of the collapsed list: it adds
      the demand and the excess to what was produced of it, and produces
      nothing else; everything it needs is consumed in full. */
  lemma BreakStepSpec(rules: map<string, Rule>, w: Work)
    requires w.values != []
    requires Sensible(rules)
    ensures var needed := Collapse(w.values)[0];
      BreakStep(rules, w).Success? ==>
        var needs := ReqsForValue(rules, needed).value;
        var l := BreakStep(rules, w).value.ledger;
        && Get(l.produced, needed.resource) == Get(w.ledger.produced, needed.resource) + needed.amount + needs.excess
        && (forall r :: r != needed.resource ==> Get(l.produced, r) == Get(w.ledger.produced, r))
        && (forall r :: Get(l.consumed, r) == Get(w.ledger.consumed, r) + Total(needs.reqs, r))
  {
    CollapseSpec(w.values);
    var needed := Collapse(w.values)[0];
    var n := ReqsForValue(rules, needed);
    if n.Success? {
      ReqsNonNegative(rules, needed);
      TakeAllSpec(w.ledger.produced, w.ledger.consumed, n.value.reqs);
    }
  }

  datatype Outcome =
    | Finished(ledger: Ledger, values: seq<Value>)
    | Failed(fault: Fault)
    | OutOfFuel(work: Work)

  /** `breakdown(rules, values)` for at most `fuel` turns. */
  function BreakdownSpec(rules: map<string, Rule>, w: Work, fuel: nat): Outcome
    decreases fuel
  {
    if Done(w.values) then Finished(w.ledger, w.values)
    else if fuel == 0 then OutOfFuel(w)
    else
      match BreakStep(rules, w)
      case Failure(e) => Failed(e)
      case Success(w1) => BreakdownSpec(rules, w1, fuel - 1)
  }

  /** `breakdown` stops only when no value is left or every value is ore. */
  lemma {:induction false} BreakdownStops(rules: map<string, Rule>, w: Work, fuel: nat)
    ensures BreakdownSpec(rules, w, fuel).Finished? ==> Done(BreakdownSpec(rules, w, fuel).values)
    decreases fuel
  {
    if !Done(w.values) && fuel > 0 {
      var s := BreakStep(rules, w);
      if s.Success? {
        BreakdownStops(rules, s.value, fuel - 1);
      }
    }
  }

  /** One pass of the requirement loop, on the local hash. */
  method TakeOne(produced: map<string, int>, consumed0: map<string, int>, req: Value)
    returns (consumed: map<string, int>, amount: int)
    ensures Took(consumed, amount) == Take(produced, consumed0, req)
  {
    consumed := consumed0;
    var r := req.resource;
    amount := req.amount;
    var available := Get(produced, r) - Get(consumed, r);
    if Get(produced, r) > 0 && Get(produced, r) >= Get(consumed, r) {
      if available >= amount {
        consumed := consumed[r := Get(consumed, r) + amount];
        amount := 0;
      } else if available > 0 && available < amount {
        consumed := consumed[r := Get(consumed, r) + available];
        amount := amount - available;
      }
    }
    consumed := consumed[r := Get(consumed, r) + amount];
  }

  lemma TakeAllSnoc(produced: map<string, int>, consumed: map<string, int>, reqs: seq<Value>, i: nat)
    requires i < |reqs|
    ensures var before := TakeAll(produced, consumed, reqs[..i]);
      var t := Take(produced, before.consumed, reqs[i]);
      TakeAll(produced, consumed, reqs[..i + 1]) == Charged(t.consumed, before.left + [Value(reqs[i].resource, t.left)])
  {
    assert reqs[..i + 1][..i] == reqs[..i];
  }

  /** The requirement loop of `breakdown`: each requirement's amount is
      overwritten in place with what is still to be produced. */
  method TakeRequirements(produced: map<string, int>, consumed0: map<string, int>, reqs0: seq<Value>)
    returns (consumed: map<string, int>, reqs: seq<Value>)
    ensures Charged(consumed, reqs) == TakeAll(produced, consumed0, reqs0)
  {
    consumed, reqs := consumed0, reqs0;
    for i := 0 to |reqs0|
      invariant |reqs| == |reqs0| && reqs[i..] == reqs0[i..]
      invariant Charged(consumed, reqs[..i]) == TakeAll(produced, consumed0, reqs0[..i])
    {
      assert reqs[i] == reqs0[i];
      var amount;
      consumed, amount := TakeOne(produced, consumed, reqs[i]);
      TakeAllSnoc(produced, consumed0, reqs0, i);
      reqs := reqs[i := Value(reqs[i].resource, amount)];
      assert reqs[..i + 1] == reqs[..i] + [reqs[i]];
    }
    assert reqs0[..|reqs0|] == reqs0;
    assert reqs[..|reqs|] == reqs;
  }

  /** One turn of `breakdown`'s loop on the local variables. */
  method BreakTurn(rules: map<string, Rule>, values: seq<Value>, ledger: Ledger) returns (r: Result<Work, Fault>)
    requires values != []
    ensures r == BreakStep(rules, Work(values, ledger))
  {
    var vs := Collapse(values);
    CollapseSpec(values);
    var needed := vs[0];
    var needs := ReqsForValue(rules, needed);
    if needs.Failure? {
      return Failure(needs.error);
    }
    var consumed, reqs := TakeRequirements(ledger.produced, ledger.consumed, needs.value.reqs);
    var produced := ledger.produced[needed.resource := Get(ledger.produced, needed.resource) + needed.amount + needs.value.excess];
    r := Success(Work(vs[1..] + reqs, Ledger(produced, consumed)));
  }

  /** `breakdown(rules, values)`, for at most `fuel` turns; `Finished` gives
      back the two hashes and the values left. */
  method Breakdown(rules: map<string, Rule>, values0: seq<Value>, fuel: nat) returns (r: Outcome)
    ensures r == BreakdownSpec(rules, Work(values0, Ledger(map[], map[])), fuel)
  {
    var w := Work(values0, Ledger(map[], map[]));
    var left := fuel;
    while !Done(w.values)
      invariant BreakdownSpec(rules, w, left) == BreakdownSpec(rules, Work(values0, Ledger(map[], map[])), fuel)
      decreases left
    {
      if left == 0 {
        return OutOfFuel(w);
      }
      var step := BreakTurn(rules, w.values, w.ledger);
      if step.Failure? {
        return Failed(step.error);
      }
      w := step.value;
      left := left - 1;
    }
    r := Finished(w.ledger, w.values);
  }
}
