/** The puzzle around the first interpreter (day2/day2.rb): patch the noun
    and verb cells, run, and search for the pair that produces 19690720. Its
    `read_intcode`, `get_opcode` and `exec_intcode` are those of FirstIntcode. */
module Day2 {
  import opened Common
  import FirstIntcode

  /** The output part two looks for. */
  const Target := 19690720

  /** `init_puzzle`'s default noun and verb, used by part one. */
  const DefaultNoun := 12
  const DefaultVerb := 2

  /** `init_puzzle(mem, noun, verb)`: only cells 1 and 2 change. */
  method InitPuzzle(mem: array<int>, noun: int, verb: int)
    requires mem.Length > 2
    modifies mem
    ensures mem[1] == noun && mem[2] == verb
    ensures forall i | 0 <= i < mem.Length && i != 1 && i != 2 :: mem[i] == old(mem[i])
    ensures mem[..] == Patched(old(mem[..]), noun, verb)
  {
    mem[1] := noun;
    mem[2] := verb;
  }

  function Patched(p: seq<int>, noun: int, verb: int): seq<int>
    requires |p| > 2
  {
    p[1 := noun][2 := verb]
  }

  /** The program run with `noun` and `verb`: what is left in cell 0, or the
      exception that stopped it. */
  function Output(p: seq<int>, noun: int, verb: int): Result<int, FirstIntcode.Fault>
    requires |p| > 2
  {
    var f := FirstIntcode.Run(Patched(p, noun, verb), 0);
    if f.fault.Some? then Failure(f.fault.value) else Success(f.mem[0])
  }

  /** The result of `search`: the `{noun:, verb:, output:}` hash. */
  datatype Results = Results(noun: int, verb: int, output: int)

  /** The inner loop from `verb`: the first verb up to 99 whose run gives the
      target; an exception on the way ends the search. */
  function FirstVerb(p: seq<int>, noun: int, verb: int): Result<Option<int>, FirstIntcode.Fault>
    requires |p| > 2
    decreases 100 - verb
  {
    if verb > 99 then Success(None)
    else
      match Output(p, noun, verb)
      case Failure(e) => Failure(e)
      case Success(o) => if o == Target then Success(Some(verb)) else FirstVerb(p, noun, verb + 1)
  }

  /** The outer loop from `noun`: a later noun with a match replaces the result,
      as `break` leaves only the inner loop. */
  function SearchFrom(p: seq<int>, noun: int, results: Results): Result<Results, FirstIntcode.Fault>
    requires |p| > 2
    decreases 100 - noun
  {
    if noun > 99 then Success(results)
    else
      match FirstVerb(p, noun, 0)
      case Failure(e) => Failure(e)
      case Success(v) =>
        SearchFrom(p, noun + 1, if v.Some? then Results(noun, v.value, Target) else results)
  }

  /** What the inner loop finds: a matching verb with no match before it, or
      no match in the whole range. */
  lemma {:induction false} FirstVerbSpec(p: seq<int>, noun: int, verb: int)
    requires |p| > 2 && 0 <= verb
    ensures var r := FirstVerb(p, noun, verb);
      && (r.Success? && r.value.Some? ==>
            && verb <= r.value.value <= 99 && Output(p, noun, r.value.value) == Success(Target)
            && forall v | verb <= v < r.value.value :: Output(p, noun, v) != Success(Target))
      && (r.Success? && r.value.None? ==>
            forall v | verb <= v <= 99 :: Output(p, noun, v) != Success(Target))
    decreases 100 - verb
  {
    if verb <= 99 && Output(p, noun, verb).Success? && Output(p, noun, verb).value != Target {
      FirstVerbSpec(p, noun, verb + 1);
    }
  }

  /** No verb gives the target with noun `n`. */
  ghost predicate NoMatchFor(p: seq<int>, n: int)
    requires |p| > 2
  {
    forall v | 0 <= v <= 99 :: Output(p, n, v) != Success(Target)
  }

  /** No pair with noun `lo` or above gives the target. */
  ghost predicate NoMatchFrom(p: seq<int>, lo: int)
    requires |p| > 2
  {
    forall n | lo <= n <= 99 :: NoMatchFor(p, n)
  }

  /** `r` is a match at noun `lo` or above: the smallest verb for the largest noun. */
  ghost predicate Found(p: seq<int>, r: Results, lo: int)
    requires |p| > 2
  {
    && lo <= r.noun <= 99 && 0 <= r.verb <= 99 && r.output == Target
    && Output(p, r.noun, r.verb) == Success(Target)
    && (forall v | 0 <= v < r.verb :: Output(p, r.noun, v) != Success(Target))
    && NoMatchFrom(p, r.noun + 1)
  }

  /** The outer loop from `noun` keeps `results` when no later pair matches,
      and otherwise ends with the last noun's first matching verb. */
  lemma {:induction false} SearchFromSpec(p: seq<int>, noun: int, results: Results)
    requires |p| > 2 && 0 <= noun
    ensures var r := SearchFrom(p, noun, results);
      r.Success? ==> (r.value == results && NoMatchFrom(p, noun)) || Found(p, r.value, noun)
    decreases 100 - noun
  {
    if noun <= 99 {
      var fv := FirstVerb(p, noun, 0);
      FirstVerbSpec(p, noun, 0);
      if fv.Success? {
        var next := if fv.value.Some? then Results(noun, fv.value.value, Target) else results;
        assert SearchFrom(p, noun, results) == SearchFrom(p, noun + 1, next);
        SearchFromSpec(p, noun + 1, next);
        var r := SearchFrom(p, noun + 1, next);
        if r.Success? {
          if r.value.noun > noun && Found(p, r.value, noun + 1) {
            FoundWiden(p, r.value, noun);
          } else if fv.value.Some? {
            assert r.value == next && NoMatchFrom(p, noun + 1);
            assert Found(p, r.value, noun);
          } else {
            assert NoMatchFor(p, noun);
            assert r.value == results && NoMatchFrom(p, noun + 1);
            assert NoMatchFrom(p, noun);
          }
        }
      }
    }
  }

  lemma FoundWiden(p: seq<int>, r: Results, noun: int)
    requires |p| > 2 && Found(p, r, noun + 1)
    ensures Found(p, r, noun)
  {
  }

  /** The search over an in-memory program (`search` loads it from a file). */
  function SearchSpec(p: seq<int>): Result<Results, FirstIntcode.Fault>
    requires |p| > 2
  {
    SearchFrom(p, 0, Results(0, 0, 0))
  }

  /** `search` gives `{0, 0, 0}` when no pair matches; otherwise a matching
      pair in 0..99, with the largest such noun and, for it, the smallest verb. */
  lemma SearchResult(p: seq<int>)
    requires |p| > 2
    ensures var r := SearchSpec(p);
      r.Success? ==> (r.value == Results(0, 0, 0) && NoMatchFrom(p, 0)) || Found(p, r.value, 0)
  {
    SearchFromSpec(p, 0, Results(0, 0, 0));
  }

  /** One run of the inner loop's body: load, patch and execute. */
  method RunWith(p: seq<int>, noun: int, verb: int) returns (r: Result<int, FirstIntcode.Fault>)
    requires |p| > 2
    ensures r == Output(p, noun, verb)
  {
    var mem := new int[|p|](i requires 0 <= i < |p| => p[i]);
    assert mem[..] == p;
    InitPuzzle(mem, noun, verb);
    var fault := FirstIntcode.ExecIntcode(mem);
    if fault.Some? {
      return Failure(fault.value);
    }
    r := Success(mem[0]);
  }

  /** `search`, with its nested loops. */
  method Search(p: seq<int>) returns (r: Result<Results, FirstIntcode.Fault>)
    requires |p| > 2
    ensures r == SearchSpec(p)
  {
    var results := Results(0, 0, 0);
    for noun := 0 to 100
      invariant SearchFrom(p, noun, results) == SearchSpec(p)
    {
      for verb := 0 to 100
        invariant FirstVerb(p, noun, 0) == FirstVerb(p, noun, verb)
      {
        var output := RunWith(p, noun, verb);
        if output.Failure? {
          return Failure(output.error);
        }
        if output.value == Target || (noun > 99 && verb > 99) {
          results := Results(noun, verb, output.value);
          break;
        }
      }
    }
    r := Success(results);
  }

  /** The example of day 2: `1,9,10,3,2,3,11,0,99,30,40,50` leaves 3500 in cell 0. */
  lemma Example()
    ensures var f := FirstIntcode.Run([1, 9, 10, 3, 2, 3, 11, 0, 99, 30, 40, 50], 0);
      f.fault.None? && f.mem[0] == 3500
  {
    var m0 := [1, 9, 10, 3, 2, 3, 11, 0, 99, 30, 40, 50];
    var m1 := m0[3 := 70];
    assert FirstIntcode.ArithStep(m0, 0, FirstIntcode.Add) == Success(m1);
    var m2 := m1[0 := 3500];
    assert FirstIntcode.ArithStep(m1, 4, FirstIntcode.Mul) == Success(m2);
    FirstIntcode.StopsWithoutWriting(m2, 8);
  }
}
