/** The first Intcode interpreter (intcode.rb, and the same code in
    day2/day2.rb): add, mul and halt, every operand an address, run in place
    on the program's array from pc 0. A Ruby exception becomes a `Fault`. */
module FirstIntcode {
  import opened Common
  import Text

  /** `read_intcode`: split on commas and `to_i` each field. */
  function ReadIntcode(s: string): seq<int>
  {
    Text.ParseInts(s)
  }

  /** Reading a comma-joined list of decimal integers gives that list. */
  lemma ReadIntcodeShow(p: seq<int>)
    ensures ReadIntcode(Text.ShowInts(p)) == p
  {
    Text.ParseShowInts(p);
  }

  datatype OpSym = Add | Mul | Halt | Invalid

  /** `get_opcode`: total, with every number other than 1, 2 and 99 invalid. */
  function GetOpcode(n: int): (r: OpSym)
    ensures r == Add <==> n == 1
    ensures r == Mul <==> n == 2
    ensures r == Halt <==> n == 99
    ensures r == Invalid <==> n != 1 && n != 2 && n != 99
  {
    match n
    case 1 => Add
    case 2 => Mul
    case 99 => Halt
    case _ => Invalid
  }

  /** The opcode of the word at `pc`; past the end Ruby reads nil, which is
      invalid. */
  function OpcodeAt(mem: seq<int>, pc: int): OpSym
  {
    if 0 <= pc < |mem| then GetOpcode(mem[pc]) else Invalid
  }

  /** An access outside the array: Ruby reads nil there and then raises. */
  datatype Fault = OutOfRange(index: int)

  function Cell(mem: seq<int>, i: int): (r: Result<int, Fault>)
    ensures r.Success? <==> 0 <= i < |mem|
    ensures r.Success? ==> r.value == mem[i]
  {
    if 0 <= i < |mem| then Success(mem[i]) else Failure(OutOfRange(i))
  }

  function Apply(sym: OpSym, a: int, b: int): int
  {
    if sym == Add then a + b else a * b
  }

  /** The add and mul branches: `mem[dest] = mem[x] op mem[y]` with x, y and
      dest the three words after the opcode, read in Ruby's order. */
  function ArithStep(mem: seq<int>, pc: int, sym: OpSym): (r: Result<seq<int>, Fault>)
    ensures r.Success? ==> |r.value| == |mem|
  {
    var x :- Cell(mem, pc + 1);
    var a :- Cell(mem, x);
    var y :- Cell(mem, pc + 2);
    var b :- Cell(mem, y);
    var dest :- Cell(mem, pc + 3);
    if 0 <= dest < |mem| then Success(mem[dest := Apply(sym, a, b)])
    else Failure(OutOfRange(dest))
  }

  /** With every word in range, an add or mul step writes `mem[x] op mem[y]` to
      `mem[dest]` and changes no other cell. */
  lemma ArithStepEffect(mem: seq<int>, pc: int, sym: OpSym)
    requires 0 <= pc && pc + 3 < |mem|
    requires 0 <= mem[pc + 1] < |mem| && 0 <= mem[pc + 2] < |mem| && 0 <= mem[pc + 3] < |mem|
    ensures ArithStep(mem, pc, sym).Success?
    ensures var m1 := ArithStep(mem, pc, sym).value;
      && m1[mem[pc + 3]] == Apply(sym, mem[mem[pc + 1]], mem[mem[pc + 2]])
      && forall i | 0 <= i < |mem| && i != mem[pc + 3] :: m1[i] == mem[i]
  {
  }

  /** Where and how `exec_intcode` stopped. */
  datatype Final = Final(mem: seq<int>, pc: int, fault: Option<Fault>)

  /** The loop of `exec_intcode` from `pc`. It always ends: pc grows by 4 and
      memory keeps its length, so pc passes the end, where the opcode is invalid. */
  function Run(mem: seq<int>, pc: int): (r: Final)
    requires pc >= 0
    ensures |r.mem| == |mem|
    decreases |mem| - pc
  {
    match OpcodeAt(mem, pc)
    case Halt => Final(mem, pc, None)
    case Invalid => Final(mem, pc, None)
    case _ =>
      match ArithStep(mem, pc, OpcodeAt(mem, pc))
      case Failure(e) => Final(mem, pc, Some(e))
      case Success(m1) => Run(m1, pc + 4)
  }

  /** Halt or an invalid word ends the run at once, with no write. */
  lemma StopsWithoutWriting(mem: seq<int>, pc: int)
    requires pc >= 0 && (OpcodeAt(mem, pc) == Halt || OpcodeAt(mem, pc) == Invalid)
    ensures Run(mem, pc) == Final(mem, pc, None)
  {
  }

  /** pc moves only in steps of 4; a run without fault stops at a halt or at
      the first invalid word, and one with a fault stops at an add or mul. */
  lemma {:induction false} RunStopsAt(mem: seq<int>, pc: int)
    requires pc >= 0
    ensures var r := Run(mem, pc);
      && r.pc >= pc && (r.pc - pc) % 4 == 0
      && (r.fault.None? ==> OpcodeAt(r.mem, r.pc) == Halt || OpcodeAt(r.mem, r.pc) == Invalid)
      && (r.fault.Some? ==> OpcodeAt(r.mem, r.pc) == Add || OpcodeAt(r.mem, r.pc) == Mul)
    decreases |mem| - pc
  {
    var op := OpcodeAt(mem, pc);
    if op == Add || op == Mul {
      var s := ArithStep(mem, pc, op);
      if s.Success? {
        RunStopsAt(s.value, pc + 4);
      }
    }
  }

  /** `exec_intcode(mem)`, in place. */
  method ExecIntcode(mem: array<int>) returns (fault: Option<Fault>)
    modifies mem
    ensures Final(mem[..], Run(old(mem[..]), 0).pc, fault) == Run(old(mem[..]), 0)
  {
    ghost var final := Run(mem[..], 0);
    var pc := 0;
    while true
      invariant 0 <= pc
      invariant Run(mem[..], pc) == final
      decreases mem.Length - pc
    {
      var op := if pc < mem.Length then GetOpcode(mem[pc]) else Invalid;
      assert op == OpcodeAt(mem[..], pc);
      if op == Invalid {
        StopsWithoutWriting(mem[..], pc);
        break;
      }
      match op
      case Add | Mul =>
        ghost var before := mem[..];
        var r := ExecArith(mem, pc, op);
        RunStep(before, pc);
        if r.Some? {
          return r;
        }
        pc := pc + 4;
      case Halt =>
        StopsWithoutWriting(mem[..], pc);
        break;
    }
    fault := None;
  }

  lemma RunStep(mem: seq<int>, pc: int)
    requires pc >= 0 && (OpcodeAt(mem, pc) == Add || OpcodeAt(mem, pc) == Mul)
    ensures var s := ArithStep(mem, pc, OpcodeAt(mem, pc));
      Run(mem, pc) == if s.Success? then Run(s.value, pc + 4) else Final(mem, pc, Some(s.error))
  {
  }

  /** One add or mul step on the array. */
  method ExecArith(mem: array<int>, pc: int, sym: OpSym) returns (fault: Option<Fault>)
    requires 0 <= pc
    modifies mem
    ensures var s := ArithStep(old(mem[..]), pc, sym);
      if s.Success? then fault.None? && mem[..] == s.value
      else fault == Some(s.error) && mem[..] == old(mem[..])
  {
    if pc + 1 >= mem.Length {
      return Some(OutOfRange(pc + 1));
    }
    var x := mem[pc + 1];
    if !(0 <= x < mem.Length) {
      return Some(OutOfRange(x));
    }
    if pc + 2 >= mem.Length {
      return Some(OutOfRange(pc + 2));
    }
    var y := mem[pc + 2];
    if !(0 <= y < mem.Length) {
      return Some(OutOfRange(y));
    }
    if pc + 3 >= mem.Length {
      return Some(OutOfRange(pc + 3));
    }
    var dest := mem[pc + 3];
    if !(0 <= dest < mem.Length) {
      return Some(OutOfRange(dest));
    }
    mem[dest] := Apply(sym, mem[x], mem[y]);
    fault := None;
  }
}
