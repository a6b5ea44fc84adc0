/** The table-driven Intcode interpreter of lib/intcode.rb: an `OPCODES`
    table of records carrying each opcode's size, a preallocated memory of at
    least 4096 cells, and a status derived from the `halted` and
    `needs_input` flags. A Ruby exception becomes a `Fault`. */
module Intcode {
  import opened Common
  import Text

  // ---------------------------------------------------------------------
  // The opcode table

  datatype Op = Add | Mul | Input | Output | Jt | Jf | Lt | Eq | AdjRelBase | Halt

  /** An `Opcode` record: the operation and its size in words, the
      instruction word included. */
  datatype Opcode = Opcode(sym: Op, size: int)

  /** `Opcode#num_params`. */
  function NumParams(o: Opcode): int
  {
    o.size - 1
  }

  /** `OPCODES`: instruction number to opcode record. */
  const OPCODES: map<int, Opcode> := map[
    1 := Opcode(Add, 4), 2 := Opcode(Mul, 4), 3 := Opcode(Input, 2),
    4 := Opcode(Output, 2), 5 := Opcode(Jt, 3), 6 := Opcode(Jf, 3),
    7 := Opcode(Lt, 4), 8 := Opcode(Eq, 4), 9 := Opcode(AdjRelBase, 2),
    99 := Opcode(Halt, 1)]

  /** The size an operation's implementation assumes: three operands for the
      binary operations, two for the jumps, one for in, out and rel, none for halt. */
  predicate WellSized(o: Opcode)
  {
    match o.sym
    case Add | Mul | Lt | Eq => o.size == 4
    case Jt | Jf => o.size == 3
    case Input | Output | AdjRelBase => o.size == 2
    case Halt => o.size == 1
  }

  /** The table knows exactly the numbers 1 to 9 and 99, each record's size
      fits its implementation, and each operation has one number. */
  lemma OpcodeTable()
    ensures forall c :: c in OPCODES <==> 1 <= c <= 9 || c == 99
    ensures forall c | c in OPCODES :: WellSized(OPCODES[c])
    ensures forall c, d | c in OPCODES && d in OPCODES && OPCODES[c].sym == OPCODES[d].sym :: c == d
  {
  }

  // ---------------------------------------------------------------------
  // Addressing modes and decoding

  datatype Mode = Position | Literal | Relative

  /** The digit that selects a mode. */
  function ModeNumber(md: Mode): int
  {
    match md
    case Position => 0
    case Literal => 1
    case Relative => 2
  }

  datatype Fault =
    | UnsupportedMode(digit: int)   // `lookup_addressing_mode` raises
    | UnknownOpcode(code: int)      // no `OPCODES` entry: `nil.num_params`
    | LiteralWrite                  // "Cannot write to literal"
    | OutOfRange(address: int)      // an access outside the preallocated memory

  /** `Opcode.lookup_addressing_mode`: digits 0, 1 and 2, anything else raises. */
  function LookupAddressingMode(m: int): (r: Result<Mode, Fault>)
    ensures r.Success? <==> 0 <= m <= 2
    ensures r.Success? ==> ModeNumber(r.value) == m
    ensures r.Failure? ==> r.error == UnsupportedMode(m)
  {
    match m
    case 0 => Success(Position)
    case 1 => Success(Literal)
    case 2 => Success(Relative)
    case _ => Failure(UnsupportedMode(m))
  }

  /** `modes` followed by the modes of `rest`, or the failure of `rest`. */
  function Prefixed(modes: seq<Mode>, rest: Result<seq<Mode>, Fault>): Result<seq<Mode>, Fault>
  {
    if rest.Failure? then rest else Success(modes + rest.value)
  }

  /** The mode loop of `get_opcode_and_modes`: while fewer than `n` modes are
      collected, look up the last digit of `rest` and drop it. */
  function ModesFrom(rest: int, n: int): (r: Result<seq<Mode>, Fault>)
    ensures r.Success? ==> |r.value| == Max(n, 0)
    decreases n
  {
    if n <= 0 then Success([])
    else
      match LookupAddressingMode(rest % 10)
      case Failure(e) => Failure(e)
      case Success(md) => Prefixed([md], ModesFrom(rest / 10, n - 1))
  }

  predicate GoodDigits(rest: int, n: int)
  {
    forall i: nat | i < n :: 0 <= Digit(rest, i) <= 2
  }

  /** The mode loop reads the digits of `rest` least significant first: it
      succeeds exactly when the first `n` digits are 0, 1 or 2, giving their
      modes in that order, and otherwise raises on the first other digit. */
  lemma {:induction false} ModesFromDigits(rest: int, n: int)
    ensures ModesFrom(rest, n).Success? <==> GoodDigits(rest, n)
    ensures ModesFrom(rest, n).Success? ==> forall i | 0 <= i < |ModesFrom(rest, n).value| ::
      ModeNumber(ModesFrom(rest, n).value[i]) == Digit(rest, i)
    ensures ModesFrom(rest, n).Failure? ==> exists j: nat | j < n ::
      && !(0 <= Digit(rest, j) <= 2) && GoodDigits(rest, j)
      && ModesFrom(rest, n).error == UnsupportedMode(Digit(rest, j))
    decreases n
  {
    if n > 0 {
      assert Digit(rest, 0) == rest % 10;
      ModesFromDigits(rest / 10, n - 1);
      forall i: nat
        ensures Digit(rest / 10, i) == Digit(rest, i + 1)
      {
        DigitShift(rest, 1, i);
      }
      var r := ModesFrom(rest, n);
      var t := ModesFrom(rest / 10, n - 1);
      if 0 <= rest % 10 <= 2 {
        if t.Failure? {
          var j: nat :| j < n - 1 && !(0 <= Digit(rest / 10, j) <= 2) && GoodDigits(rest / 10, j)
                        && t.error == UnsupportedMode(Digit(rest / 10, j));
          assert GoodDigits(rest, j + 1) by {
            forall i: nat | i < j + 1
              ensures 0 <= Digit(rest, i) <= 2
            {
              if i > 0 {
                assert Digit(rest / 10, i - 1) == Digit(rest, i);
              }
            }
          }
          assert !GoodDigits(rest, n) by {
            assert Digit(rest / 10, j) == Digit(rest, j + 1);
          }
        } else {
          assert GoodDigits(rest, n) by {
            forall i: nat | i < n
              ensures 0 <= Digit(rest, i) <= 2
            {
              if i > 0 {
                assert Digit(rest / 10, i - 1) == Digit(rest, i);
              }
            }
          }
          forall i | 0 <= i < |r.value|
            ensures ModeNumber(r.value[i]) == Digit(rest, i)
          {
            if i > 0 {
              assert r.value[i] == t.value[i - 1];
              assert Digit(rest / 10, i - 1) == Digit(rest, i);
            }
          }
        }
      } else {
        assert GoodDigits(rest, 0);
      }
    }
  }

  /** `Opcode.get_opcode_and_modes` as a value: the record under `instr % 100`
      and the modes of the digits above it. */
  function OpcodeAndModes(instr: int): (r: Result<(Opcode, seq<Mode>), Fault>)
    ensures r.Success? ==> && instr % 100 in OPCODES && r.value.0 == OPCODES[instr % 100]
                           && |r.value.1| == NumParams(r.value.0)
  {
    if instr % 100 !in OPCODES then Failure(UnknownOpcode(instr % 100))
    else
      var op := OPCODES[instr % 100];
      OpcodeTable();
      match ModesFrom(instr / 100, NumParams(op))
      case Failure(e) => Failure(e)
      case Success(modes) => Success((op, modes))
  }

  /** The mode digit of operand `i` (from 0): digit `i + 2` of the word. */
  function ModeDigit(instr: int, i: nat): int
  {
    Digit(instr, i + 2)
  }

  /** Decoding an instruction word: opcode `instr % 100`, exactly `size - 1`
      modes taken from the digits above the opcode least significant first;
      an unknown opcode fails, and so does a mode digit other than 0, 1, 2. */
  lemma DecodeDigits(instr: int)
    ensures instr % 100 !in OPCODES ==> OpcodeAndModes(instr) == Failure(UnknownOpcode(instr % 100))
    ensures instr % 100 in OPCODES ==>
      (OpcodeAndModes(instr).Success? <==> forall i: nat | i < NumParams(OPCODES[instr % 100]) ::
         0 <= ModeDigit(instr, i) <= 2)
    ensures OpcodeAndModes(instr).Success? ==> forall i | 0 <= i < |OpcodeAndModes(instr).value.1| ::
      ModeNumber(OpcodeAndModes(instr).value.1[i]) == ModeDigit(instr, i)
    ensures instr % 100 in OPCODES && OpcodeAndModes(instr).Failure? ==>
      exists j: nat | j < NumParams(OPCODES[instr % 100]) ::
        OpcodeAndModes(instr).error == UnsupportedMode(ModeDigit(instr, j))
  {
    forall i: nat
      ensures Digit(instr / 100, i) == ModeDigit(instr, i)
    {
      DigitShift(instr, 2, i);
    }
    if instr % 100 in OPCODES {
      var n := NumParams(OPCODES[instr % 100]);
      ModesFromDigits(instr / 100, n);
    }
  }

  /** `Opcode.get_opcode_and_modes`, with its digit-peeling loop. */
  method GetOpcodeAndModes(instr: int) returns (r: Result<(Opcode, seq<Mode>), Fault>)
    ensures r == OpcodeAndModes(instr)
  {
    var code := instr % 100;
    if code !in OPCODES {
      return Failure(UnknownOpcode(code));
    }
    var opcode := OPCODES[code];
    var n := NumParams(opcode);
    var modes: seq<Mode> := [];
    var rest := instr / 100;
    assert ModesFrom(rest, n).Success? ==> [] + ModesFrom(rest, n).value == ModesFrom(rest, n).value;
    while |modes| < n
      invariant ModesFrom(instr / 100, n) == Prefixed(modes, ModesFrom(rest, n - |modes|))
      decreases n - |modes|
    {
      var md := LookupAddressingMode(rest % 10);
      if md.Failure? {
        return Failure(md.error);
      }
      ghost var tail := ModesFrom(rest / 10, n - |modes| - 1);
      assert tail.Success? ==> modes + ([md.value] + tail.value) == (modes + [md.value]) + tail.value;
      modes := modes + [md.value];
      rest := rest / 10;
    }
    assert modes + [] == modes;
    r := Success((opcode, modes));
  }

  /** An operand: its addressing mode and the word stored after the instruction. */
  datatype Parameter = Parameter(mode: Mode, val: int)

  function ParamsOf(modes: seq<Mode>, words: seq<int>): (r: seq<Parameter>)
    requires |words| == |modes|
    ensures |r| == |modes| && forall i | 0 <= i < |r| :: r[i] == Parameter(modes[i], words[i])
  {
    seq(|modes|, i requires 0 <= i < |modes| => Parameter(modes[i], words[i]))
  }

  /** `Opcode.get_opcode_and_params` on memory `mem`. An address outside
      memory, including an operand word past its end, is `OutOfRange`. */
  function OpcodeAndParams(mem: seq<int>, address: int): (r: Result<(Opcode, seq<Parameter>), Fault>)
    ensures r.Success? ==> WellSized(r.value.0) && |r.value.1| == NumParams(r.value.0)
  {
    OpcodeTable();
    if !(0 <= address < |mem|) then Failure(OutOfRange(address))
    else
      match OpcodeAndModes(mem[address])
      case Failure(e) => Failure(e)
      case Success((op, modes)) =>
        if address + |modes| >= |mem| then Failure(OutOfRange(|mem|))
        else Success((op, ParamsOf(modes, mem[address + 1 .. address + 1 + |modes|])))
  }

  /** A decoded instruction pairs mode `i` with the word at `address + i + 1`. */
  lemma DecodeParams(mem: seq<int>, address: int)
    requires OpcodeAndParams(mem, address).Success?
    ensures var (op, ps) := OpcodeAndParams(mem, address).value;
      && 0 <= address && address + |ps| < |mem|
      && OpcodeAndModes(mem[address]).Success?
      && op == OpcodeAndModes(mem[address]).value.0
      && |ps| == NumParams(op) && WellSized(op)
      && forall i | 0 <= i < |ps| ::
           ps[i] == Parameter(OpcodeAndModes(mem[address]).value.1[i], mem[address + i + 1])
  {
    OpcodeTable();
  }

  // ---------------------------------------------------------------------
  // The machine as a value

  /** What `VM#status` reports. */
  datatype StatusCode = Halted | NeedsInput | PcRangeErr | Ok

  datatype Machine = Machine(
    mem: seq<int>, pc: int, relBase: int, halted: bool, needsInput: bool,
    inputs: seq<int>, outputs: seq<int>)

  /** `VM.new(p)`: memory of max(4096, |p|) cells holding `p` and then zeros,
      pc and relative base 0, both flags clear, empty queues. */
  function Init(p: seq<int>): (m: Machine)
    ensures |m.mem| == Max(4096, |p|)
    ensures forall i | 0 <= i < |p| :: m.mem[i] == p[i]
    ensures forall i | |p| <= i < |m.mem| :: m.mem[i] == 0
    ensures m.pc == 0 && m.relBase == 0 && !m.halted && !m.needsInput
    ensures m.inputs == [] && m.outputs == []
  {
    Machine(p + seq(Max(4096, |p|) - |p|, _ => 0), 0, 0, false, false, [], [])
  }

  /** `VM#status`: halted before needs_input before pc_range_err. */
  function StatusOf(m: Machine): StatusCode
  {
    if m.halted then Halted
    else if m.needsInput then NeedsInput
    else if m.pc >= |m.mem| then PcRangeErr
    else Ok
  }

  /** The address a position or relative operand names. */
  function Address(m: Machine, p: Parameter): int
  {
    if p.mode == Relative then m.relBase + p.val else p.val
  }

  /** `VM#read_param`. */
  function ReadValue(m: Machine, p: Parameter): (r: Result<int, Fault>)
    ensures p.mode == Literal ==> r == Success(p.val)
    ensures p.mode == Position ==> (if 0 <= p.val < |m.mem| then r == Success(m.mem[p.val])
                                    else r == Failure(OutOfRange(p.val)))
    ensures p.mode == Relative ==> (if 0 <= m.relBase + p.val < |m.mem| then r == Success(m.mem[m.relBase + p.val])
                                    else r == Failure(OutOfRange(m.relBase + p.val)))
  {
    if p.mode == Literal then Success(p.val)
    else if 0 <= Address(m, p) < |m.mem| then Success(m.mem[Address(m, p)])
    else Failure(OutOfRange(Address(m, p)))
  }

  /** `VM#write_param_value`: the new memory. */
  function WriteValue(m: Machine, p: Parameter, v: int): (r: Result<seq<int>, Fault>)
    ensures p.mode == Literal ==> r == Failure(LiteralWrite)
    ensures p.mode != Literal ==> (r.Success? <==> 0 <= Address(m, p) < |m.mem|)
    ensures r.Success? ==> && |r.value| == |m.mem| && r.value[Address(m, p)] == v
                           && forall i | 0 <= i < |m.mem| && i != Address(m, p) :: r.value[i] == m.mem[i]
  {
    if p.mode == Literal then Failure(LiteralWrite)
    else if 0 <= Address(m, p) < |m.mem| then Success(m.mem[Address(m, p) := v])
    else Failure(OutOfRange(Address(m, p)))
  }

  /** Reading an operand just written through gives the written value. */
  lemma ReadAfterWrite(m: Machine, p: Parameter, v: int)
    requires WriteValue(m, p, v).Success?
    ensures ReadValue(m.(mem := WriteValue(m, p, v).value), p) == Success(v)
  {
  }

  /** `VM#get_input`: the oldest queued value, or nil with `needs_input` set. */
  function TakeInput(m: Machine): (r: (Option<int>, Machine))
    ensures r.0.Some? <==> m.inputs != []
    ensures r.0.Some? ==> m.inputs == [r.0.value] + r.1.inputs && r.1 == m.(inputs := r.1.inputs)
    ensures r.0.None? ==> r.1 == m.(needsInput := true)
  {
    if |m.inputs| > 0 then (Some(m.inputs[0]), m.(inputs := m.inputs[1..]))
    else (None, m.(needsInput := true))
  }

  /** `VM#send_input`: queue the value and clear `needs_input`. */
  function Deliver(m: Machine, v: int): Machine
  {
    m.(inputs := m.inputs + [v], needsInput := false)
  }

  /** `VM#read_output`: the oldest queued output, or nil. */
  function TakeOutput(m: Machine): (r: (Option<int>, Machine))
    ensures r.0.Some? <==> m.outputs != []
    ensures r.0.Some? ==> m.outputs == [r.0.value] + r.1.outputs && r.1 == m.(outputs := r.1.outputs)
    ensures r.0.None? ==> r.1 == m
  {
    if |m.outputs| > 0 then (Some(m.outputs[0]), m.(outputs := m.outputs[1..]))
    else (None, m)
  }

  /** `VM#write_output`. */
  function PutOutput(m: Machine, v: int): Machine
  {
    m.(outputs := m.outputs + [v])
  }

  /** The output queue is first in, first out. */
  lemma OutputFifo(m: Machine, v: int)
    ensures TakeOutput(PutOutput(m, v)).0 == Some(if m.outputs == [] then v else m.outputs[0])
    ensures m.outputs != [] ==> TakeOutput(PutOutput(m, v)).1 == PutOutput(TakeOutput(m).1, v)
  {
  }

  // ---------------------------------------------------------------------
  // One instruction: the `OPCODES` procs

  /** What executing one instruction made of the machine: the next state, or
      the exception with the state as it was when Ruby raised. */
  datatype StepResult = Next(m: Machine) | Raised(m: Machine, fault: Fault)

  predicate IsArith(sym: Op)
  {
    sym == Add || sym == Mul || sym == Lt || sym == Eq
  }

  /** The value add, mul, lt and eq store. */
  function BinOp(sym: Op, a: int, b: int): int
    requires IsArith(sym)
  {
    if sym == Add then a + b
    else if sym == Mul then a * b
    else if sym == Lt then (if a < b then 1 else 0)
    else if a == b then 1 else 0
  }

  /** add, mul, lt, eq: read both operands, write the destination, pc += 4. */
  function ExecArith(m: Machine, sym: Op, ps: seq<Parameter>): StepResult
    requires IsArith(sym) && |ps| == 3
  {
    match ReadValue(m, ps[0])
    case Failure(e) => Raised(m, e)
    case Success(a) =>
      match ReadValue(m, ps[1])
      case Failure(e) => Raised(m, e)
      case Success(b) =>
        match WriteValue(m, ps[2], BinOp(sym, a, b))
        case Failure(e) => Raised(m, e)
        case Success(mem) => Next(m.(mem := mem, pc := m.pc + 4))
  }

  /** input: take a queued value and store it, pc += 2; with none queued,
      `get_input` sets `needs_input` and nothing else happens. */
  function ExecInput(m: Machine, ps: seq<Parameter>): StepResult
    requires |ps| == 1
  {
    var (v, m1) := TakeInput(m);
    if v.None? then Next(m1)
    else
      match WriteValue(m1, ps[0], v.value)
      case Failure(e) => Raised(m1, e)
      case Success(mem) => Next(m1.(mem := mem, pc := m1.pc + 2))
  }

  /** output: queue the operand's value, pc += 2. */
  function ExecOutput(m: Machine, ps: seq<Parameter>): StepResult
    requires |ps| == 1
  {
    match ReadValue(m, ps[0])
    case Failure(e) => Raised(m, e)
    case Success(v) => Next(PutOutput(m, v).(pc := m.pc + 2))
  }

  /** Whether jt or jf jumps on condition value `c`. */
  predicate Taken(sym: Op, c: int)
  {
    if sym == Jt then c != 0 else c == 0
  }

  /** jt, jf: jump to the second operand's value, or pc += 3. */
  function ExecJump(m: Machine, sym: Op, ps: seq<Parameter>): StepResult
    requires |ps| == 2
  {
    match ReadValue(m, ps[0])
    case Failure(e) => Raised(m, e)
    case Success(c) =>
      if Taken(sym, c) then
        match ReadValue(m, ps[1])
        case Failure(e) => Raised(m, e)
        case Success(t) => Next(m.(pc := t))
      else Next(m.(pc := m.pc + 3))
  }

  /** adj_rel_base: add the operand to the relative base, pc += 2. */
  function ExecRel(m: Machine, ps: seq<Parameter>): StepResult
    requires |ps| == 1
  {
    match ReadValue(m, ps[0])
    case Failure(e) => Raised(m, e)
    case Success(a) => Next(m.(relBase := m.relBase + a, pc := m.pc + 2))
  }

  /** The proc of a decoded opcode. */
  function ExecOp(m: Machine, op: Opcode, ps: seq<Parameter>): StepResult
    requires WellSized(op) && |ps| == NumParams(op)
  {
    match op.sym
    case Add | Mul | Lt | Eq => ExecArith(m, op.sym, ps)
    case Input => ExecInput(m, ps)
    case Output => ExecOutput(m, ps)
    case Jt | Jf => ExecJump(m, op.sym, ps)
    case AdjRelBase => ExecRel(m, ps)
    case Halt => Next(m.(halted := true))
  }

  /** One turn of `run`'s loop: decode at pc, then execute. */
  function Step(m: Machine): StepResult
  {
    match OpcodeAndParams(m.mem, m.pc)
    case Failure(e) => Raised(m, e)
    case Success((op, ps)) => ExecOp(m, op, ps)
  }

  predicate Decodes(m: Machine, op: Opcode, ps: seq<Parameter>)
  {
    OpcodeAndParams(m.mem, m.pc) == Success((op, ps))
  }

  /** lt and eq store only 0 or 1, at the destination alone, and advance pc by 4;
      the 1 means the comparison held. */
  lemma CompareWritesBit(m: Machine, op: Opcode, ps: seq<Parameter>)
    requires Decodes(m, op, ps) && (op.sym == Lt || op.sym == Eq) && Step(m).Next?
    ensures var r := Step(m).m; var a := Address(m, ps[2]);
      && |ps| == 3 && |r.mem| == |m.mem| && 0 <= a < |r.mem|
      && (r.mem[a] == 0 || r.mem[a] == 1)
      && (r.mem[a] == 1 <==> var x, y := ReadValue(m, ps[0]).value, ReadValue(m, ps[1]).value;
                             if op.sym == Lt then x < y else x == y)
      && (forall i | 0 <= i < |m.mem| && i != a :: r.mem[i] == m.mem[i])
      && r.pc == m.pc + 4
  {
  }

  /** Every instruction other than a jump, halt or a suspending input moves pc
      past itself: by its size in the table. */
  lemma AdvanceBySize(m: Machine, op: Opcode, ps: seq<Parameter>)
    requires Decodes(m, op, ps) && Step(m).Next?
    requires op.sym != Jt && op.sym != Jf && op.sym != Halt
    requires op.sym == Input ==> m.inputs != []
    ensures Step(m).m.pc == m.pc + op.size
  {
  }

  /** A jump that is not taken advances pc by 3 and changes nothing else;
      a taken one sets pc to its target and changes nothing else. */
  lemma Jump(m: Machine, op: Opcode, ps: seq<Parameter>, c: int)
    requires Decodes(m, op, ps) && (op.sym == Jt || op.sym == Jf)
    requires ReadValue(m, ps[0]) == Success(c)
    ensures !Taken(op.sym, c) ==> Step(m) == Next(m.(pc := m.pc + 3))
    ensures Taken(op.sym, c) && ReadValue(m, ps[1]).Success? ==>
      Step(m) == Next(m.(pc := ReadValue(m, ps[1]).value))
  {
  }

  /** halt sets `halted` and leaves pc and everything else as they were. */
  lemma HaltStops(m: Machine, op: Opcode, ps: seq<Parameter>)
    requires Decodes(m, op, ps) && op.sym == Halt
    ensures Step(m) == Next(m.(halted := true))
    ensures StatusOf(Step(m).m) == Halted
  {
  }

  /** Input with an empty queue only sets `needs_input`: pc, relative base,
      memory and both queues stay as they were. */
  lemma InputSuspends(m: Machine, op: Opcode, ps: seq<Parameter>)
    requires Decodes(m, op, ps) && op.sym == Input && m.inputs == [] && !m.halted
    ensures Step(m) == Next(m.(needsInput := true))
    ensures StatusOf(Step(m).m) == NeedsInput
  {
  }

  /** After a suspended input, `send_input(v)` makes the machine runnable at the
      same instruction, which then consumes `v` exactly once: it stores `v`
      where the operand points and leaves the queue empty. */
  lemma ResumeConsumesOnce(m: Machine, op: Opcode, ps: seq<Parameter>, v: int)
    requires Decodes(m, op, ps) && op.sym == Input && m.inputs == [] && !m.needsInput
    ensures var s := Deliver(Step(m).m, v);
      && s == m.(inputs := [v]) && Decodes(s, op, ps)
      && Step(s).m.inputs == []
      && (WriteValue(m, ps[0], v).Success? ==>
            Step(s) == Next(m.(mem := WriteValue(m, ps[0], v).value, pc := m.pc + 2, inputs := [])))
      && (WriteValue(m, ps[0], v).Failure? ==>
            Step(s) == Raised(m, WriteValue(m, ps[0], v).error))
  {
    var s := Deliver(Step(m).m, v);
    assert s == m.(inputs := [v]);
    assert [v][1..] == [];
  }

  /** The output instruction appends the operand's value to `outputs`. */
  lemma OutputAppends(m: Machine, op: Opcode, ps: seq<Parameter>)
    requires Decodes(m, op, ps) && op.sym == Output && ReadValue(m, ps[0]).Success?
    ensures Step(m) == Next(m.(outputs := m.outputs + [ReadValue(m, ps[0]).value], pc := m.pc + 2))
  {
  }

  /** No instruction takes back an output. */
  lemma StepKeepsOutputs(m: Machine)
    ensures Extends(m.outputs, Step(m).m.outputs)
  {
    if Step(m).m.outputs == m.outputs {
      assert m.outputs == m.outputs + [];
    }
  }

  // ---------------------------------------------------------------------
  // Running

  /** The loop condition of `run`. */
  predicate Running(m: Machine)
  {
    !m.halted && !m.needsInput && m.pc < |m.mem|
  }

  /** Why `run` returned: with a status, or by an exception; `OutOfFuel`
      marks the step bound of the model (the source loop is unbounded). */
  datatype RunOutcome = Stopped(status: StatusCode) | Crashed(fault: Fault) | OutOfFuel

  /** `run`, for at most `fuel` instructions. */
  function RunSpec(m: Machine, fuel: nat): (Machine, RunOutcome)
    decreases fuel
  {
    if !Running(m) then (m, Stopped(StatusOf(m)))
    else if fuel == 0 then (m, OutOfFuel)
    else
      match Step(m)
      case Raised(m1, e) => (m1, Crashed(e))
      case Next(m1) => RunSpec(m1, fuel - 1)
  }

  /** `run`'s answer agrees with `status` on the machine it leaves, and is never
      `:ok`. */
  lemma {:induction false} RunAgreesWithStatus(m: Machine, fuel: nat)
    ensures var r := RunSpec(m, fuel);
      r.1.Stopped? ==> r.1.status == StatusOf(r.0) && r.1.status != Ok
    decreases fuel
  {
    if Running(m) && fuel > 0 && Step(m).Next? {
      RunAgreesWithStatus(Step(m).m, fuel - 1);
    }
  }

  ghost predicate Extends(a: seq<int>, b: seq<int>)
  {
    exists e :: b == a + e
  }

  /** Running only appends to `outputs`, so the queue reads oldest first. */
  lemma {:induction false} RunAppendsOutputs(m: Machine, fuel: nat)
    ensures Extends(m.outputs, RunSpec(m, fuel).0.outputs)
    decreases fuel
  {
    if Running(m) && fuel > 0 && Step(m).Next? {
      RunAppendsOutputs(Step(m).m, fuel - 1);
      StepKeepsOutputs(m);
      ExtendsTrans(m.outputs, Step(m).m.outputs, RunSpec(m, fuel).0.outputs);
    } else if Running(m) && fuel > 0 {
      StepKeepsOutputs(m);
    } else {
      assert RunSpec(m, fuel).0.outputs == m.outputs + [];
    }
  }

  lemma ExtendsTrans(a: seq<int>, b: seq<int>, c: seq<int>)
    requires Extends(a, b) && Extends(b, c)
    ensures Extends(a, c)
  {
    var e1 :| b == a + e1;
    var e2 :| c == b + e2;
    assert c == a + (e1 + e2);
  }

  lemma SameFuel(m: Machine, a: nat, b: nat)
    requires a == b
    ensures RunSpec(m, a) == RunSpec(m, b)
  {
  }

  /** A program that multiplies two literals and prints the product. */
  lemma MultiplyLiterals()
    ensures var r := RunSpec(Init([1102, 34915192, 34915192, 7, 4, 7, 99, 0]), 3);
      r.1 == Stopped(Halted) && r.0.outputs == [34915192 * 34915192]
  {
    var m0 := Init([1102, 34915192, 34915192, 7, 4, 7, 99, 0]);
    assert m0.mem[..8] == [1102, 34915192, 34915192, 7, 4, 7, 99, 0];
    var m1 := m0.(mem := m0.mem[7 := 34915192 * 34915192], pc := 4);
    MulLiteralsStep(m0);
    var m2 := m1.(outputs := [34915192 * 34915192], pc := 6);
    OutputCellStep(m1);
    HaltStep(m2);
  }

  lemma MulLiteralsStep(m: Machine)
    requires m.pc == 0 && |m.mem| > 7 && m.mem[..4] == [1102, 34915192, 34915192, 7]
    ensures Step(m) == Next(m.(mem := m.mem[7 := 34915192 * 34915192], pc := 4))
  {
    var ps := [Parameter(Literal, 34915192), Parameter(Literal, 34915192), Parameter(Position, 7)];
    assert Decodes(m, Opcode(Mul, 4), ps) by {
      assert [Position] + [] == [Position];
      assert [Literal] + [Position] == [Literal, Position];
      assert [Literal] + [Literal, Position] == [Literal, Literal, Position];
      assert ModesFrom(0, 1) == Success([Position]);
      assert ModesFrom(1, 2) == Success([Literal, Position]);
      assert ModesFrom(11, 3) == Success([Literal, Literal, Position]);
      assert OpcodeAndModes(1102) == Success((Opcode(Mul, 4), [Literal, Literal, Position]));
      assert m.mem[0 + 1 .. 0 + 1 + 3] == [34915192, 34915192, 7];
      assert ParamsOf([Literal, Literal, Position], [34915192, 34915192, 7]) == ps;
    }
  }

  lemma OutputCellStep(m: Machine)
    requires m.pc == 4 && |m.mem| > 7 && m.mem[4] == 4 && m.mem[5] == 7
    ensures Step(m) == Next(m.(outputs := m.outputs + [m.mem[7]], pc := 6))
  {
    assert Decodes(m, Opcode(Output, 2), [Parameter(Position, 7)]) by {
      assert [Position] + [] == [Position];
      assert ModesFrom(0, 1) == Success([Position]);
      assert OpcodeAndModes(4) == Success((Opcode(Output, 2), [Position]));
      assert m.mem[4 + 1 .. 4 + 1 + 1] == [7];
      assert ParamsOf([Position], [7]) == [Parameter(Position, 7)];
    }
  }

  lemma HaltStep(m: Machine)
    requires 0 <= m.pc < |m.mem| && m.mem[m.pc] == 99
    ensures Step(m) == Next(m.(halted := true))
  {
    assert Decodes(m, Opcode(Halt, 1), []) by {
      assert OpcodeAndModes(99) == Success((Opcode(Halt, 1), []));
    }
  }

  /** A program that prints a large literal. */
  lemma PrintLarge()
    ensures var r := RunSpec(Init([104, 1125899906842624, 99]), 2);
      r.1 == Stopped(Halted) && r.0.outputs == [1125899906842624]
  {
    var m0 := Init([104, 1125899906842624, 99]);
    assert Decodes(m0, Opcode(Output, 2), [Parameter(Literal, 1125899906842624)]) by {
      assert [Literal] + [] == [Literal];
      assert ModesFrom(1, 1) == Success([Literal]);
      assert OpcodeAndModes(104) == Success((Opcode(Output, 2), [Literal]));
      assert m0.mem[0 + 1 .. 0 + 1 + 1] == [1125899906842624];
      assert ParamsOf([Literal], [1125899906842624]) == [Parameter(Literal, 1125899906842624)];
    }
    var m1 := m0.(outputs := [1125899906842624], pc := 2);
    assert Step(m0) == Next(m1);
    HaltStep(m1);
  }

  // ---------------------------------------------------------------------
  // Loading a program

  /** `Intcode.read_intcode`: split on commas and `to_i` each field (the
      `reject` keeps every field, as `to_i` always gives an Integer). */
  function ReadIntcode(s: string): seq<int>
  {
    Text.ParseInts(s)
  }

  /** Reading a comma-joined list of decimal integers gives that list. */
  lemma ReadIntcodeShow(p: seq<int>)
    ensures ReadIntcode(Text.ShowInts(p)) == p
  {
    Text.ParseShowInts(p);
  }

  // ---------------------------------------------------------------------
  // The machine object

  /** How a method's result and new memory agree with a `WriteValue`. */
  predicate Stored(r: Result<(), Fault>, mem0: seq<int>, mem: seq<int>, w: Result<seq<int>, Fault>)
  {
    match w
    case Success(m1) => r == Success(()) && mem == m1
    case Failure(e) => r == Failure(e) && mem == mem0
  }

  /** How an instruction's outcome and the new state agree with `Step`. */
  predicate Reports(r: Result<(), Fault>, m: Machine, s: StepResult)
  {
    match s
    case Next(m1) => r == Success(()) && m == m1
    case Raised(m1, e) => r == Failure(e) && m == m1
  }

  class VM {
    var mem: array<int>
    var pc: int
    var relBase: int
    var halted: bool
    var needsInput: bool
    var inputs: seq<int>
    var outputs: seq<int>

    function State(): Machine
      reads this, mem
    {
      Machine(mem[..], pc, relBase, halted, needsInput, inputs, outputs)
    }

    /** `VM.new(p)`: 4096 zero cells, then the program copied over them. */
    constructor (program: seq<int>)
      ensures fresh(mem) && State() == Init(program)
    {
      var n := Max(4096, |program|);
      var a := new int[n](_ => 0);
      for i := 0 to |program|
        invariant forall j | 0 <= j < i :: a[j] == program[j]
        invariant forall j | i <= j < n :: a[j] == 0
      {
        a[i] := program[i];
      }
      mem := a;
      pc := 0;
      relBase := 0;
      halted := false;
      needsInput := false;
      inputs := [];
      outputs := [];
      new;
      assert mem[..] == Init(program).mem;
    }

    /** `VM.from_string`. */
    static method FromString(s: string) returns (vm: VM)
      ensures fresh(vm) && fresh(vm.mem) && vm.State() == Init(ReadIntcode(s))
    {
      vm := new VM(ReadIntcode(s));
    }

    /** `read_param`. */
    method ReadParam(p: Parameter) returns (r: Result<int, Fault>)
      ensures r == ReadValue(State(), p)
    {
      if p.mode == Literal {
        return Success(p.val);
      }
      var a := if p.mode == Relative then relBase + p.val else p.val;
      if 0 <= a < mem.Length {
        r := Success(mem[a]);
      } else {
        r := Failure(OutOfRange(a));
      }
    }

    /** `write_param_value`. */
    method WriteParamValue(p: Parameter, v: int) returns (r: Result<(), Fault>)
      modifies mem
      ensures Stored(r, old(mem[..]), mem[..], WriteValue(old(State()), p, v))
    {
      if p.mode == Literal {
        return Failure(LiteralWrite);
      }
      var a := if p.mode == Relative then relBase + p.val else p.val;
      if !(0 <= a < mem.Length) {
        return Failure(OutOfRange(a));
      }
      mem[a] := v;
      r := Success(());
    }

    /** `Opcode.get_opcode_and_params(self, address)`. */
    method GetOpcodeAndParams(address: int) returns (r: Result<(Opcode, seq<Parameter>), Fault>)
      ensures r == OpcodeAndParams(mem[..], address)
    {
      if !(0 <= address < mem.Length) {
        return Failure(OutOfRange(address));
      }
      var om := GetOpcodeAndModes(mem[address]);
      if om.Failure? {
        return Failure(om.error);
      }
      var (opcode, modes) := om.value;
      if address + |modes| >= mem.Length {
        return Failure(OutOfRange(mem.Length));
      }
      r := Success((opcode, ParamsOf(modes, mem[address + 1 .. address + 1 + |modes|])));
    }

    /** `status`. */
    method Status() returns (s: StatusCode)
      ensures s == StatusOf(State())
    {
      if halted {
        s := Halted;
      } else if needsInput {
        s := NeedsInput;
      } else if pc >= mem.Length {
        s := PcRangeErr;
      } else {
        s := Ok;
      }
    }

    /** `send_input`. */
    method SendInput(v: int)
      modifies this`inputs, this`needsInput
      ensures State() == Deliver(old(State()), v)
    {
      inputs := inputs + [v];
      needsInput := false;
    }

    /** `get_input`. */
    method GetInput() returns (r: Option<int>)
      modifies this`inputs, this`needsInput
      ensures (r, State()) == TakeInput(old(State()))
    {
      if |inputs| > 0 {
        r := Some(inputs[0]);
        inputs := inputs[1..];
      } else {
        needsInput := true;
        r := None;
      }
    }

    /** `read_output`. */
    method ReadOutput() returns (r: Option<int>)
      modifies this`outputs
      ensures (r, State()) == TakeOutput(old(State()))
    {
      if |outputs| > 0 {
        r := Some(outputs[0]);
        outputs := outputs[1..];
      } else {
        r := None;
      }
    }

    /** `write_output`. */
    method WriteOutput(v: int)
      modifies this`outputs
      ensures State() == PutOutput(old(State()), v)
    {
      outputs := outputs + [v];
    }

    /** The add, mul, lt and eq procs. */
    method OpArith(sym: Op, params: seq<Parameter>) returns (r: Result<(), Fault>)
      requires IsArith(sym) && |params| == 3
      modifies this`pc, mem
      ensures Reports(r, State(), ExecArith(old(State()), sym, params))
    {
      var x := ReadParam(params[0]);
      if x.Failure? {
        return Failure(x.error);
      }
      var y := ReadParam(params[1]);
      if y.Failure? {
        return Failure(y.error);
      }
      r := WriteParamValue(params[2], BinOp(sym, x.value, y.value));
      if r.Success? {
        pc := pc + 4;
      }
    }

    /** The input proc. */
    method OpInput(params: seq<Parameter>) returns (r: Result<(), Fault>)
      requires |params| == 1
      modifies this`pc, this`inputs, this`needsInput, mem
      ensures Reports(r, State(), ExecInput(old(State()), params))
    {
      var input := GetInput();
      if input.None? {
        return Success(());
      }
      r := WriteParamValue(params[0], input.value);
      if r.Success? {
        pc := pc + 2;
      }
    }

    /** The output proc. */
    method OpOutput(params: seq<Parameter>) returns (r: Result<(), Fault>)
      requires |params| == 1
      modifies this`pc, this`outputs
      ensures Reports(r, State(), ExecOutput(old(State()), params))
    {
      var x := ReadParam(params[0]);
      if x.Failure? {
        return Failure(x.error);
      }
      WriteOutput(x.value);
      pc := pc + 2;
      r := Success(());
    }

    /** The jt and jf procs. */
    method OpJump(sym: Op, params: seq<Parameter>) returns (r: Result<(), Fault>)
      requires |params| == 2
      modifies this`pc
      ensures Reports(r, State(), ExecJump(old(State()), sym, params))
    {
      var x := ReadParam(params[0]);
      if x.Failure? {
        return Failure(x.error);
      }
      if Taken(sym, x.value) {
        var dest := ReadParam(params[1]);
        if dest.Failure? {
          return Failure(dest.error);
        }
        pc := dest.value;
      } else {
        pc := pc + 3;
      }
      r := Success(());
    }

    /** The adj_rel_base proc. */
    method OpRel(params: seq<Parameter>) returns (r: Result<(), Fault>)
      requires |params| == 1
      modifies this`pc, this`relBase
      ensures Reports(r, State(), ExecRel(old(State()), params))
    {
      var x := ReadParam(params[0]);
      if x.Failure? {
        return Failure(x.error);
      }
      relBase := relBase + x.value;
      pc := pc + 2;
      r := Success(());
    }

    /** One turn of `run`'s loop: decode at pc and call the opcode's proc. */
    method Exec() returns (r: Result<(), Fault>)
      modifies this`pc, this`relBase, this`halted, this`needsInput, this`inputs, this`outputs, mem
      ensures Reports(r, State(), Step(old(State())))
    {
      var d := GetOpcodeAndParams(pc);
      if d.Failure? {
        return Failure(d.error);
      }
      var (opcode, params) := d.value;
      match opcode.sym
      case Add | Mul | Lt | Eq =>
        r := OpArith(opcode.sym, params);
      case Input =>
        r := OpInput(params);
      case Output =>
        r := OpOutput(params);
      case Jt | Jf =>
        r := OpJump(opcode.sym, params);
      case AdjRelBase =>
        r := OpRel(params);
      case Halt =>
        halted := true;
        r := Success(());
    }

    /** `run`, for at most `fuel` instructions. */
    method Run(fuel: nat) returns (r: RunOutcome)
      modifies this`pc, this`relBase, this`halted, this`needsInput, this`inputs, this`outputs, mem
      ensures (State(), r) == RunSpec(old(State()), fuel)
    {
      var left := fuel;
      while !halted && !needsInput && pc < mem.Length
        invariant RunSpec(State(), left) == RunSpec(old(State()), fuel)
        decreases left
      {
        if left == 0 {
          return OutOfFuel;
        }
        var e := Exec();
        if e.Failure? {
          return Crashed(e.error);
        }
        left := left - 1;
      }
      if halted {
        r := Stopped(Halted);
      } else if needsInput {
        r := Stopped(NeedsInput);
      } else {
        r := Stopped(PcRangeErr);
      }
    }
  }
}
