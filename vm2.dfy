/** The second Intcode virtual machine (lib/vm2.rb): memory that grows on
    demand and zero-fills, three addressing modes, a ten-opcode dispatch,
    input/output queues, and optional input/output hooks through which the
    machine drives a device.

    Ruby's exceptions become a `Fault`; every change the source makes before
    it raises (memory grown by decoding, input already taken) is kept. The
    pure functions below (Load, Store, DecodeAt, Step, RunSpec) state what the
    methods of class `VM` do, and the lemmas state what the source promises. */
module VM2 {
  import opened Common
  import Text

  datatype Mode = Position | Literal | Relative

  /** An operand: its addressing mode and the raw word that follows the instruction. */
  datatype Param = Param(mode: Mode, raw: int)

  datatype Instr = Instr(opcode: int, params: seq<Param>)

  datatype Status = Ok | NeedsInput | Halted

  /** The exceptions `exec` can raise. */
  datatype Fault =
    | BadMode(digit: int)           // `mode`: unsupported addressing mode
    | LiteralWrite                  // `write_p`: cannot write to a literal
    | InvalidOpcode(opcode: int)    // `exec`: invalid opcode
    | NegativeAddress(address: int) // an address or pc below zero
    | HookRaised                    // an installed input or output hook raised

  /** What the installed input hook does when `read_input` calls it. */
  datatype HookReply = Returns(value: int) | Raises

  // ---------------------------------------------------------------------
  // Addressing modes

  /** `mode`: the addressing mode a digit selects. */
  function ModeOf(m: int): Result<Mode, Fault>
  {
    if m == 0 then Success(Position)
    else if m == 1 then Success(Literal)
    else if m == 2 then Success(Relative)
    else Failure(BadMode(m))
  }

  /** The digit an assembler writes for a mode. */
  function ModeCode(md: Mode): int
  {
    match md
    case Position => 0
    case Literal => 1
    case Relative => 2
  }

  /** `mode` accepts exactly the digits 0, 1 and 2, and is inverted by `ModeCode`. */
  lemma ModeOfCode(m: int)
    ensures ModeOf(m).Success? <==> 0 <= m <= 2
    ensures ModeOf(m).Success? ==> ModeCode(ModeOf(m).value) == m
    ensures ModeOf(m).Failure? ==> ModeOf(m).error == BadMode(m)
    ensures forall md: Mode :: ModeOf(ModeCode(md)) == Success(md)
  {
  }

  // ---------------------------------------------------------------------
  // Memory

  function Zeros(n: nat): (z: seq<int>)
    ensures |z| == n && forall i :: 0 <= i < n ==> z[i] == 0
  {
    if n == 0 then [] else Zeros(n - 1) + [0]
  }

  /** Memory after the zero-fill of `read_mem`/`write_mem` for address `a`. */
  function Grown(mem: seq<int>, a: nat): (r: seq<int>)
    ensures |r| == Max(|mem|, a + 1)
    ensures mem <= r
    ensures forall i :: |mem| <= i < |r| ==> r[i] == 0
  {
    if |mem| <= a then mem + Zeros(a + 1 - |mem|) else mem
  }

  /** Growing memory in two steps is growing it once. */
  lemma GrownTwice(mem: seq<int>, a: nat, b: nat)
    requires a <= b
    ensures Grown(Grown(mem, a), b) == Grown(mem, b)
  {
    var x, y := Grown(Grown(mem, a), b), Grown(mem, b);
    assert |x| == |y|;
    forall i | 0 <= i < |x| ensures x[i] == y[i] {
      if i < |mem| {
        assert x[i] == Grown(mem, a)[i] == mem[i];
      } else if i < |Grown(mem, a)| {
        assert x[i] == Grown(mem, a)[i] == 0;
      }
    }
  }

  /** `read_mem`: the value at `a` and the memory after the read. */
  function Load(mem: seq<int>, a: int): (r: Result<(int, seq<int>), Fault>)
    ensures a < 0 ==> r == Failure(NegativeAddress(a))
    ensures 0 <= a < |mem| ==> r == Success((mem[a], mem))
    ensures |mem| <= a ==> r == Success((0, mem + Zeros(a + 1 - |mem|)))
  {
    if a < 0 then Failure(NegativeAddress(a))
    else var m := Grown(mem, a); Success((m[a], m))
  }

  /** `write_mem`: the memory after storing `v` at `a`. */
  function Store(mem: seq<int>, a: int, v: int): (r: Result<seq<int>, Fault>)
    ensures a < 0 ==> r == Failure(NegativeAddress(a))
    ensures 0 <= a ==> r.Success?
    ensures 0 <= a ==> |r.value| == Max(|mem|, a + 1) && r.value[a] == v
    ensures 0 <= a ==> forall i :: 0 <= i < |mem| && i != a ==> r.value[i] == mem[i]
    ensures 0 <= a ==> forall i :: |mem| <= i < |r.value| && i != a ==> r.value[i] == 0
  {
    if a < 0 then Failure(NegativeAddress(a)) else Success(Grown(mem, a)[a := v])
  }

  /** The address a position or relative operand refers to. */
  function Addr(relBase: int, p: Param): int
  {
    if p.mode == Relative then relBase + p.raw else p.raw
  }

  /** `read_p`. */
  function LoadP(mem: seq<int>, relBase: int, p: Param): (r: Result<(int, seq<int>), Fault>)
    ensures r.Success? ==> Padded(mem, r.value.1)
  {
    match p.mode
    case Position => Load(mem, p.raw)
    case Literal => Success((p.raw, mem))
    case Relative => Load(mem, relBase + p.raw)
  }

  /** `write_p`. */
  function StoreP(mem: seq<int>, relBase: int, p: Param, v: int): (r: Result<seq<int>, Fault>)
    ensures r.Success? ==> |mem| <= |r.value|
  {
    match p.mode
    case Position => Store(mem, p.raw, v)
    case Relative => Store(mem, relBase + p.raw, v)
    case Literal => Failure(LiteralWrite)
  }

  /** A relative operand is the position operand at `relBase + raw`, for reads and writes. */
  lemma RelativeIsShiftedPosition(mem: seq<int>, relBase: int, raw: int, v: int)
    ensures LoadP(mem, relBase, Param(Relative, raw)) == LoadP(mem, 0, Param(Position, relBase + raw))
    ensures StoreP(mem, relBase, Param(Relative, raw), v) == StoreP(mem, 0, Param(Position, relBase + raw), v)
    ensures StoreP(mem, relBase, Param(Literal, raw), v) == Failure(LiteralWrite)
  {
  }

  // ---------------------------------------------------------------------
  // Decoding

  /** The outcome of `decode` and the memory it leaves (decoding reads the
      three words after the instruction through `read_mem`). */
  datatype Decoded = Decoded(instr: Result<Instr, Fault>, mem: seq<int>)

  /** The rest of `decode`'s `map` from parameter `i` on: `rest` holds the mode
      digits not yet used, `ps` the parameters decoded so far. */
  function DecodeFrom(mem: seq<int>, pc: nat, opcode: int, rest: int, i: nat, ps: seq<Param>): Decoded
    requires 1 <= i <= 4
    decreases 4 - i
  {
    if i == 4 then Decoded(Success(Instr(opcode, ps)), mem)
    else match ModeOf(rest % 10)
      case Failure(e) => Decoded(Failure(e), mem)
      case Success(md) =>
        var m := Grown(mem, pc + i);
        DecodeFrom(m, pc, opcode, rest / 10, i + 1, ps + [Param(md, m[pc + i])])
  }

  /** `decode`: the instruction at `pc`. */
  function DecodeAt(mem: seq<int>, pc: nat): Decoded
    requires pc < |mem|
  {
    DecodeFrom(mem, pc, mem[pc] % 100, mem[pc] / 100, 1, [])
  }

  /** Mode digit of parameter `i` (1 to 3): the digit at 10^(i+1). */
  function ModeDigit(word: int, i: nat): int
    requires 1 <= i <= 3
  {
    if i == 1 then word / 100 % 10
    else if i == 2 then word / 100 / 10 % 10
    else word / 100 / 10 / 10 % 10
  }

  /** Whether mode digit `i` of `word` names a supported mode. */
  predicate GoodDigit(word: int, i: nat)
    requires 1 <= i <= 3
  {
    0 <= ModeDigit(word, i) <= 2
  }

  /** All three mode digits name supported modes. */
  predicate GoodModes(word: int)
  {
    GoodDigit(word, 1) && GoodDigit(word, 2) && GoodDigit(word, 3)
  }

  /** A successful `decode` yields opcode `word % 100` and three parameters,
      parameter i taking mode digit i and the word at pc + i, after growing
      memory to cover pc + 3. */
  lemma DecodeSucceeds(mem: seq<int>, pc: nat)
    requires pc < |mem|
    requires GoodModes(mem[pc])
    ensures var w := mem[pc]; var g := Grown(mem, pc + 3);
      DecodeAt(mem, pc) == Decoded(Success(Instr(w % 100, [
        Param(ModeOf(ModeDigit(w, 1)).value, g[pc + 1]),
        Param(ModeOf(ModeDigit(w, 2)).value, g[pc + 2]),
        Param(ModeOf(ModeDigit(w, 3)).value, g[pc + 3])])), g)
  {
    var w := mem[pc];
    var op := w % 100;
    var r0 := w / 100;
    var g1 := Grown(mem, pc + 1);
    var p1 := Param(ModeOf(r0 % 10).value, g1[pc + 1]);
    assert [] + [p1] == [p1];
    assert DecodeAt(mem, pc) == DecodeFrom(g1, pc, op, r0 / 10, 2, [p1]);
    var g2 := Grown(g1, pc + 2);
    var p2 := Param(ModeOf(r0 / 10 % 10).value, g2[pc + 2]);
    assert [p1] + [p2] == [p1, p2];
    assert DecodeAt(mem, pc) == DecodeFrom(g2, pc, op, r0 / 10 / 10, 3, [p1, p2]);
    var g3 := Grown(g2, pc + 3);
    var p3 := Param(ModeOf(r0 / 10 / 10 % 10).value, g3[pc + 3]);
    assert [p1, p2] + [p3] == [p1, p2, p3];
    assert DecodeAt(mem, pc) == Decoded(Success(Instr(op, [p1, p2, p3])), g3);
    assert g3 == Grown(mem, pc + 3);
    assert g3[pc + 1] == g1[pc + 1] && g3[pc + 2] == g2[pc + 2];
  }

  /** The first unsupported mode digit raises `BadMode`, after the words of
      the parameters before it were read. */
  lemma DecodeRaises(mem: seq<int>, pc: nat, i: nat)
    requires pc < |mem| && 1 <= i <= 3
    requires forall j :: 1 <= j < i ==> GoodDigit(mem[pc], j)
    requires !GoodDigit(mem[pc], i)
    ensures DecodeAt(mem, pc) == Decoded(Failure(BadMode(ModeDigit(mem[pc], i))), Grown(mem, pc + i - 1))
  {
    var w := mem[pc];
    var op := w % 100;
    var r0 := w / 100;
    assert Grown(mem, pc) == mem;
    if i > 1 {
      assert GoodDigit(w, 1);
      var g1 := Grown(mem, pc + 1);
      var p1 := Param(ModeOf(r0 % 10).value, g1[pc + 1]);
      assert [] + [p1] == [p1];
      assert DecodeAt(mem, pc) == DecodeFrom(g1, pc, op, r0 / 10, 2, [p1]);
      if i > 2 {
        assert GoodDigit(w, 2);
        var g2 := Grown(g1, pc + 2);
        var p2 := Param(ModeOf(r0 / 10 % 10).value, g2[pc + 2]);
        assert [p1] + [p2] == [p1, p2];
        assert DecodeAt(mem, pc) == DecodeFrom(g2, pc, op, r0 / 10 / 10, 3, [p1, p2]);
        assert g2 == Grown(mem, pc + 2);
      }
    }
  }

  /** `decode` raises exactly when a mode digit is not 0, 1 or 2; it only
      ever pads memory with zeros, and on success to cover pc + 3. */
  lemma DecodeSpec(mem: seq<int>, pc: nat)
    requires pc < |mem|
    ensures DecodeAt(mem, pc).instr.Success? <==> GoodModes(mem[pc])
    ensures Padded(mem, DecodeAt(mem, pc).mem)
    ensures DecodeAt(mem, pc).instr.Success? ==> DecodeAt(mem, pc).mem == Grown(mem, pc + 3)
    ensures DecodeAt(mem, pc).instr.Success? ==> |DecodeAt(mem, pc).instr.value.params| == 3
  {
    var w := mem[pc];
    if GoodModes(w) {
      DecodeSucceeds(mem, pc);
    } else if !GoodDigit(w, 1) {
      DecodeRaises(mem, pc, 1);
    } else if !GoodDigit(w, 2) {
      DecodeRaises(mem, pc, 2);
    } else {
      DecodeRaises(mem, pc, 3);
    }
  }

  // ---------------------------------------------------------------------
  // Machine state and one instruction

  datatype Machine = Machine(
    mem: seq<int>, pc: int, relBase: int, status: Status,
    input: seq<int>, output: seq<int>,
    inputFn: bool,  // an input hook is installed
    outputFn: bool) // an output hook is installed

  /** What one `exec` leads to: the next state and the value handed to the
      output hook, if any; or the exception and the state at that point. */
  datatype StepResult =
    | Next(m: Machine, emitted: Option<int>)
    | Raised(m: Machine, fault: Fault)

  /** `VM.new(mem)` */
  function Init(mem: seq<int>): Machine
  {
    Machine(mem, 0, 0, Ok, [], [], false, false)
  }

  /** `read_input`: the value obtained (None when the queue is empty) and the new state. */
  function TakeInput(m: Machine, hookIn: HookReply): (Result<Option<int>, Fault>, Machine)
  {
    if m.inputFn then
      match hookIn
      case Returns(v) => (Success(Some(v)), m)
      case Raises => (Failure(HookRaised), m)
    else if m.input != [] then (Success(Some(m.input[0])), m.(input := m.input[1..]))
    else (Success(None), m.(status := NeedsInput))
  }

  /** `write_output`: append to the queue, or hand the value to the hook,
      which returns normally exactly for the values `accepts` holds of. */
  function GiveOutput(m: Machine, v: int, accepts: int -> bool): StepResult
  {
    if m.outputFn then
      if accepts(v) then Next(m, Some(v)) else Raised(m, HookRaised)
    else Next(m.(output := m.output + [v]), None)
  }

  /** The value opcodes 1, 2, 7 and 8 store. */
  function BinOp(opcode: int, a: int, b: int): int
  {
    if opcode == 1 then a + b
    else if opcode == 2 then a * b
    else if opcode == 7 then (if a < b then 1 else 0)
    else (if a == b then 1 else 0)
  }

  /** add, mul, lt, eq: read two operands, write the result, advance by 4. */
  function ExecBinary(m: Machine, opcode: int, ps: seq<Param>): StepResult
    requires |ps| == 3
  {
    match LoadP(m.mem, m.relBase, ps[0])
    case Failure(e) => Raised(m, e)
    case Success((a, mem1)) =>
      match LoadP(mem1, m.relBase, ps[1])
      case Failure(e) => Raised(m.(mem := mem1), e)
      case Success((b, mem2)) =>
        match StoreP(mem2, m.relBase, ps[2], BinOp(opcode, a, b))
        case Failure(e) => Raised(m.(mem := mem2), e)
        case Success(mem3) => Next(m.(mem := mem3, pc := m.pc + 4), None)
  }

  function ExecInput(m: Machine, dest: Param, hookIn: HookReply): StepResult
  {
    var (got, m1) := TakeInput(m, hookIn);
    match got
    case Failure(e) => Raised(m1, e)
    case Success(None) => Next(m1, None)
    case Success(Some(v)) =>
      match StoreP(m1.mem, m1.relBase, dest, v)
      case Failure(e) => Raised(m1, e)
      case Success(mem1) => Next(m1.(mem := mem1, pc := m1.pc + 2), None)
  }

  function ExecOutput(m: Machine, src: Param, accepts: int -> bool): StepResult
  {
    match LoadP(m.mem, m.relBase, src)
    case Failure(e) => Raised(m, e)
    case Success((v, mem1)) =>
      match GiveOutput(m.(mem := mem1), v, accepts)
      case Raised(m2, e) => Raised(m2, e)
      case Next(m2, out) => Next(m2.(pc := m2.pc + 2), out)
  }

  /** jt (5) and jf (6). */
  function ExecJump(m: Machine, opcode: int, ps: seq<Param>): StepResult
    requires |ps| == 3
  {
    match LoadP(m.mem, m.relBase, ps[0])
    case Failure(e) => Raised(m, e)
    case Success((c, mem1)) =>
      if (opcode == 5 && c != 0) || (opcode == 6 && c == 0) then
        match LoadP(mem1, m.relBase, ps[1])
        case Failure(e) => Raised(m.(mem := mem1), e)
        case Success((t, mem2)) => Next(m.(mem := mem2, pc := t), None)
      else Next(m.(mem := mem1, pc := m.pc + 3), None)
  }

  function ExecRel(m: Machine, src: Param): StepResult
  {
    match LoadP(m.mem, m.relBase, src)
    case Failure(e) => Raised(m, e)
    case Success((a, mem1)) => Next(m.(mem := mem1, relBase := m.relBase + a, pc := m.pc + 2), None)
  }

  /** The `case` of `exec`, on a decoded instruction. */
  function Execute(m: Machine, ins: Instr, hookIn: HookReply, accepts: int -> bool): StepResult
    requires |ins.params| == 3
  {
    var op := ins.opcode;
    if op == 1 || op == 2 || op == 7 || op == 8 then ExecBinary(m, op, ins.params)
    else if op == 3 then ExecInput(m, ins.params[0], hookIn)
    else if op == 4 then ExecOutput(m, ins.params[0], accepts)
    else if op == 5 || op == 6 then ExecJump(m, op, ins.params)
    else if op == 9 then ExecRel(m, ins.params[0])
    else if op == 99 then Next(m.(status := Halted, pc := m.pc + 1), None)
    else Raised(m, InvalidOpcode(op))
  }

  lemma DecodeFromParams(mem: seq<int>, pc: nat, opcode: int, rest: int, i: nat, ps: seq<Param>)
    requires 1 <= i <= 4 && |ps| == i - 1
    ensures var d := DecodeFrom(mem, pc, opcode, rest, i, ps);
      d.instr.Success? ==> |d.instr.value.params| == 3 && d.instr.value.opcode == opcode
    decreases 4 - i
  {
    if i < 4 && ModeOf(rest % 10).Success? {
      var m := Grown(mem, pc + i);
      DecodeFromParams(m, pc, opcode, rest / 10, i + 1, ps + [Param(ModeOf(rest % 10).value, m[pc + i])]);
    }
  }

  /** `exec`, for a pc inside memory (as `run` guarantees). */
  function Step(m: Machine, hookIn: HookReply, accepts: int -> bool): StepResult
    requires m.pc < |m.mem|
  {
    if m.pc < 0 then Raised(m, NegativeAddress(m.pc))
    else
      var d := DecodeAt(m.mem, m.pc);
      var m1 := m.(mem := d.mem);
      match d.instr
      case Failure(e) => Raised(m1, e)
      case Success(ins) =>
        DecodeFromParams(m.mem, m.pc, m.mem[m.pc] % 100, m.mem[m.pc] / 100, 1, []);
        Execute(m1, ins, hookIn, accepts)
  }

  // ---------------------------------------------------------------------
  // Properties of one instruction

  /** The decoded instruction at pc, when decoding succeeds. */
  predicate DecodesTo(m: Machine, ins: Instr)
  {
    0 <= m.pc < |m.mem| && DecodeAt(m.mem, m.pc).instr == Success(ins)
  }

  /** Memory `after` is `before` plus zero padding. */
  predicate Padded(before: seq<int>, after: seq<int>)
  {
    before <= after && forall i :: |before| <= i < |after| ==> after[i] == 0
  }

  /** Input with an empty queue and no hook suspends without changing anything
      but the status: pc, relative base, queues and every memory value stay,
      memory gaining only the zero padding of decoding. */
  lemma InputSuspends(m: Machine, ins: Instr, hookIn: HookReply, accepts: int -> bool)
    requires DecodesTo(m, ins) && ins.opcode == 3
    requires !m.inputFn && m.input == []
    ensures var r := Step(m, hookIn, accepts);
      && r.Next? && r.emitted == None
      && r.m == m.(status := NeedsInput, mem := r.m.mem)
      && Padded(m.mem, r.m.mem)
  {
    StepOfDecoded(m, ins, hookIn, accepts);
  }

  /** `exec` of a decodable instruction is the `case` on it, over the padded memory. */
  lemma StepOfDecoded(m: Machine, ins: Instr, hookIn: HookReply, accepts: int -> bool)
    requires DecodesTo(m, ins)
    ensures |ins.params| == 3 && Padded(m.mem, Grown(m.mem, m.pc + 3))
    ensures Step(m, hookIn, accepts) == Execute(m.(mem := Grown(m.mem, m.pc + 3)), ins, hookIn, accepts)
  {
    DecodeSpec(m.mem, m.pc);
  }

  /** Decoding memory that decoding already padded gives the same instruction. */
  lemma DecodeAgain(mem: seq<int>, pc: nat)
    requires pc < |mem| && GoodModes(mem[pc])
    ensures DecodeAt(Grown(mem, pc + 3), pc) == DecodeAt(mem, pc)
  {
    var g := Grown(mem, pc + 3);
    DecodeSucceeds(mem, pc);
    DecodeSucceeds(g, pc);
    GrownTwice(mem, pc + 3, pc + 3);
  }

  /** `send_input`: append to the queue; a suspended machine may run again. */
  function Deliver(m: Machine, v: int): Machine
  {
    m.(input := m.input + [v], status := if m.status == NeedsInput then Ok else m.status)
  }

  /** Resuming is seamless: a machine that suspended on input and then got `v`
      executes the input instruction exactly as if `v` had been queued before. */
  lemma ResumeAfterInput(m: Machine, ins: Instr, v: int, hookIn: HookReply, accepts: int -> bool)
    requires DecodesTo(m, ins) && ins.opcode == 3
    requires !m.inputFn && m.input == [] && m.status == Ok
    ensures var s := Step(m, hookIn, accepts).m;
      var resumed := Deliver(s, v);
      && resumed.pc == m.pc && resumed.pc < |resumed.mem|
      && Step(resumed, hookIn, accepts) == Step(m.(input := [v]), hookIn, accepts)
  {
    var g := Grown(m.mem, m.pc + 3);
    StepOfDecoded(m, ins, hookIn, accepts);
    var s := Step(m, hookIn, accepts).m;
    assert s == m.(status := NeedsInput, mem := g);
    var resumed := Deliver(s, v);
    assert resumed == m.(mem := g, input := [v]);
    DecodeSpec(m.mem, m.pc);
    DecodeAgain(m.mem, m.pc);
    GrownTwice(m.mem, m.pc + 3, m.pc + 3);
    StepOfDecoded(resumed, ins, hookIn, accepts);
    StepOfDecoded(m.(input := [v]), ins, hookIn, accepts);
  }

  /** lt and eq store exactly 0 or 1 at the destination and advance by 4. */
  lemma CompareWritesBit(m: Machine, ins: Instr, hookIn: HookReply, accepts: int -> bool)
    requires DecodesTo(m, ins) && (ins.opcode == 7 || ins.opcode == 8)
    requires Step(m, hookIn, accepts).Next?
    ensures var r := Step(m, hookIn, accepts).m; var a := Addr(m.relBase, ins.params[2]);
      && 0 <= a < |r.mem| && (r.mem[a] == 0 || r.mem[a] == 1)
      && r.pc == m.pc + 4
  {
    StepOfDecoded(m, ins, hookIn, accepts);
  }

  /** How far each instruction moves pc, and what halt does. */
  lemma StepAdvancesPc(m: Machine, ins: Instr, hookIn: HookReply, accepts: int -> bool)
    requires DecodesTo(m, ins)
    requires Step(m, hookIn, accepts).Next?
    ensures var r := Step(m, hookIn, accepts).m; var op := ins.opcode;
      && (op in {1, 2, 7, 8} ==> r.pc == m.pc + 4)
      && (op in {4, 9} ==> r.pc == m.pc + 2)
      && (op == 3 ==> (r.pc == m.pc + 2 || (r.pc == m.pc && r.status == NeedsInput)))
      && (op == 3 && m.inputFn ==> r.pc == m.pc + 2)
      && (op == 5 && LoadP(Grown(m.mem, m.pc + 3), m.relBase, ins.params[0]).value.0 == 0 ==> r.pc == m.pc + 3)
      && (op == 6 && LoadP(Grown(m.mem, m.pc + 3), m.relBase, ins.params[0]).value.0 != 0 ==> r.pc == m.pc + 3)
      && (op == 99 ==> r.status == Halted && r.pc == m.pc + 1)
      && (op != 3 && op != 99 ==> r.status == m.status)
  {
    StepOfDecoded(m, ins, hookIn, accepts);
  }

  /** An opcode outside 1..9 and 99 raises, after decoding grew memory. */
  lemma InvalidOpcodeRaises(m: Machine, ins: Instr, hookIn: HookReply, accepts: int -> bool)
    requires DecodesTo(m, ins) && ins.opcode !in {1, 2, 3, 4, 5, 6, 7, 8, 9, 99}
    ensures Step(m, hookIn, accepts) == Raised(m.(mem := Grown(m.mem, m.pc + 3)), InvalidOpcode(ins.opcode))
  {
    StepOfDecoded(m, ins, hookIn, accepts);
  }

  /** add, mul, lt and eq raise `LiteralWrite` when their destination is a
      literal and both operands could be read. */
  lemma LiteralWriteRaises(m: Machine, ins: Instr, hookIn: HookReply, accepts: int -> bool)
    requires DecodesTo(m, ins) && ins.opcode in {1, 2, 7, 8}
    requires ins.params[2].mode == Literal
    requires var g := Grown(m.mem, m.pc + 3); var a := LoadP(g, m.relBase, ins.params[0]);
      a.Success? && LoadP(a.value.1, m.relBase, ins.params[1]).Success?
    ensures Step(m, hookIn, accepts).Raised? && Step(m, hookIn, accepts).fault == LiteralWrite
  {
    StepOfDecoded(m, ins, hookIn, accepts);
  }

  /** What every instruction keeps: the hook flags; output is only appended
      to, memory never shrinks, and without an output hook nothing is emitted. */
  predicate Conserves(m: Machine, r: StepResult)
  {
    && r.m.inputFn == m.inputFn && r.m.outputFn == m.outputFn
    && m.output <= r.m.output && |m.mem| <= |r.m.mem|
    && (!m.outputFn && r.Next? ==> r.emitted == None)
  }

  lemma ExecuteConserves(m: Machine, ins: Instr, hookIn: HookReply, accepts: int -> bool)
    requires |ins.params| == 3
    ensures Conserves(m, Execute(m, ins, hookIn, accepts))
  {
    var op, ps := ins.opcode, ins.params;
    if op == 1 || op == 2 || op == 7 || op == 8 {
      BinaryConserves(m, op, ps);
    } else if op == 3 {
      InputConserves(m, ps[0], hookIn);
    } else if op == 4 {
      OutputConserves(m, ps[0], accepts);
    } else if op == 5 || op == 6 {
      JumpConserves(m, op, ps);
    }
  }

  lemma BinaryConserves(m: Machine, op: int, ps: seq<Param>)
    requires |ps| == 3
    ensures Conserves(m, ExecBinary(m, op, ps))
  {
  }

  lemma InputConserves(m: Machine, dest: Param, hookIn: HookReply)
    ensures Conserves(m, ExecInput(m, dest, hookIn))
  {
  }

  lemma OutputConserves(m: Machine, src: Param, accepts: int -> bool)
    ensures Conserves(m, ExecOutput(m, src, accepts))
  {
  }

  lemma JumpConserves(m: Machine, op: int, ps: seq<Param>)
    requires |ps| == 3
    ensures Conserves(m, ExecJump(m, op, ps))
  {
  }

  lemma StepConserves(m: Machine, hookIn: HookReply, accepts: int -> bool)
    requires m.pc < |m.mem|
    ensures Conserves(m, Step(m, hookIn, accepts))
  {
    if m.pc >= 0 {
      var d := DecodeAt(m.mem, m.pc);
      DecodeSpec(m.mem, m.pc);
      if d.instr.Success? {
        ExecuteConserves(m.(mem := d.mem), d.instr.value, hookIn, accepts);
      }
    }
  }

  // ---------------------------------------------------------------------
  // Running

  /** The loop condition of `run`. */
  predicate Running(m: Machine)
  {
    m.status != Halted && m.status != NeedsInput && m.pc < |m.mem|
  }

  /** Why `run` returned: with its status, or by an exception; `OutOfFuel`
      marks the step bound of the model (the source loop is unbounded). */
  datatype RunOutcome = Stopped(status: Status) | Crashed(fault: Fault) | OutOfFuel

  /** The output-hook argument used in queue mode, where no hook is called. */
  function NoHook(v: int): bool { false }

  /** `run` in queue mode, for at most `fuel` instructions. */
  function RunSpec(m: Machine, fuel: nat): (Machine, RunOutcome)
    requires !m.inputFn && !m.outputFn
    decreases fuel
  {
    if !Running(m) then (m, Stopped(m.status))
    else if fuel == 0 then (m, OutOfFuel)
    else
      StepConserves(m, Raises, NoHook);
      match Step(m, Raises, NoHook)
      case Raised(m1, e) => (m1, Crashed(e))
      case Next(m1, _) => RunSpec(m1, fuel - 1)
  }

  lemma SameFuel(m: Machine, a: nat, b: nat)
    requires !m.inputFn && !m.outputFn && a == b
    ensures RunSpec(m, a) == RunSpec(m, b)
  {
  }

  /** One turn of `run`'s loop: `after` and `e` are what `exec` made of `before`. */
  lemma RunTurn(before: Machine, after: Machine, e: Result<Option<int>, Fault>, fuel: nat)
    requires !before.inputFn && !before.outputFn && Running(before) && fuel > 0
    requires Reports(e, after, Step(before, Raises, NoHook))
    ensures !after.inputFn && !after.outputFn
    ensures e.Failure? ==> RunSpec(before, fuel) == (after, Crashed(e.error))
    ensures e.Success? ==> RunSpec(before, fuel) == RunSpec(after, fuel - 1)
  {
    StepConserves(before, Raises, NoHook);
  }

  /** `run` returns only with status halted, needs_input, or ok with pc past
      the end of memory, and the status it returns is the machine's. */
  lemma {:induction false} RunStops(m: Machine, fuel: nat)
    requires !m.inputFn && !m.outputFn
    ensures var r := RunSpec(m, fuel);
      r.1.Stopped? ==> && r.1.status == r.0.status && !Running(r.0)
                       && (r.1.status == Halted || r.1.status == NeedsInput
                           || (r.1.status == Ok && r.0.pc >= |r.0.mem|))
    decreases fuel
  {
    if Running(m) && fuel > 0 {
      var s := Step(m, Raises, NoHook);
      StepConserves(m, Raises, NoHook);
      if s.Next? {
        RunStops(s.m, fuel - 1);
      }
    }
  }

  /** Outputs are only ever appended, and memory only grows. */
  lemma {:induction false} RunAppendsOutput(m: Machine, fuel: nat)
    requires !m.inputFn && !m.outputFn
    ensures m.output <= RunSpec(m, fuel).0.output
    ensures |m.mem| <= |RunSpec(m, fuel).0.mem|
    decreases fuel
  {
    if Running(m) && fuel > 0 {
      var s := Step(m, Raises, NoHook);
      StepConserves(m, Raises, NoHook);
      if s.Next? {
        RunAppendsOutput(s.m, fuel - 1);
        assert RunSpec(m, fuel) == RunSpec(s.m, fuel - 1);
      }
    }
  }

  // ---------------------------------------------------------------------
  // Loading a program

  /** `VM2.from_string`'s parse: chomp, split on commas, `to_i` each field. */
  function ParseProgram(s: string): seq<int>
  {
    Text.ParseInts(Text.Chomp(s))
  }

  /** Loading the text of a program, with or without a final newline, gives the program. */
  lemma ParseProgramText(p: seq<int>)
    ensures ParseProgram(Text.ShowInts(p)) == p
    ensures ParseProgram(Text.ShowInts(p) + "\n") == p
  {
    Text.ShowIntsHasNoBreak(p);
    Text.ChompPlain(Text.ShowInts(p));
    Text.ParseShowInts(p);
  }

  // ---------------------------------------------------------------------
  // The machine object

  /** How a method's result and new memory agree with a `Load`. */
  predicate Loaded(r: Result<int, Fault>, mem0: seq<int>, mem: seq<int>, l: Result<(int, seq<int>), Fault>)
  {
    match l
    case Success((v, m1)) => r == Success(v) && mem == m1
    case Failure(e) => r == Failure(e) && mem == mem0
  }

  /** How a method's result and new memory agree with a `Store`. */
  predicate Stored(r: Result<(), Fault>, mem0: seq<int>, mem: seq<int>, s: Result<seq<int>, Fault>)
  {
    match s
    case Success(m1) => r == Success(()) && mem == m1
    case Failure(e) => r == Failure(e) && mem == mem0
  }

  /** How `exec`'s result and the new state agree with `Step`. */
  predicate Reports(r: Result<Option<int>, Fault>, m: Machine, s: StepResult)
  {
    match s
    case Next(m1, out) => r == Success(out) && m == m1
    case Raised(m1, e) => r == Failure(e) && m == m1
  }

  class VM {
    var mem: seq<int>
    var pc: int
    var relBase: int
    var status: Status
    var input: seq<int>
    var output: seq<int>
    var inputFn: bool
    var outputFn: bool

    function State(): Machine
      reads this
    {
      Machine(mem, pc, relBase, status, input, output, inputFn, outputFn)
    }

    constructor (program: seq<int>)
      ensures State() == Init(program)
    {
      pc, relBase, status := 0, 0, Ok;
      mem := program;
      input, output := [], [];
      inputFn, outputFn := false, false;
    }

    /** `VM2.from_string` */
    static method FromString(s: string) returns (vm: VM)
      ensures fresh(vm) && vm.State() == Init(ParseProgram(s))
    {
      vm := new VM(ParseProgram(s));
    }

    method SendInput(v: int)
      modifies this`input, this`status
      ensures State() == Deliver(old(State()), v)
    {
      input := input + [v];
      if status == NeedsInput {
        status := Ok;
      }
    }

    /** `read_output`: the oldest queued output, or None. */
    method ReadOutput() returns (v: Option<int>)
      modifies this`output
      ensures old(output) == [] ==> v == None && output == []
      ensures old(output) != [] ==> v == Some(old(output)[0]) && output == old(output)[1..]
    {
      if output == [] {
        v := None;
      } else {
        v := Some(output[0]);
        output := output[1..];
      }
    }

    method ReadInput(hookIn: HookReply) returns (r: Result<Option<int>, Fault>)
      modifies this`input, this`status
      ensures (r, State()) == TakeInput(old(State()), hookIn)
    {
      if inputFn {
        match hookIn
        case Returns(v) => r := Success(Some(v));
        case Raises => r := Failure(HookRaised);
      } else if input != [] {
        r := Success(Some(input[0]));
        input := input[1..];
      } else {
        status := NeedsInput;
        r := Success(None);
      }
    }

    /** `write_output`; returns the value handed to the output hook, if one is installed. */
    method WriteOutput(v: int, accepts: int -> bool) returns (r: Result<Option<int>, Fault>)
      modifies this`output
      ensures Reports(r, State(), GiveOutput(old(State()), v, accepts))
    {
      if outputFn {
        r := if accepts(v) then Success(Some(v)) else Failure(HookRaised);
      } else {
        output := output + [v];
        r := Success(None);
      }
    }

    /** The zero-fill loop of `read_mem` and `write_mem`. */
    method Pad(address: nat)
      modifies this`mem
      ensures mem == Grown(old(mem), address)
    {
      if |mem| <= address {
        var n := address - |mem| + 1;
        for k := 0 to n
          invariant mem == old(mem) + Zeros(k)
        {
          mem := mem + [0];
        }
      }
    }

    method ReadMem(address: int) returns (r: Result<int, Fault>)
      modifies this`mem
      ensures Loaded(r, old(mem), mem, Load(old(mem), address))
    {
      if address < 0 {
        return Failure(NegativeAddress(address));
      }
      Pad(address);
      r := Success(mem[address]);
    }

    method WriteMem(address: int, v: int) returns (r: Result<(), Fault>)
      modifies this`mem
      ensures Stored(r, old(mem), mem, Store(old(mem), address, v))
    {
      if address < 0 {
        return Failure(NegativeAddress(address));
      }
      Pad(address);
      mem := mem[address := v];
      r := Success(());
    }

    method ReadP(p: Param) returns (r: Result<int, Fault>)
      modifies this`mem
      ensures Loaded(r, old(mem), mem, LoadP(old(mem), relBase, p))
    {
      match p.mode
      case Position => r := ReadMem(p.raw);
      case Literal => r := Success(p.raw);
      case Relative => r := ReadMem(relBase + p.raw);
    }

    method WriteP(p: Param, v: int) returns (r: Result<(), Fault>)
      modifies this`mem
      ensures Stored(r, old(mem), mem, StoreP(old(mem), relBase, p, v))
    {
      match p.mode
      case Position => r := WriteMem(p.raw, v);
      case Relative => r := WriteMem(relBase + p.raw, v);
      case Literal => r := Failure(LiteralWrite);
    }

    method Decode() returns (r: Result<Instr, Fault>)
      requires 0 <= pc < |mem|
      modifies this`mem
      ensures var d := DecodeAt(old(mem), old(pc)); r == d.instr && mem == d.mem
    {
      var instr := mem[pc];
      var opcode := instr % 100;
      instr := instr / 100;
      var params := [];
      for i := 1 to 4
        invariant mem == Grown(old(mem), pc + i - 1)
        invariant DecodeFrom(mem, pc, opcode, instr, i, params) == DecodeAt(old(mem), pc)
      {
        var md := ModeOf(instr % 10);
        if md.Failure? {
          return Failure(md.error);
        }
        ghost var before := mem;
        instr := instr / 10;
        var v := ReadMem(pc + i);
        GrownTwice(old(mem), pc + i - 1, pc + i);
        params := params + [Param(md.value, v.value)];
      }
      r := Success(Instr(opcode, params));
    }

    /** `exec`. `hookIn` is what the input hook does if it is called, and
        `accepts` says for which values the output hook returns normally;
        the result carries the value handed to the output hook. */
    method Exec(hookIn: HookReply, accepts: int -> bool) returns (r: Result<Option<int>, Fault>)
      requires pc < |mem|
      modifies this
      ensures Reports(r, State(), Step(old(State()), hookIn, accepts))
    {
      if pc < 0 {
        return Failure(NegativeAddress(pc));
      }
      ghost var m0 := State();
      var d := Decode();
      if d.Failure? {
        return Failure(d.error);
      }
      StepOfDecoded(m0, d.value, hookIn, accepts);
      DecodeSpec(m0.mem, m0.pc);
      assert State() == m0.(mem := Grown(m0.mem, m0.pc + 3));
      var opcode, params := d.value.opcode, d.value.params;
      if opcode == 1 || opcode == 2 || opcode == 7 || opcode == 8 {
        r := ExecArith(opcode, params);
      } else if opcode == 3 {
        r := ExecIn(params[0], hookIn);
      } else if opcode == 4 {
        r := ExecOut(params[0], accepts);
      } else if opcode == 5 || opcode == 6 {
        r := ExecJmp(opcode, params);
      } else if opcode == 9 {
        r := ExecRelBase(params[0]);
      } else if opcode == 99 {
        status := Halted;
        pc := pc + 1;
        r := Success(None);
      } else {
        r := Failure(InvalidOpcode(opcode));
      }
    }

    /** Opcode 3 of `exec`. */
    method ExecIn(dest: Param, hookIn: HookReply) returns (r: Result<Option<int>, Fault>)
      modifies this
      ensures Reports(r, State(), ExecInput(old(State()), dest, hookIn))
    {
      var i := ReadInput(hookIn);
      if i.Failure? {
        return Failure(i.error);
      }
      if i.value.None? {
        return Success(None);
      }
      var w := WriteP(dest, i.value.value);
      if w.Failure? {
        return Failure(w.error);
      }
      pc := pc + 2;
      r := Success(None);
    }

    /** Opcode 4 of `exec`. */
    method ExecOut(src: Param, accepts: int -> bool) returns (r: Result<Option<int>, Fault>)
      modifies this
      ensures Reports(r, State(), ExecOutput(old(State()), src, accepts))
    {
      var v := ReadP(src);
      if v.Failure? {
        return Failure(v.error);
      }
      r := WriteOutput(v.value, accepts);
      if r.Success? {
        pc := pc + 2;
      }
    }

    /** Opcodes 5 and 6 of `exec`. */
    method ExecJmp(opcode: int, params: seq<Param>) returns (r: Result<Option<int>, Fault>)
      requires |params| == 3
      modifies this
      ensures Reports(r, State(), ExecJump(old(State()), opcode, params))
    {
      var c := ReadP(params[0]);
      if c.Failure? {
        return Failure(c.error);
      }
      if (opcode == 5 && c.value != 0) || (opcode == 6 && c.value == 0) {
        var t := ReadP(params[1]);
        if t.Failure? {
          return Failure(t.error);
        }
        pc := t.value;
      } else {
        pc := pc + 3;
      }
      r := Success(None);
    }

    /** Opcode 9 of `exec`. */
    method ExecRelBase(src: Param) returns (r: Result<Option<int>, Fault>)
      modifies this
      ensures Reports(r, State(), ExecRel(old(State()), src))
    {
      var a := ReadP(src);
      if a.Failure? {
        return Failure(a.error);
      }
      relBase := relBase + a.value;
      pc := pc + 2;
      r := Success(None);
    }

    /** Opcodes 1, 2, 7 and 8 of `exec`. */
    method ExecArith(opcode: int, params: seq<Param>) returns (r: Result<Option<int>, Fault>)
      requires |params| == 3
      modifies this
      ensures Reports(r, State(), ExecBinary(old(State()), opcode, params))
    {
      var a := ReadP(params[0]);
      if a.Failure? {
        return Failure(a.error);
      }
      var b := ReadP(params[1]);
      if b.Failure? {
        return Failure(b.error);
      }
      var w := WriteP(params[2], BinOp(opcode, a.value, b.value));
      if w.Failure? {
        return Failure(w.error);
      }
      pc := pc + 4;
      r := Success(None);
    }

    /** `run` with the default queues, for at most `fuel` instructions. */
    method Run(fuel: nat) returns (r: RunOutcome)
      requires !inputFn && !outputFn
      modifies this
      ensures (State(), r) == RunSpec(old(State()), fuel)
    {
      var left := fuel;
      while status != Halted && status != NeedsInput && pc < |mem|
        invariant !inputFn && !outputFn
        invariant RunSpec(State(), left) == RunSpec(old(State()), fuel)
        decreases left
      {
        if left == 0 {
          return OutOfFuel;
        }
        var stop;
        stop, left := Turn(left);
        if stop.Some? {
          return stop.value;
        }
      }
      r := Stopped(status);
    }

    /** One turn of `run`'s loop: `exec`, then the fuel left for the rest. */
    method Turn(left: nat) returns (stop: Option<RunOutcome>, rest: nat)
      requires !inputFn && !outputFn && Running(State()) && left > 0
      modifies this
      ensures !inputFn && !outputFn && rest < left
      ensures RunSpec(old(State()), left) == if stop.Some? then (State(), stop.value) else RunSpec(State(), rest)
    {
      ghost var before := State();
      var e := Exec(Raises, NoHook);
      RunTurn(before, State(), e, left);
      stop := if e.Failure? then Some(Crashed(e.error)) else None;
      rest := left - 1;
      SameFuel(State(), left - 1, rest);
    }
  }
}
