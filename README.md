# Advent of Code 2019 in Ruby, modelled in Dafny

This project models a Ruby repository of Advent of Code 2019 solutions and
proves properties of the model. Most of it is about the Intcode virtual
machine, which the repository has in three revisions:

- `intcode.rb`: the first interpreter, with add, mul and halt only. Its text
  is repeated in `day2/day2.rb`.
- `lib/intcode.rb`: a table-driven machine. Memory is 4096 cells, and there
  are input and output queues.
- `lib/vm2.rb`: the last machine. Memory grows on demand, there is a
  relative base, and input and output may go through hooks.

The model also covers the puzzles built on these machines: the noun/verb
search of day 2 and the hull-painting robot of day 11. Beside them are six
self-contained puzzles:

- day 1: fuel for a mass;
- day 3: wires on a grid;
- day 4: the password rules;
- day 6: the orbit tree;
- day 8: image layers;
- day 14: breaking reactions down to ore.

Each source file becomes one module: `FirstIntcode` (with `Day2`), `Intcode`,
`VM2`, `Day1`, `Day3`, `Day4`, `Day6`, `Day8`, `Day11` and `Day14`. Two
shared modules sit beside them. `Common` holds `Option`, `Result`, powers of
ten, the first index of an element and Ruby's `Array#&`. `Text` holds the
parts of Ruby's `String` and `Integer` the scripts use: `to_s`, `to_i`,
`split`, `join` and `chomp`.

The code takes the form of the source:

- **Objects become classes.** The machines, the robot and its map, and the
  script-level `nodes` hash of day 6 are classes. Their fields are what the
  Ruby objects change, and each method is proved against a pure function of
  the state it starts from.
- **Loops become methods.** The source's loops over locals are methods with
  loops: `exec_intcode`, `search`, `get_parents`, `breakdown`, the digit
  folds of day 4, the layer loops of day 8, the wire walk of day 3, and the
  recursive fuel of day 1.
- **Pure code becomes functions.** The rest are functions, each with lemmas
  that state what the source promises.

The model differs from the code in a few places:

- **Exceptions.** A Ruby exception (`raise`, or a method called on `nil`)
  is a `Failure` value. The state the source had already changed before the
  raise is kept.
- **Runs take fuel.** The machines' `run`, the robot's `run` and `breakdown`
  stop after at most `fuel` steps. They then report `OutOfFuel`.
- **Day 6 nodes.** A node is known by its name, and its parent by the
  parent's name. This is faithful because `find_or_make_node` makes exactly
  one node per name.

## Model

| member | source | states |
|---|---|---|
| FirstIntcode.ReadIntcodeShow | intcode.rb:8-12 | `read_intcode` reads the comma-joined decimal text of any program back to that program |
| FirstIntcode.GetOpcode | intcode.rb:20-27 | 1 is add, 2 is mul, 99 is halt, and every other number is invalid, each in both directions |
| FirstIntcode.ArithStep | intcode.rb:36-51 | an add or mul step either faults or leaves memory the same length |
| FirstIntcode.ArithStepEffect | intcode.rb:36-51 | with every operand in range (read through `Cell`), the step writes `mem[x] op mem[y]` to `mem[dest]` and leaves every other cell |
| FirstIntcode.Run | intcode.rb:32-60 | the loop always ends, and memory keeps its length |
| FirstIntcode.StopsWithoutWriting | intcode.rb:52-57 | halt or an invalid word ends the run at once, with memory unchanged |
| FirstIntcode.RunStopsAt | intcode.rb:32-60 | pc moves in steps of 4; a run without fault stops on halt or an invalid word, one with a fault stops on add or mul |
| FirstIntcode.RunStep | intcode.rb:34-51 | at add or mul the run is one step, then the run from pc + 4, unless the step faults |
| FirstIntcode.ExecIntcode | intcode.rb:32-60 | the in-place loop on the array leaves the memory, and the fault, that the `Run` specification gives |
| FirstIntcode.ExecArith | intcode.rb:36-51 | one step on the array: memory becomes the step's result, or stays unchanged with the fault reported |
| Day2.InitPuzzle | day2/day2.rb:62-65 | cells 1 and 2 take the noun and the verb, and every other cell is unchanged |
| Day2.FirstVerbSpec | day2/day2.rb:83-91 | the inner loop returns the first verb up to 99 whose run gives 19690720, or reports that none does |
| Day2.SearchFromSpec | day2/day2.rb:82-92 | the outer loop keeps its results if no later pair matches; otherwise it ends with the last matching noun and that noun's first matching verb |
| Day2.SearchResult | day2/day2.rb:77-96 | `search` returns `{0, 0, 0}` when no pair in 0..99 gives the target; otherwise a matching pair, with the largest such noun (since `break` leaves only the inner loop) and that noun's smallest verb |
| Day2.RunWith | day2/day2.rb:84-87 | one load, patch and run gives what is left in cell 0, or the fault |
| Day2.Search | day2/day2.rb:77-96 | the nested loops return what `SearchResult` describes |
| Day2.Example | day2/day2.rb:30-58 | the puzzle's example program leaves 3500 in cell 0 |
| Intcode.OpcodeTable | lib/intcode.rb:233-351 | the table knows exactly 1..9 and 99; each record's size matches what its implementation uses; no operation appears twice |
| Intcode.LookupAddressingMode | lib/intcode.rb:37-44 | digits 0, 1 and 2 give a mode, which is inverted by its number; any other digit raises with that digit |
| Intcode.ModesFrom | lib/intcode.rb:59-62 | when the mode loop succeeds, it yields exactly the requested number of modes |
| Intcode.ModesFromDigits | lib/intcode.rb:58-62 | the mode loop reads digits least significant first, succeeds iff each is 0..2, and otherwise fails on the first bad one |
| Intcode.OpcodeAndModes | lib/intcode.rb:54-65 | a successful decode takes the record under `instr % 100` and `size - 1` modes |
| Intcode.DecodeDigits | lib/intcode.rb:54-65 | an unknown opcode raises; a known one gives mode i from digit i + 2 of the word, or raises on the first bad digit |
| Intcode.GetOpcodeAndModes | lib/intcode.rb:54-65 | the loop method returns what `OpcodeAndModes` specifies |
| Intcode.OpcodeAndParams | lib/intcode.rb:47-51 | a decoded instruction has the size its opcode needs and one parameter per mode |
| Intcode.DecodeParams | lib/intcode.rb:47-51 | parameter i (built by `ParamsOf`) holds mode i and the word at `address + i + 1` |
| Intcode.Init | lib/intcode.rb:112-124 | memory has max(4096, \|p\|) cells: the program, then zeros; pc and the relative base are 0, flags are clear, queues are empty |
| Intcode.ReadValue | lib/intcode.rb:135-143 | a literal gives its value; position and relative give the addressed cell inside memory, and an out-of-range fault outside it |
| Intcode.WriteValue | lib/intcode.rb:146-154 | a literal raises; otherwise the write succeeds iff the address is in memory, sets that cell and keeps the others |
| Intcode.ReadAfterWrite | lib/intcode.rb:135-154 | reading back the operand just written gives the written value |
| Intcode.TakeInput | lib/intcode.rb:203-213 | `get_input` returns the oldest queued value and drops it; with nothing queued it returns nil and sets `needs_input` |
| Intcode.TakeOutput | lib/intcode.rb:216-222 | `read_output` returns the oldest output and drops it, or nil with nothing changed |
| Intcode.OutputFifo | lib/intcode.rb:216-227 | the output queue is first in, first out |
| Intcode.CompareWritesBit | lib/intcode.rb:304-331 | lt and eq store only 0 or 1, only at the destination, and advance pc by 4 |
| Intcode.AdvanceBySize | lib/intcode.rb:233-351 | every instruction except a jump, halt or a suspending input moves pc by its record's size |
| Intcode.Jump | lib/intcode.rb:278-303 | a jump that is not taken moves pc by 3 and changes nothing else; a taken one sets pc to the second operand |
| Intcode.HaltStops | lib/intcode.rb:342-350 | halt sets `halted`, leaves pc and all else, and `status` becomes `:halted` |
| Intcode.InputSuspends | lib/intcode.rb:254-264 | input with an empty queue only sets `needs_input`, and `status` becomes `:needs_input` |
| Intcode.ResumeConsumesOnce | lib/intcode.rb:198-264 | after the suspend, `send_input(v)` makes the machine runnable at the same pc, and the input instruction then stores `v` |
| Intcode.OutputAppends | lib/intcode.rb:268-277 | output appends the operand's value to `outputs` and moves pc by 2 |
| Intcode.StepKeepsOutputs | lib/intcode.rb:233-351 | no instruction takes an output back |
| Intcode.RunAgreesWithStatus | lib/intcode.rb:166-196 | `run` returns what `status` says of the machine it leaves, and never `:ok` |
| Intcode.RunAppendsOutputs | lib/intcode.rb:166-183 | a run only appends to `outputs` |
| Intcode.MultiplyLiterals | lib/intcode.rb:244-253 | a program multiplying two literals and printing the product outputs 34915192 squared and halts |
| Intcode.PrintLarge | lib/intcode.rb:268-277 | a program printing a large literal outputs it unchanged |
| Intcode.ReadIntcodeShow | lib/intcode.rb:354-358 | `read_intcode` reads the comma-joined text of a program back to the program |
| Intcode.VM.constructor | lib/intcode.rb:112-124 | the new machine's state is `Init(program)` |
| Intcode.VM.FromString | lib/intcode.rb:130-132 | a machine loaded from text is `Init` of the parsed program |
| Intcode.VM.ReadParam | lib/intcode.rb:135-143 | returns `ReadValue` of the current state |
| Intcode.VM.WriteParamValue | lib/intcode.rb:146-154 | changes memory exactly as `WriteValue` says, or reports its fault |
| Intcode.VM.GetOpcodeAndParams | lib/intcode.rb:47-51 | returns `OpcodeAndParams` of the current memory |
| Intcode.VM.Status | lib/intcode.rb:186-196 | halted before needs_input before pc out of range, otherwise ok |
| Intcode.VM.SendInput | lib/intcode.rb:198-201 | queues the value and clears `needs_input` |
| Intcode.VM.GetInput | lib/intcode.rb:203-213 | returns the value, and leaves the state, that `TakeInput` gives |
| Intcode.VM.ReadOutput | lib/intcode.rb:216-222 | returns the value, and leaves the state, that `TakeOutput` gives |
| Intcode.VM.WriteOutput | lib/intcode.rb:224-227 | appends the value to the output queue |
| Intcode.VM.OpArith | lib/intcode.rb:234-331 | the add, mul, lt and eq procs change the state as `ExecArith` says |
| Intcode.VM.OpInput | lib/intcode.rb:254-267 | the input proc changes the state as `ExecInput` says |
| Intcode.VM.OpOutput | lib/intcode.rb:268-277 | the output proc changes the state as `ExecOutput` says |
| Intcode.VM.OpJump | lib/intcode.rb:278-303 | the jt and jf procs change the state as `ExecJump` says |
| Intcode.VM.OpRel | lib/intcode.rb:332-341 | the adj_rel_base proc adds the operand to the relative base and moves pc by 2 |
| Intcode.VM.Exec | lib/intcode.rb:168-173 | one decode-and-execute leaves the state that `Step` gives |
| Intcode.VM.Run | lib/intcode.rb:166-183 | the loop leaves the state, and returns the answer, that `RunSpec` gives |
| VM2.ModeOfCode | lib/vm2.rb:85-92 | `mode` accepts exactly 0, 1 and 2, raises with the digit otherwise, and is inverted by the mode's digit |
| VM2.Grown | lib/vm2.rb:58-66 | zero fill to an address: max(\|mem\|, a + 1) cells, the old ones kept and the new ones 0 |
| VM2.GrownTwice | lib/vm2.rb:58-66 | growing memory in two steps is growing it once to the larger address |
| VM2.Load | lib/vm2.rb:58-61 | a negative address faults; inside memory it reads the cell; past the end it reads 0 after the zero fill |
| VM2.Store | lib/vm2.rb:63-66 | a negative address faults; otherwise the cell takes the value, other old cells stay, new cells are 0 |
| VM2.LoadP | lib/vm2.rb:68-75 | `read_p` changes memory only by zero padding |
| VM2.StoreP | lib/vm2.rb:77-83 | `write_p` never shrinks memory |
| VM2.RelativeIsShiftedPosition | lib/vm2.rb:68-83 | a relative operand reads and writes like the position operand at `rel_base + raw`, and a write to a literal raises |
| VM2.DecodeSucceeds | lib/vm2.rb:94-102 | a good word decodes to opcode `word % 100` and three parameters; parameter i takes mode digit i and the word at pc + i, with memory grown to pc + 3 |
| VM2.DecodeRaises | lib/vm2.rb:94-102 | the first unsupported mode digit raises, after the words before it were read |
| VM2.DecodeSpec | lib/vm2.rb:94-102 | decode succeeds iff all three mode digits are 0..2; it only pads memory |
| VM2.InputSuspends | lib/vm2.rb:115-121 | input with no hook and an empty queue sets `:needs_input`; pc, queues and every memory value stay |
| VM2.StepOfDecoded | lib/vm2.rb:104-159 | `exec` of a decodable word is the `case` on its instruction over the padded memory |
| VM2.DecodeAgain | lib/vm2.rb:94-102 | decoding memory already padded by decoding gives the same instruction |
| VM2.ResumeAfterInput | lib/vm2.rb:30-33 | a machine suspended on input and then given `v` runs the input instruction exactly as if `v` had been queued |
| VM2.CompareWritesBit | lib/vm2.rb:137-150 | lt and eq store 0 or 1 at the destination and move pc by 4 |
| VM2.StepAdvancesPc | lib/vm2.rb:108-159 | pc moves 4 for add/mul/lt/eq and 2 for output/rel; input moves 2 or suspends in place; untaken jumps move 3; halt sets halted and moves 1 |
| VM2.InvalidOpcodeRaises | lib/vm2.rb:157-158 | an opcode outside 1..9 and 99 raises, after decoding grew memory |
| VM2.LiteralWriteRaises | lib/vm2.rb:81 | add, mul, lt and eq with a literal destination raise once their operands are read |
| VM2.StepConserves | lib/vm2.rb:104-161 | every instruction keeps the hooks, only appends output, never shrinks memory, and emits nothing without an output hook |
| VM2.RunTurn | lib/vm2.rb:163-168 | a turn of `run` is one `exec`; a raise ends the run with that fault |
| VM2.RunStops | lib/vm2.rb:163-168 | `run` returns only on halted, needs_input, or ok with pc past memory, and the status it returns is the machine's |
| VM2.RunAppendsOutput | lib/vm2.rb:163-168 | a run only appends output and only grows memory |
| VM2.ParseProgramText | lib/vm2.rb:202-205 | loading a program's text, with or without a final newline, gives the program |
| VM2.VM.constructor | lib/vm2.rb:19-28 | the new machine: pc 0, relative base 0, status ok, empty queues, no hooks, the given memory |
| VM2.VM.FromString | lib/vm2.rb:202-205 | a machine loaded from text holds the parsed program |
| VM2.VM.SendInput | lib/vm2.rb:30-33 | queues the value; a machine waiting for input becomes ok |
| VM2.VM.ReadOutput | lib/vm2.rb:35-37 | takes the oldest output, or nil with nothing changed |
| VM2.VM.ReadInput | lib/vm2.rb:39-48 | the hook's reply, else the oldest queued value, else nil with status `:needs_input` |
| VM2.VM.WriteOutput | lib/vm2.rb:50-56 | hands the value to the hook, or appends it to the queue |
| VM2.VM.Pad | lib/vm2.rb:59 | the zero-fill loop leaves `Grown` of the old memory |
| VM2.VM.ReadMem | lib/vm2.rb:58-61 | returns the value, and leaves the memory, that `Load` gives |
| VM2.VM.WriteMem | lib/vm2.rb:63-66 | leaves the memory that `Store` gives |
| VM2.VM.ReadP | lib/vm2.rb:68-75 | returns what `LoadP` gives |
| VM2.VM.WriteP | lib/vm2.rb:77-83 | leaves what `StoreP` gives |
| VM2.VM.Decode | lib/vm2.rb:94-102 | returns the instruction, and leaves the memory, that `DecodeAt` gives |
| VM2.VM.Exec | lib/vm2.rb:104-161 | one `exec` leaves the state, and reports the outcome, that `Step` gives |
| VM2.VM.ExecIn | lib/vm2.rb:115-121 | opcode 3 as `ExecInput` |
| VM2.VM.ExecOut | lib/vm2.rb:122-124 | opcode 4 as `ExecOutput` |
| VM2.VM.ExecJmp | lib/vm2.rb:125-136 | opcodes 5 and 6 as `ExecJump` |
| VM2.VM.ExecRelBase | lib/vm2.rb:151-153 | opcode 9 as `ExecRel` |
| VM2.VM.ExecArith | lib/vm2.rb:109-150 | opcodes 1, 2, 7 and 8 as `ExecBinary` |
| VM2.VM.Run | lib/vm2.rb:163-168 | the loop leaves the state, and returns the outcome, that `RunSpec` gives |
| VM2.VM.Turn | lib/vm2.rb:164-166 | one turn of the loop, and the fuel left |
| Day11.GetAfterSet | day11/day11.rb:25-31 | after `set`, `get` there gives the new tile and `get` elsewhere the old one; the grid keeps its shape |
| Day11.GridOf | day11/day11.rb:12-13 | the tile array seen as rows: h rows of w tiles |
| Day11.CountRowMeaning | day11/day11.rb:36-40 | a row's count is its black and white tiles, or every tile when the colour is `:blank` |
| Day11.CountPaintedMeaning | day11/day11.rb:33-43 | `count_painted(color)` counts the tiles that are not blank, whatever the colour, except that with `:blank` it counts every tile |
| Day11.BlankGridUnpainted | day11/day11.rb:15-23 | a new map has no painted tile |
| Day11.BlankRowUnpainted | day11/day11.rb:19-21 | a blank row has no painted tile |
| Day11.Map.constructor | day11/day11.rb:15-23 | `height` rows of `width` blank tiles |
| Day11.Map.Get | day11/day11.rb:25-27 | the tile at (x, y), or none outside the grid |
| Day11.Map.Set | day11/day11.rb:29-31 | inside the grid only that tile changes; nothing is written outside |
| Day11.Map.CountPainted | day11/day11.rb:33-43 | the nested loop returns the count that `CountPaintedMeaning` describes |
| Day11.Rotations | day11/day11.rb:74-92 | right undoes left and left undoes right; four turns either way come back; a turn always changes the facing |
| Day11.Forward | day11/day11.rb:94-102 | `move_forward` moves exactly one tile, up lowering y |
| Day11.TurnAroundComesBack | day11/day11.rb:74-102 | a move after two turns the same way returns to the start |
| Day11.Camera | day11/day11.rb:104-120 | the camera answers 1 on white and 0 otherwise; off the grid it fails |
| Day11.ActionAlternates | day11/day11.rb:122-145 | an action fails exactly on an output other than 0/1 or a paint off the grid; otherwise it switches between paint and move and keeps the grid's shape |
| Day11.PaintStep | day11/day11.rb:134-142 | painting sets the tile under the robot to black on 0 and white on 1, leaves every other tile, and counts one more paint |
| Day11.MoveStep | day11/day11.rb:125-133 | a move turns left on 0 and right on 1, then steps once the new way; no tile changes |
| Day11.PaintThenMove | day11/day11.rb:122-145 | paint then move leaves the tile painted and the robot one tile away, ready to paint |
| Day11.RobotRunTurn | day11/day11.rb:147-151 | a robot run with fuel is one turn, then the rest |
| Day11.RunEnds | day11/day11.rb:147-151 | a stopped VM ends the run with its status; no fuel gives out-of-fuel |
| Day11.RunAfterTurn | day11/day11.rb:147-151 | the run after a turn is its stop, or the rest of the run |
| Day11.Turn | day11/day11.rb:60-72 | one instruction with the robot's hooks keeps the grid's shape and the hooks, and never lowers the paint count |
| Day11.RobotRun | day11/day11.rb:147-151 | a whole run keeps the grid's shape and the hooks, and never lowers the paint count |
| Day11.Robot.constructor | day11/day11.rb:60-72 | the robot starts at (0, 0) facing up, waiting to paint, with the parsed program and both hooks installed |
| Day11.Robot.RotateLeft | day11/day11.rb:74-82 | the facing turns left |
| Day11.Robot.RotateRight | day11/day11.rb:84-92 | the facing turns right |
| Day11.Robot.MoveForward | day11/day11.rb:94-102 | the robot stands on `Forward` of where it was |
| Day11.Robot.DoCamera | day11/day11.rb:104-120 | returns what `Camera` gives |
| Day11.Robot.DoAction | day11/day11.rb:122-145 | the robot and map change as `Action` says; on a raise nothing changes |
| Day11.Robot.Run | day11/day11.rb:147-151 | `cpu.run` with the robot's hooks leaves the world that `RobotRun` gives |
| Day11.Robot.Cycle | day11/day11.rb:147-151 | one turn of the run, and the fuel left: the run from before the turn is its stop, or the run from after it with one less fuel |
| Day11.Robot.Exec | day11/day11.rb:68-71 | one VM instruction with the camera and actions as hooks leaves what `Turn` gives |
| Day14.LeadingWord | day14/day14.rb:24 | the longest prefix of word characters |
| Day14.ParsedValueShape | day14/day14.rb:23-26 | a parsed value has a non-negative amount and a word for a resource |
| Day14.NoDigitNoValue | day14/day14.rb:23-26 | text with no digit gives nil |
| Day14.ParseShowValue | day14/day14.rb:23-26 | `parse_value` reads back a value written as `"<amount> <resource>"` |
| Day14.ParseValues | day14/day14.rb:30 | on success, every field parsed, in order |
| Day14.ParseValuesFailure | day14/day14.rb:30 | on failure, the fault names the first field that `parse_value` does not read; every field before it reads |
| Day14.ShowValues | day14/day14.rb:23-35 | the values written in the input-line format that `parse_value` and `parse_rule` read, one per value, in order |
| Day14.ShowValueAvoids | day14/day14.rb:23-35 | a value written in the format `parse_value` reads has no comma and no equals sign, so `parse_rule`'s splits on `", "` and `" => "` do not cut it |
| Day14.ParseShowRule | day14/day14.rb:28-35 | `parse_rule` reads back a rule written as an input line |
| Day14.SplitShownValues | day14/day14.rb:29-30 | a rule's written inputs split back on `", "` and hold no `=` |
| Day14.ParseShownValues | day14/day14.rb:30 | parsing the written inputs gives the inputs |
| Day14.ParseValuesAll | day14/day14.rb:30 | when each field parses to its value, the list parses to the values |
| Day14.ResourcesCons | day14/day14.rb:52-56 | the resources of a list with one more value |
| Day14.DistinctCons | day14/day14.rb:52-56 | a list with one more value has no repeated resource iff the rest has none and lacks that resource |
| Day14.AddValueResources | day14/day14.rb:53-54 | merging one value adds its resource and at most one entry |
| Day14.AddValueDistinct | day14/day14.rb:53-54 | merging keeps each resource listed once |
| Day14.AddValueTotal | day14/day14.rb:53-54 | merging adds its amount to its own resource's total only |
| Day14.TotalAppend | day14/day14.rb:53-54 | the total of a resource with one more value |
| Day14.CollapseSpec | day14/day14.rb:52-56 | `collapse_values` lists each input resource once with its total amount, is no longer than its input, and is nonempty for a nonempty input |
| Day14.CollapseFirst | day14/day14.rb:52-56 | the first resource listed is that of the first value, the one `values.shift` takes next |
| Day14.TotalOfDistinct | day14/day14.rb:52-56 | without repeats, a resource's total is its entry's amount |
| Day14.TotalAbsent | day14/day14.rb:52-56 | an unlisted resource totals 0 |
| Day14.RunsLeast | day14/day14.rb:74 | the number of runs is the least that covers the demand |
| Day14.NothingNeeded | day14/day14.rb:61-62 | with no rule, or a demand of nothing, nothing is needed and nothing is left over |
| Day14.ReqsScaled | day14/day14.rb:59-79 | the requirements (through `Scale`) are scaled by the least number of runs covering the demand; the excess is what those runs make beyond it, below one run's yield |
| Day14.ReqsNonNegative | day14/day14.rb:59-79 | with rules as parsed, no requirement asked for is negative |
| Day14.Credit | day14/day14.rb:112 | `h[k] += n` on `Hash.new(0)` changes key k by n and no other key |
| Day14.TakeSpec | day14/day14.rb:104-123 | in every branch the requirement is consumed in full; what is left to produce is its amount less the stock, never below 0 and never above the amount |
| Day14.TakeAll | day14/day14.rb:104-123 | one leftover per requirement |
| Day14.TakeAllSpec | day14/day14.rb:104-123 | the requirement loop adds each requirement's full total to `consumed`, and keeps each requirement's resource with a leftover between 0 and its amount |
| Day14.BreakStepSpec | day14/day14.rb:93-129 | a turn adds demand plus excess to `produced` of the first collapsed resource only, and adds every requirement in full to `consumed` |
| Day14.BreakdownStops | day14/day14.rb:93 | `breakdown` finishes only when no value is left or every value is ore |
| Day14.TakeOne | day14/day14.rb:105-121 | one pass of the loop on the hash, as `Take` |
| Day14.TakeAllSnoc | day14/day14.rb:104-123 | the requirement loop over one more requirement |
| Day14.TakeRequirements | day14/day14.rb:104-123 | the `each` loop, updating each requirement in place, leaves what `TakeAll` gives |
| Day14.BreakTurn | day14/day14.rb:94-128 | one turn on the locals, as `BreakStep` |
| Day14.Breakdown | day14/day14.rb:82-134 | the loop returns what `BreakdownSpec` gives, starting from empty hashes |
| Day4.CheckAdjacency | day4/day4.rb:14-23 | true iff two neighbouring digits are equal, or the text starts with `'0'` (the fold's seed) |
| Day4.LeadingZero | day4/day4.rb:16 | the text starts with `'0'` only for 0 itself |
| Day4.CheckIncrease | day4/day4.rb:25-34 | true iff no digit reads larger than the one after it |
| Day4.Check | day4/day4.rb:40-42 | six characters, in range, non-decreasing digits, and an adjacent pair |
| Day4.CheckP2 | day4/day4.rb:44-46 | six characters, in range, non-decreasing, and some digit occurring exactly twice |
| Day4.CheckTest | day4/day4.rb:48-50 | the part-two rules without the range |
| Day4.CheckDigitsMeaning | day4/day4.rb:6-8 | `check_digits` holds exactly for 100000..999999 and -99999..-10000 |
| Day4.NatToStringLength | day4/day4.rb:7 | a number written with k digits lies in [10^(k-1), 10^k) |
| Day4.NonDecreasingSorted | day4/day4.rb:25-34 | with non-decreasing digits, any earlier digit is at most any later one |
| Day4.TwoPositions | day4/day4.rb:37 | a character occurring twice occurs at two positions |
| Day4.SameValueSameDigit | day4/day4.rb:28 | two digits that read as the same number are the same digit |
| Day4.Part2ImpliesPart1 | day4/day4.rb:40-46 | every number passing `check_p2` passes `check` |
| Day1.FuelForMass | day1/day1.rb:8-11 | the fuel is floor(mass / 3) - 2 |
| Day1.FuelShrinks | day1/day1.rb:20-28 | fuel for a positive amount is less than it, so the loop ends |
| Day1.FuelForMassRecursive | day1/day1.rb:20-28 | the loop adds fuel for the fuel until the extra is not positive |
| Day1.ExtraFuelBounds | day1/day1.rb:23-26 | the extra is never negative, is 0 iff the first extra is not positive, and is otherwise at least the first extra and at most 3/2 of it |
| Day1.RecursiveAtLeastPlain | day1/day1.rb:20-28 | the recursive fuel is never below the plain fuel, and equals it exactly when the fuel for the fuel is not positive |
| Day8.ValuesAreToI | day8/day8.rb:27 | value i of `Values` is Ruby's `to_i` of character i as a one-character string |
| Day8.SlicesSpec | day8/day8.rb:24 | `each_slice` gives the data back in order; every slice but the last has the full size; the last has 1 to size; no slices iff no data |
| Day8.SplitLayers | day8/day8.rb:21-31 | the layers are the slices of the digit values; a size that is not positive gives none |
| Day8.ReadLayer | day8/day8.rb:24-28 | one layer's values |
| Day8.SliceAt | day8/day8.rb:24 | the slices from a position are one slice, then the rest |
| Day8.CountElem | day8/day8.rb:33-35 | `count_elem` is the number of entries equal to the target |
| Day8.LayerCounts | day8/day8.rb:37-48 | one entry per layer, holding that layer's number of 0s, 1s and 2s |
| Day8.FindLeastZeros | day8/day8.rb:50-62 | 0 when no layer has fewer than 99999999 zeros; otherwise the first layer with the fewest zeros (the comparison is strict) |
| Day8.Store | day8/day8.rb:84-86 | `output[i] = p` pads with nil past the end and changes only cell i |
| Day8.Reach | day8/day8.rb:82-88 | one past the last of the first n pixels that the `case` writes: every written pixel lies below it, and the pixel just below it (if any) is written |
| Day8.PaintLayerSpec | day8/day8.rb:82-88 | painting a layer writes its 0 and 1 pixels, leaves the rest, and grows the image over the pixels the `case` touches |
| Day8.FlattenMeaning | day8/day8.rb:79-91 | pixel i of the image is that of the first layer that is black or white there, or nil |
| Day8.TopPixelBeyond | day8/day8.rb:79-91 | past the image no layer is black or white |
| Day8.PaintOver | day8/day8.rb:82-88 | the inner loop paints one layer as `PaintLayer` |
| Day8.Flatten | day8/day8.rb:79-91 | the loop over the reversed layers gives `FlattenSpec` |
| Day3.DistMetric | day3/day3.rb:9-14 | the distance is 0 exactly between equal points, symmetric, and obeys the triangle inequality |
| Day3.DirChar | day3/day3.rb:38 | each direction's letter is a direction letter and reads back to it |
| Day3.NoDigitNoMove | day3/day3.rb:38 | a token without a digit holds no move |
| Day3.ParseShowMove | day3/day3.rb:38 | a token written as letter and length reads back to the move |
| Day3.ParseMoves | day3/day3.rb:36-38 | every token read in order, or a fault exactly when some token holds no move |
| Day3.ShowMoves | day3/day3.rb:36-38 | one written token per move |
| Day3.ParseShowMoves | day3/day3.rb:36-38 | a wire written as comma-separated moves splits and reads back to those moves |
| Day3.ParseMovesAll | day3/day3.rb:38 | when each token reads as its move, all of them read as the moves |
| Day3.PathSteps | day3/day3.rb:39-53 | the wire (each segment given by `Run`) has one point per unit of length, each one step from the one before in the move's direction |
| Day3.StepwiseRun | day3/day3.rb:40-52 | a straight segment continues the path step by step |
| Day3.DistsLastVisit | day3/day3.rb:48-51 | `point_dists` holds exactly the visited points, each with the step count of its last visit |
| Day3.ReadWirePoints | day3/day3.rb:31-56 | the points are the path of the parsed moves and the distances are their step counts, or a fault on a bad token |
| Day3.Walk | day3/day3.rb:39-53 | the walk over the moves gives the path and its distances |
| Day3.WalkSegment | day3/day3.rb:40-52 | one move's loop appends its segment and keeps position, length and distances in step |
| Common.Intersect | day3/day3.rb:59-61 | `a & b` holds exactly the elements in both, each once, in order of first occurrence in a |
| Day3.ClosestToCenter | day3/day3.rb:64-68 | nil iff the list is empty; otherwise a listed point at the least distance from the centre |
| Common.IntersectFirst | day6/day6.rb:65-68 | the first element of `a & b` is in both lists, and no earlier element of a is in b |
| Day6.ToSSplits | day6/day6.rb:16-22 | the text of a node with a parent splits on `)` back to the parent's name and the node's name |
| Day6.ChainFuel | day6/day6.rb:25-31 | more fuel finds the same ancestor chain |
| Day6.AncestorsStep | day6/day6.rb:39-43 | a node's ancestors are its parent, then the parent's ancestors |
| Day6.GetDepth | day6/day6.rb:25-31 | `get_depth` is the number of ancestors |
| Day6.AncestorsShape | day6/day6.rb:33-47 | the ancestors are nearest first: the parent, each one's parent in turn, ending at a root; there are `get_depth` of them, and none iff the node is a root |
| Day6.GetParents | day6/day6.rb:33-47 | the loop collects exactly the node's ancestors, nearest first |
| Day6.FindCommonParent | day6/day6.rb:61-69 | nil iff the two nodes share no ancestor; otherwise a shared ancestor, the first in `node1`'s list |
| Day6.AncestorsSuffix | day6/day6.rb:33-47 | each ancestor's own ancestors are the rest of the list after it |
| Day6.TransfersCount | day6/day6.rb:83-85 | the printed number is the steps from YOU's parent to the common ancestor plus those from SAN's parent |
| Day6.Made | day6/day6.rb:50-55 | the name is added as a parentless node if absent, and every existing node stays |
| Day6.MadeIdempotent | day6/day6.rb:50-55 | finding a node a second time changes nothing |
| Day6.Linked | day6/day6.rb:76-81 | a line `n1)n2` adds both names, makes n1 the parent of n2, changes no other node, and keeps the map closed |
| Day6.LinkNewAcyclic | day6/day6.rb:76-81 | linking a new node keeps the tree free of cycles; the new node's ancestors are its parent and the parent's; no other node's change |
| Day6.Orbits.constructor | day6/day6.rb:71-72 | the map starts with the root `COM` |
| Day6.Orbits.FindOrMakeNode | day6/day6.rb:50-55 | the map becomes `Made` of the old one, and the node returned is the map's entry for the name |
| Day6.Orbits.Link | day6/day6.rb:78-80 | the map becomes `Linked` of the old one |
| Text.ToIOfIntToString | lib/vm2.rb:203 | `to_i` reads back what `to_s` wrote |
| Text.ChompPlain | lib/vm2.rb:203 | `chomp` leaves a line without line breaks, and removes one newline after it |
| Text.SplitJoin | day14/day14.rb:29-30 | splitting what was joined gives the parts back |
| Text.ParseShowInts | lib/vm2.rb:203 | splitting a program's comma-joined text and reading each field gives the program |

## Left out

- Negative indices: Ruby reads and writes a negative array index from the
  end of the array. All three machines fault on a negative address or pc
  instead (`NegativeAddress`, `OutOfRange`).
- `intcode.rb` past the end of the array: Ruby reads `nil` there and raises
  on arithmetic with it; this is modelled as an `OutOfRange` fault. A write
  past the end, which Ruby pads with `nil`, is modelled as the same fault.
- `lib/intcode.rb` outside its memory: a read outside the 4096 (or more)
  cells is `nil` in Ruby, and a write there pads with `nil`. Both are
  modelled as an `OutOfRange` fault.
- `Intcode.OpcodeAndParams`: faults at decode when an operand word lies past
  memory. Ruby only builds a parameter with a `nil` value there
  (`lib/intcode.rb:50`) and fails only if that value is used. So a literal
  output `104` in the last cell outputs `nil` in Ruby. An untaken jump whose
  target word is past memory never reads that word in Ruby. The model faults
  on both.
- `VM2.VM.Run`: models only queue mode, without hooks. `run` with hooks is
  modelled by the day 11 robot, with the hooks as the robot.
- The `input_fn`/`output_fn` of `lib/vm2.rb` are arbitrary Ruby procs. The
  model takes the input hook's reply as a parameter (`HookReply`) and the
  output hook as a predicate saying whether it returns normally.
- `Day2.InitPuzzle`: requires a program of at least three cells. On a
  shorter one Ruby would pad the array with `nil`.
- The `search` of day 2 and the day-specific runs load programs from files.
  The model takes the program as a value.
- The debug logging (`log`, `debug`, `disasm`, `puts`, `print`) is left out,
  as are the command-line handling, file reading, `Utils`, the colours, and
  `print_map_robot`.
- `Day11.Map.Get`/`Set` outside the grid: the model has no tile there, so
  the camera raises `CantSendInput` and a paint raises `PaintOutside`.
  Ruby differs in two cases, where it carries on instead of raising:
  (a) a negative x or y (down to minus the width or height) counts from the
  end of the row or of the map, so `get` returns a real tile and `set`
  overwrites one; (b) a row that exists (`0 <= y < height`) with
  `x >= width`: `set` pads the row with `nil`, stores the tile and
  `do_action` counts the paint. In that case `get` returns `nil`, and the
  camera raises like the model. A row past the map (`y >= height`) raises
  on `nil` in Ruby too. The "keeps the grid's shape" clauses of
  `Day11.ActionAlternates`, `Day11.Turn` and `Day11.RobotRun` hold because
  the model raises in case (b).
- In day 11 the camera's reply is taken before each instruction. The camera
  only reads the map, so this gives the same answer as Ruby's call inside
  the instruction.
- `Day11.Robot.Run`: stops after `fuel` instructions.
- `to_i` (`Text.ToI`) stops at an underscore; Ruby reads `"1_000".to_i` as
  1000. The inputs parsed here contain no underscores.
- `Day14.ParseRule`: a field that `parse_value` does not read is `nil` in
  Ruby, where it fails only when it is used later. The model fails at once
  with `BadValue`. The `\w` and `\s` classes are taken on ASCII.
- `Day14.BreakStepSpec`: requires rules without negative amounts, as
  `parse_rule` makes them.
- `Day14.Breakdown`: stops after `fuel` turns. It returns the values and
  the two hashes. `parse_file` and the `puts` are left out.
- Day 1 reads masses with `to_f` and truncates with `to_i`. The model takes
  the mass as an integer.
- The top-level sums of day 1 and counting loops of day 4 are left out. So
  are the two parts' answers of days 3 and 8, and day 3's `readlines`.
- `Day8.LayerCounts`: gives a sequence indexed by layer, where Ruby builds a
  hash keyed 0 to n-1. `FindLeastZeros` walks it in the same order.
- `Day3.ClosestToCenter`: Ruby's `sort_by` leaves the order of points at
  the same distance unspecified. The model returns the earliest such point.
- Day 3 part two (summing the two `point_dists`) is left out.
- `count_orbits` in day 6 refers to an undefined local `nodes`, so it raises
  a `NameError` whenever it is called. The script never calls it, and it is
  not modelled.
- `Day6.LinkNewAcyclic`: proves freedom from cycles only for a line that
  introduces a new orbiting body. A line naming an existing body can make a
  cycle, which Ruby's `get_depth` would not survive.
- Day 6 line parsing (`split(")")` and `strip`) is left out. The model
  links names.
- Day 10, the day 5 and day 9 scripts, and `lib/crystaldeps.rb` are not
  part of this model.
