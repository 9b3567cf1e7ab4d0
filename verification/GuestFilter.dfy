/** The classic-BPF seccomp filter of `docker/mcp-tool/guest_filter.py`: the program it
  * writes, a machine that runs such programs, and the file they are written to. */
module GuestFilter {
  import opened Common

  datatype Instruction = Instruction(code: bv16, jt: bv8, jf: bv8, k: bv32)

  const LD_ABS: bv16 := 0x20
  const JEQ: bv16 := 0x15
  const JSET: bv16 := 0x45
  const RET: bv16 := 0x06

  datatype Machine = X8664 | Aarch64

  /** The audit architecture and the numbers of clone, unshare and setns. */
  datatype Abi = Abi(arch: bv32, clone: bv32, unshare: bv32, setns: bv32)

  function AbiOf(machine: Machine): Abi {
    match machine
    case X8664 => Abi(0xC000003E, 56, 272, 308)
    case Aarch64 => Abi(0xC00000B7, 220, 97, 268)
  }

  const ALLOW_WORD: bv32 := 0x7FFF0000
  const DENY_WORD: bv32 := 0x00050001
  const KILL_WORD: bv32 := 0x80000000

  function Program(machine: Machine): (program: seq<Instruction>)
    ensures |program| == 17
  {
    var abi := AbiOf(machine);
    [
      Instruction(0x20, 0, 0, 4),
      Instruction(0x15, 1, 0, abi.arch),
      Instruction(0x06, 0, 0, KILL_WORD),
      Instruction(0x20, 0, 0, 0),
      Instruction(0x45, 0, 1, 0x40000000),
      Instruction(0x06, 0, 0, DENY_WORD),
      Instruction(0x15, 0, 1, abi.unshare),
      Instruction(0x06, 0, 0, DENY_WORD),
      Instruction(0x15, 0, 1, abi.setns),
      Instruction(0x06, 0, 0, DENY_WORD),
      Instruction(0x15, 0, 1, 435),
      Instruction(0x06, 0, 0, 0x00050026),
      Instruction(0x15, 0, 3, abi.clone),
      Instruction(0x20, 0, 0, 16),
      Instruction(0x45, 0, 1, 0x7E020000),
      Instruction(0x06, 0, 0, DENY_WORD),
      Instruction(0x06, 0, 0, ALLOW_WORD)
    ]
  }

  // ---------- the machine ----------

  /** `struct seccomp_data` as its sixteen 32-bit words on a little-endian machine:
    * the call number, the architecture, the instruction pointer, six 64-bit arguments. */
  datatype Data = Data(words: seq<bv32>)
  {
    predicate Valid() { |words| == 16 }
    function Nr(): bv32 requires Valid() { words[0] }
    function Arch(): bv32 requires Valid() { words[1] }
    function Arg0Low(): bv32 requires Valid() { words[4] }
  }

  datatype State = Running(pc: nat, acc: bv32) | Halted(word: bv32) | Fault

  predicate InData(offset: bv32) { offset < 64 && offset % 4 == 0 }

  function Slot(offset: bv32): (slot: nat)
    requires InData(offset)
    ensures slot < 16
  {
    (offset / 4) as nat
  }

  lemma SlotsRead()
    ensures InData(0) && InData(4) && InData(16) && Slot(0) == 0 && Slot(4) == 1 && Slot(16) == 4
  {
  }

  /** One instruction. A jump is relative to the instruction after it. */
  function Step(program: seq<Instruction>, data: Data, s: State): State
    requires data.Valid()
  {
    if !s.Running? then s
    else if s.pc >= |program| then Fault
    else
      var i := program[s.pc];
      if i.code == LD_ABS then
        if InData(i.k) then Running(s.pc + 1, data.words[Slot(i.k)]) else Fault
      else if i.code == JEQ then
        Running(s.pc + 1 + (if s.acc == i.k then i.jt as nat else i.jf as nat), s.acc)
      else if i.code == JSET then
        Running(s.pc + 1 + (if s.acc & i.k != 0 then i.jt as nat else i.jf as nat), s.acc)
      else if i.code == RET then Halted(i.k)
      else Fault
  }

  function Run(program: seq<Instruction>, data: Data, s: State, steps: nat): State
    requires data.Valid()
    decreases steps
  {
    if steps == 0 then s else Run(program, data, Step(program, data, s), steps - 1)
  }

  // ---------- programs that cannot fault ----------

  /** What the kernel checks of a program: known instructions, loads inside the data,
    * jumps inside the program, a return at the end. */
  predicate InBounds(program: seq<Instruction>) {
    && program != [] && program[|program| - 1].code == RET
    && forall pc :: 0 <= pc < |program| ==> FitsAt(program[pc], pc, |program|)
  }

  predicate FitsAt(i: Instruction, pc: nat, length: nat) {
    || i.code == RET
    || (i.code == LD_ABS && InData(i.k))
    || ((i.code == JEQ || i.code == JSET) && pc + 1 + i.jt as nat < length && pc + 1 + i.jf as nat < length)
  }

  /** A program in bounds halts within its length, at one of its own returns. */
  lemma {:induction false} HaltsAtAReturn(program: seq<Instruction>, data: Data, s: State, steps: nat)
    requires data.Valid() && InBounds(program)
    requires s.Running? && s.pc < |program| <= s.pc + steps
    ensures var end := Run(program, data, s, steps);
            end.Halted? && exists pc :: s.pc <= pc < |program| && program[pc].code == RET && program[pc].k == end.word
    decreases |program| - s.pc
  {
    var i := program[s.pc];
    assert FitsAt(i, s.pc, |program|);
    var next := Step(program, data, s);
    if i.code == RET {
      StaysHalted(program, data, next, steps - 1);
    } else {
      assert next.Running? && s.pc < next.pc < |program|;
      HaltsAtAReturn(program, data, next, steps - 1);
    }
  }

  lemma {:induction false} StaysHalted(program: seq<Instruction>, data: Data, s: State, steps: nat)
    requires data.Valid() && s.Halted?
    ensures Run(program, data, s, steps) == s
  {
    if steps > 0 { StaysHalted(program, data, s, steps - 1); }
  }

  // ---------- the policy ----------

  datatype Decision = Allow | Errno(code: bv32) | Kill

  const EPERM: bv32 := 1
  const ENOSYS: bv32 := 38

  /** The kernel's `SECCOMP_RET_*` words. */
  function Word(d: Decision): bv32 {
    match d
    case Allow => 0x7FFF0000
    case Errno(code) => 0x00050000 | code
    case Kill => 0x80000000
  }

  // the flags of clone(2) that make a namespace
  const CLONE_NEWNS: bv32 := 0x00020000
  const CLONE_NEWCGROUP: bv32 := 0x02000000
  const CLONE_NEWUTS: bv32 := 0x04000000
  const CLONE_NEWIPC: bv32 := 0x08000000
  const CLONE_NEWUSER: bv32 := 0x10000000
  const CLONE_NEWPID: bv32 := 0x20000000
  const CLONE_NEWNET: bv32 := 0x40000000

  predicate Has(flags: bv32, flag: bv32) { flags & flag != 0 }

  predicate MakesNamespace(flags: bv32) {
    || Has(flags, CLONE_NEWNS) || Has(flags, CLONE_NEWCGROUP) || Has(flags, CLONE_NEWUTS) || Has(flags, CLONE_NEWIPC)
    || Has(flags, CLONE_NEWUSER) || Has(flags, CLONE_NEWPID) || Has(flags, CLONE_NEWNET)
  }

  const X32_BIT: bv32 := 0x40000000
  const CLONE3: bv32 := 435

  // ELF machine numbers; an audit architecture is one of them, 64-bit and little-endian
  const EM_X86_64: bv32 := 62
  const EM_AARCH64: bv32 := 183

  function AuditArch(machine: Machine): bv32 {
    (if machine == X8664 then EM_X86_64 else EM_AARCH64) | 0x80000000 | 0x40000000
  }

  datatype Call = Clone | Unshare | Setns

  /** The calls by their numbers in each kernel's table. */
  function CallOf(machine: Machine, nr: bv32): Option<Call> {
    if machine == X8664 then
      if nr == 56 then Some(Clone) else if nr == 272 then Some(Unshare) else if nr == 308 then Some(Setns) else None
    else
      if nr == 220 then Some(Clone) else if nr == 97 then Some(Unshare) else if nr == 268 then Some(Setns) else None
  }

  /** What a guest may call: nothing of another ABI, no way into a new namespace. */
  function Policy(machine: Machine, arch: bv32, nr: bv32, flags: bv32): Decision {
    var call := CallOf(machine, nr);
    if arch != AuditArch(machine) then Kill
    else if Has(nr, X32_BIT) || call == Some(Unshare) || call == Some(Setns) then Errno(EPERM)
    else if nr == CLONE3 then Errno(ENOSYS)
    else if call == Some(Clone) && MakesNamespace(flags) then Errno(EPERM)
    else Allow
  }

  /** The program's table agrees with them. */
  lemma AbiAgrees(machine: Machine, nr: bv32)
    ensures AbiOf(machine).arch == AuditArch(machine)
    ensures nr == AbiOf(machine).clone <==> CallOf(machine, nr) == Some(Clone)
    ensures nr == AbiOf(machine).unshare <==> CallOf(machine, nr) == Some(Unshare)
    ensures nr == AbiOf(machine).setns <==> CallOf(machine, nr) == Some(Setns)
  {
  }

  lemma NamespaceMask(flags: bv32)
    ensures MakesNamespace(flags) <==> flags & 0x7E020000 != 0
  {
  }

  lemma TheProgramIsInBounds(machine: Machine)
    ensures InBounds(Program(machine)) && |Program(machine)| == 17
  {
  }

  /** The rows by name, so that what follows need not look into the list. */
  lemma ListingOfArch(machine: Machine)
    ensures Program(machine)[0] == Instruction(LD_ABS, 0, 0, 4)
    ensures Program(machine)[1] == Instruction(JEQ, 1, 0, AbiOf(machine).arch)
    ensures Program(machine)[2] == Instruction(RET, 0, 0, KILL_WORD)
    ensures Program(machine)[3] == Instruction(LD_ABS, 0, 0, 0)
  {
    hide AbiOf;
  }

  lemma ListingOfNumbers(machine: Machine)
    ensures Program(machine)[4] == Instruction(JSET, 0, 1, X32_BIT)
    ensures Program(machine)[5] == Instruction(RET, 0, 0, DENY_WORD)
    ensures Program(machine)[6] == Instruction(JEQ, 0, 1, AbiOf(machine).unshare)
    ensures Program(machine)[7] == Instruction(RET, 0, 0, DENY_WORD)
  {
    hide AbiOf;
  }

  lemma ListingOfMoreNumbers(machine: Machine)
    ensures Program(machine)[8] == Instruction(JEQ, 0, 1, AbiOf(machine).setns)
    ensures Program(machine)[9] == Instruction(RET, 0, 0, DENY_WORD)
    ensures Program(machine)[10] == Instruction(JEQ, 0, 1, CLONE3)
    ensures Program(machine)[11] == Instruction(RET, 0, 0, Word(Errno(ENOSYS)))
  {
    hide AbiOf;
  }

  lemma ListingOfClone(machine: Machine)
    ensures Program(machine)[12] == Instruction(JEQ, 0, 3, AbiOf(machine).clone)
    ensures Program(machine)[13] == Instruction(LD_ABS, 0, 0, 16)
    ensures Program(machine)[14] == Instruction(JSET, 0, 1, 0x7E020000)
    ensures Program(machine)[15] == Instruction(RET, 0, 0, DENY_WORD)
    ensures Program(machine)[16] == Instruction(RET, 0, 0, ALLOW_WORD)
  {
    hide AbiOf;
  }

  lemma Unroll(program: seq<Instruction>, data: Data, s: State, steps: nat)
    requires data.Valid() && steps > 0
    ensures Run(program, data, s, steps) == Run(program, data, Step(program, data, s), steps - 1)
  {
  }

  lemma ChecksArch(machine: Machine, data: Data)
    requires data.Valid()
    ensures Run(Program(machine), data, Running(0, 0), 17) ==
            if data.Arch() == AbiOf(machine).arch then Run(Program(machine), data, Running(3, data.Arch()), 15)
            else Halted(KILL_WORD)
  {
    hide Run, Program, Slot, InData, AbiOf;
    ListingOfArch(machine);
    SlotsRead();
    var p := Program(machine);
    Unroll(p, data, Running(0, 0), 17);
    Unroll(p, data, Running(1, data.Arch()), 16);
    if data.Arch() != AbiOf(machine).arch {
      Unroll(p, data, Running(2, data.Arch()), 15);
      StaysHalted(p, data, Halted(KILL_WORD), 14);
    }
  }

  lemma ChecksX32(machine: Machine, data: Data, acc: bv32)
    requires data.Valid()
    ensures Run(Program(machine), data, Running(3, acc), 15) ==
            if Has(data.Nr(), X32_BIT) then Halted(DENY_WORD)
            else Run(Program(machine), data, Running(6, data.Nr()), 13)
  {
    hide Run, Program, Slot, InData, AbiOf;
    ListingOfArch(machine);
    ListingOfNumbers(machine);
    SlotsRead();
    var p := Program(machine);
    Unroll(p, data, Running(3, acc), 15);
    Unroll(p, data, Running(4, data.Nr()), 14);
    if Has(data.Nr(), X32_BIT) {
      Unroll(p, data, Running(5, data.Nr()), 13);
      StaysHalted(p, data, Halted(DENY_WORD), 12);
    }
  }

  /** A comparison followed by the return it guards. */
  lemma ChecksNumber(program: seq<Instruction>, data: Data, pc: nat, number: bv32, word: bv32, nr: bv32, steps: nat)
    requires data.Valid() && pc + 1 < |program| && steps >= 2
    requires program[pc] == Instruction(JEQ, 0, 1, number) && program[pc + 1] == Instruction(RET, 0, 0, word)
    ensures Run(program, data, Running(pc, nr), steps) ==
            if nr == number then Halted(word) else Run(program, data, Running(pc + 2, nr), steps - 1)
  {
    hide Run;
    Unroll(program, data, Running(pc, nr), steps);
    if nr == number {
      Unroll(program, data, Running(pc + 1, nr), steps - 1);
      StaysHalted(program, data, Halted(word), steps - 2);
    }
  }

  lemma ChecksClone(machine: Machine, data: Data, nr: bv32)
    requires data.Valid()
    ensures Run(Program(machine), data, Running(12, nr), 10) ==
            Halted(if nr == AbiOf(machine).clone && MakesNamespace(data.Arg0Low()) then DENY_WORD else ALLOW_WORD)
  {
    hide Run, Program, Slot, InData, MakesNamespace, AbiOf;
    ListingOfClone(machine);
    SlotsRead();
    var p := Program(machine);
    NamespaceMask(data.Arg0Low());
    Unroll(p, data, Running(12, nr), 10);
    if nr == AbiOf(machine).clone {
      Unroll(p, data, Running(13, nr), 9);
      Unroll(p, data, Running(14, data.Arg0Low()), 8);
      Unroll(p, data, Running(15, data.Arg0Low()), 7);
      Unroll(p, data, Running(16, data.Arg0Low()), 7);
      StaysHalted(p, data, Halted(DENY_WORD), 6);
      StaysHalted(p, data, Halted(ALLOW_WORD), 6);
    } else {
      Unroll(p, data, Running(16, nr), 9);
      StaysHalted(p, data, Halted(ALLOW_WORD), 8);
    }
  }

  /** On every architecture word, call number and argument, the filter decides as the policy. */
  lemma FilterIsPolicy(machine: Machine, data: Data)
    requires data.Valid()
    ensures Run(Program(machine), data, Running(0, 0), |Program(machine)|) ==
            Halted(Word(Policy(machine, data.Arch(), data.Nr(), data.Arg0Low())))
  {
    hide Run, Program, AuditArch, CallOf, MakesNamespace, AbiOf, Has;
    ListingOfNumbers(machine);
    ListingOfMoreNumbers(machine);
    var p, abi, nr := Program(machine), AbiOf(machine), data.Nr();
    AbiAgrees(machine, nr);
    ChecksArch(machine, data);
    ChecksX32(machine, data, data.Arch());
    ChecksNumber(p, data, 6, abi.unshare, DENY_WORD, nr, 13);
    ChecksNumber(p, data, 8, abi.setns, DENY_WORD, nr, 12);
    ChecksNumber(p, data, 10, 435, 0x00050026, nr, 11);
    ChecksClone(machine, data, nr);
  }

  // ---------- the file ----------

  function Encode(i: Instruction): seq<bv8> {
    [
      (i.code & 0xFF) as bv8, (i.code >> 8) as bv8, i.jt, i.jf,
      (i.k & 0xFF) as bv8, ((i.k >> 8) & 0xFF) as bv8, ((i.k >> 16) & 0xFF) as bv8, (i.k >> 24) as bv8
    ]
  }

  function EncodeAll(program: seq<Instruction>): seq<bv8> {
    if program == [] then [] else Encode(program[0]) + EncodeAll(program[1..])
  }

  /** What the kernel reads from the file: little-endian fields of 16, 8, 8 and 32 bits. */
  function Decode(b: seq<bv8>): Instruction
    requires |b| == 8
  {
    Instruction(b[0] as bv16 | (b[1] as bv16 << 8), b[2], b[3],
                b[4] as bv32 | (b[5] as bv32 << 8) | (b[6] as bv32 << 16) | (b[7] as bv32 << 24))
  }

  function DecodeAll(bytes: seq<bv8>): Option<seq<Instruction>>
    decreases |bytes|
  {
    if bytes == [] then Some([])
    else if |bytes| < 8 then None
    else
      var rest := DecodeAll(bytes[8..]);
      if rest.None? then None else Some([Decode(bytes[..8])] + rest.value)
  }

  /** Low bytes first, the jumps between the code and the operand. */
  lemma Layout(i: Instruction)
    ensures var b := Encode(i);
            && |b| == 8 && b[2] == i.jt && b[3] == i.jf
            && b[0] as bv16 == i.code & 0xFF && b[1] as bv16 == i.code >> 8
            && b[4] as bv32 == i.k & 0xFF && b[5] as bv32 == (i.k >> 8) & 0xFF
            && b[6] as bv32 == (i.k >> 16) & 0xFF && b[7] as bv32 == i.k >> 24
  {
  }

  /** A row of the shipped file for x86-64: the comparison with its architecture. */
  lemma ArchRowBytes()
    ensures Encode(Program(X8664)[1]) == [0x15, 0, 1, 0, 0x3E, 0, 0, 0xC0]
  {
    hide Program;
    ListingOfArch(X8664);
  }

  lemma DecodesOne(i: Instruction)
    ensures |Encode(i)| == 8 && Decode(Encode(i)) == i
  {
  }

  lemma EncodesOne(b: seq<bv8>)
    requires |b| == 8
    ensures Encode(Decode(b)) == b
  {
  }

  /** The file holds the program: reading it gives the program back. */
  lemma {:induction false} DecodesEncoded(program: seq<Instruction>)
    ensures |EncodeAll(program)| == 8 * |program|
    ensures DecodeAll(EncodeAll(program)) == Some(program)
  {
    hide Encode, Decode;
    if program != [] {
      DecodesOne(program[0]);
      DecodesEncoded(program[1..]);
      var bytes := EncodeAll(program);
      assert bytes[..8] == Encode(program[0]) && bytes[8..] == EncodeAll(program[1..]);
      assert [program[0]] + program[1..] == program;
    }
  }

  /** No two files hold the same program. */
  lemma {:induction false} EncodesDecoded(bytes: seq<bv8>)
    ensures DecodeAll(bytes).Some? <==> |bytes| % 8 == 0
    ensures DecodeAll(bytes).Some? ==> EncodeAll(DecodeAll(bytes).value) == bytes
    decreases |bytes|
  {
    hide Encode, Decode, EncodeAll, DecodeAll;
    DecodesStep(bytes);
    if |bytes| >= 8 {
      EncodesDecoded(bytes[8..]);
      if DecodeAll(bytes).Some? {
        EncodesOne(bytes[..8]);
        EncodesStep(Decode(bytes[..8]), DecodeAll(bytes[8..]).value);
        assert bytes[..8] + bytes[8..] == bytes;
      }
    }
  }

  lemma DecodesStep(bytes: seq<bv8>)
    ensures |bytes| == 0 ==> DecodeAll(bytes) == Some([]) && EncodeAll([]) == bytes
    ensures 0 < |bytes| < 8 ==> DecodeAll(bytes).None?
    ensures |bytes| >= 8 ==> var rest := DecodeAll(bytes[8..]);
              DecodeAll(bytes) == if rest.None? then None else Some([Decode(bytes[..8])] + rest.value)
  {
    hide Encode, Decode;
  }

  lemma EncodesStep(i: Instruction, rest: seq<Instruction>)
    ensures EncodeAll([i] + rest) == Encode(i) + EncodeAll(rest)
  {
    hide Encode;
    assert ([i] + rest)[1..] == rest;
  }

  /** What is read back from the shipped file decides as the policy. */
  lemma ShippedFileIsPolicy(machine: Machine, data: Data)
    requires data.Valid()
    ensures var read := DecodeAll(EncodeAll(Program(machine)));
            && read.Some? && InBounds(read.value)
            && Run(read.value, data, Running(0, 0), |read.value|) ==
               Halted(Word(Policy(machine, data.Arch(), data.Nr(), data.Arg0Low())))
  {
    DecodesEncoded(Program(machine));
    TheProgramIsInBounds(machine);
    FilterIsPolicy(machine, data);
  }
}
