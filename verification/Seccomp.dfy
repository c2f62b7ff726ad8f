/**
 The seccomp filter compiler of native/src/linux/seccomp.rs.

 A deny list, a list of ioctl commands and four guarded syscalls are compiled into a
 classic-BPF program made of relative forward jumps. The machine is the interpreter
 of the file's own tests; the policy is a first-match table. The main result is that
 running the compiled program computes exactly the policy.
 */
module Seccomp {
  import opened Wrappers

  const BPF_LD_W_ABS: int := 0x20
  const BPF_JMP_JEQ_K: int := 0x15
  const BPF_JMP_JSET_K: int := 0x45
  const BPF_ALU_AND_K: int := 0x54
  const BPF_JMP_JGE_K: int := 0x35
  const BPF_RET_K: int := 0x06

  const SECCOMP_RET_KILL_PROCESS: bv32 := 0x8000_0000
  const SECCOMP_RET_ERRNO: bv32 := 0x0005_0000
  const SECCOMP_RET_ALLOW: bv32 := 0x7fff_0000
  const EPERM: bv32 := 1
  const ENOSYS: bv32 := 38
  const PR_SET_PDEATHSIG: bv32 := 1
  const X32_SYSCALL_BIT: bv32 := 0x4000_0000

  /** Offsets into `struct seccomp_data`. */
  const DATA_NR: bv32 := 0
  const DATA_ARCH: bv32 := 4
  const DATA_ARG0: bv32 := 16
  const DATA_ARG1: bv32 := 24

  const CLONE_NEWNS: bv32 := 0x0002_0000
  const CLONE_NEWCGROUP: bv32 := 0x0200_0000
  const CLONE_NEWUTS: bv32 := 0x0400_0000
  const CLONE_NEWIPC: bv32 := 0x0800_0000
  const CLONE_NEWUSER: bv32 := 0x1000_0000
  const CLONE_NEWPID: bv32 := 0x2000_0000
  const CLONE_NEWNET: bv32 := 0x4000_0000

  /** An unsigned byte: the range of a BPF jump. */
  type U8 = x: int | 0 <= x < 0x100

  datatype Instruction = Instruction(code: int, jt: U8, jf: U8, k: bv32)

  /** Everything the compiler takes from the target and from libc. */
  datatype Target = Target(
    auditArch: bv32,
    x86: bool,
    denied: seq<bv64>,
    ioctls: seq<bv32>,
    sysIoctl: bv64,
    sysPrctl: bv64,
    sysClone3: bv64,
    sysClone: bv64)

  /** `value as u32` of a 64-bit value. */
  function Low32(value: bv64): bv32 {
    (value & 0xffff_ffff) as bv32
  }

  // ---------------------------------------------------------------- compiler

  function Statement(code: int, value: bv32): Instruction {
    Instruction(code, 0, 0, value)
  }

  function Errno(errno: bv32): bv32 {
    SECCOMP_RET_ERRNO | errno
  }

  function Deny(errno: bv32): Instruction {
    Statement(BPF_RET_K, Errno(errno))
  }

  function DenyIfEqual(value: bv32): seq<Instruction> {
    [Instruction(BPF_JMP_JEQ_K, 0, 1, value), Deny(EPERM)]
  }

  function NamespaceCloneFlags(): bv32 {
    CLONE_NEWCGROUP | CLONE_NEWIPC | CLONE_NEWNET | CLONE_NEWNS | CLONE_NEWPID
    | CLONE_NEWUSER | CLONE_NEWUTS
  }

  /**
   A body guarded by a comparison with one syscall number. `None` is the panic on a body
   longer than the one-byte jump range.
   */
  function SyscallBlock(syscall: bv64, body: seq<Instruction>): (block: Option<seq<Instruction>>)
    ensures block.Some? <==> |body| < 0x100
  {
    if |body| < 0x100 then
      Some([Instruction(BPF_JMP_JEQ_K, 0, |body|, Low32(syscall))] + body)
    else
      None
  }

  /** The ioctl body denies its commands by equality, one after the other. */
  function DenyEach(commands: seq<bv32>): (body: seq<Instruction>)
    ensures |body| == 2 * |commands|
  {
    if commands == [] then [] else DenyEach(commands[..|commands| - 1]) + DenyIfEqual(commands[|commands| - 1])
  }

  function IoctlBody(commands: seq<bv32>): (body: seq<Instruction>)
    ensures |body| == 2 * |commands| + 3
  {
    [Statement(BPF_LD_W_ABS, DATA_ARG1), Statement(BPF_ALU_AND_K, 0xffff)]
    + DenyEach(commands)
    + [Statement(BPF_LD_W_ABS, DATA_NR)]
  }

  function PrctlBody(): seq<Instruction> {
    [Statement(BPF_LD_W_ABS, DATA_ARG0)]
    + DenyIfEqual(PR_SET_PDEATHSIG)
    + [Statement(BPF_LD_W_ABS, DATA_NR)]
  }

  function CloneBody(): seq<Instruction> {
    [ Statement(BPF_LD_W_ABS, DATA_ARG0),
      Instruction(BPF_JMP_JSET_K, 0, 1, NamespaceCloneFlags()),
      Deny(EPERM),
      Statement(BPF_LD_W_ABS, DATA_NR) ]
  }

  function Header(t: Target): seq<Instruction> {
    [ Statement(BPF_LD_W_ABS, DATA_ARCH),
      Instruction(BPF_JMP_JEQ_K, 1, 0, t.auditArch),
      Statement(BPF_RET_K, SECCOMP_RET_KILL_PROCESS),
      Statement(BPF_LD_W_ABS, DATA_NR) ]
  }

  function X32Guard(t: Target): seq<Instruction> {
    if t.x86 then
      [ Instruction(BPF_JMP_JGE_K, 0, 1, X32_SYSCALL_BIT),
        Statement(BPF_RET_K, SECCOMP_RET_KILL_PROCESS) ]
    else []
  }

  function DenyBlocks(denied: seq<bv64>): seq<Instruction> {
    if denied == [] then []
    else
      DenyBlocks(denied[..|denied| - 1]) + SyscallBlock(denied[|denied| - 1], [Deny(EPERM)]).value
  }

  /** Every block fits the one-byte jump range; only the ioctl block can fail to. */
  predicate Fits(t: Target) {
    2 * |t.ioctls| + 3 < 0x100
  }

  /** The program the builder is specified to produce, block after block. */
  function Program(t: Target): seq<Instruction>
    requires Fits(t)
  {
    Prelude(t) + IoctlBlock(t) + PrctlBlock(t) + Clone3Block(t) + CloneBlock(t)
    + [Statement(BPF_RET_K, SECCOMP_RET_ALLOW)]
  }

  function IoctlBlock(t: Target): seq<Instruction>
    requires Fits(t)
  {
    SyscallBlock(t.sysIoctl, IoctlBody(t.ioctls)).value
  }

  function PrctlBlock(t: Target): seq<Instruction> {
    SyscallBlock(t.sysPrctl, PrctlBody()).value
  }

  function Clone3Block(t: Target): seq<Instruction> {
    SyscallBlock(t.sysClone3, [Deny(ENOSYS)]).value
  }

  function CloneBlock(t: Target): seq<Instruction> {
    SyscallBlock(t.sysClone, CloneBody()).value
  }

  function Prelude(t: Target): seq<Instruction> {
    Header(t) + X32Guard(t) + DenyBlocks(t.denied)
  }

  /**
   Builds the filter by pushing onto a growing vector, panicking (`None`) exactly when
   the ioctl block exceeds the jump range.
   */
  method BaselineFilter(t: Target) returns (filter: Option<seq<Instruction>>)
    ensures filter == if Fits(t) then Some(Program(t)) else None
  {
    var code := Header(t);
    if t.x86 {
      code := code + [Instruction(BPF_JMP_JGE_K, 0, 1, X32_SYSCALL_BIT)];
      code := code + [Statement(BPF_RET_K, SECCOMP_RET_KILL_PROCESS)];
    }
    assert code == Header(t) + X32Guard(t);
    for i := 0 to |t.denied|
      invariant code == Header(t) + X32Guard(t) + DenyBlocks(t.denied[..i])
    {
      code := code + SyscallBlock(t.denied[i], [Deny(EPERM)]).value;
      DenyBlocksStep(t, i);
    }
    assert t.denied[..|t.denied|] == t.denied;
    var ioctl := BuildIoctlBody(t.ioctls);
    var block := SyscallBlock(t.sysIoctl, ioctl);
    if block.None? {
      return None;
    }
    code := code + block.value;
    code := code + SyscallBlock(t.sysPrctl, PrctlBody()).value;
    code := code + SyscallBlock(t.sysClone3, [Deny(ENOSYS)]).value;
    code := code + SyscallBlock(t.sysClone, CloneBody()).value;
    code := code + [Statement(BPF_RET_K, SECCOMP_RET_ALLOW)];
    return Some(code);
  }

  lemma DenyBlocksStep(t: Target, i: nat)
    requires i < |t.denied|
    ensures Header(t) + X32Guard(t) + DenyBlocks(t.denied[..i]) + SyscallBlock(t.denied[i], [Deny(EPERM)]).value
         == Header(t) + X32Guard(t) + DenyBlocks(t.denied[..i + 1])
  {
    assert t.denied[..i + 1][..i] == t.denied[..i];
  }

  method BuildIoctlBody(commands: seq<bv32>) returns (ioctl: seq<Instruction>)
    ensures ioctl == IoctlBody(commands)
  {
    ioctl := [Statement(BPF_LD_W_ABS, DATA_ARG1), Statement(BPF_ALU_AND_K, 0xffff)];
    ghost var start := ioctl;
    for i := 0 to |commands|
      invariant ioctl == start + DenyEach(commands[..i])
    {
      assert commands[..i + 1][..i] == commands[..i];
      ioctl := ioctl + DenyIfEqual(commands[i]);
    }
    assert commands[..|commands|] == commands;
    ioctl := ioctl + [Statement(BPF_LD_W_ABS, DATA_NR)];
  }

  // ----------------------------------------------------------------- machine

  function LeBytes32(x: bv32): (bytes: seq<bv8>)
    ensures |bytes| == 4
  {
    [(x & 0xff) as bv8, ((x >> 8) & 0xff) as bv8, ((x >> 16) & 0xff) as bv8, ((x >> 24) & 0xff) as bv8]
  }

  function LeBytes64(x: bv64): (bytes: seq<bv8>)
    ensures |bytes| == 8
  {
    LeBytes32(Low32(x)) + LeBytes32(Low32(x >> 32))
  }

  function FromLeBytes(b: seq<bv8>): bv32
    requires |b| == 4
  {
    (b[0] as bv32) | ((b[1] as bv32) << 8) | ((b[2] as bv32) << 16) | ((b[3] as bv32) << 24)
  }

  lemma LeRoundTrip(x: bv32)
    ensures FromLeBytes(LeBytes32(x)) == x
  {
  }

  lemma HalvesRoundTrip(x: bv64)
    ensures (Low32(x) as bv64) | ((Low32(x >> 32) as bv64) << 32) == x
  {
  }

  /** All eight bytes of an argument read back. */
  lemma LeRoundTrip64(x: bv64)
    ensures (FromLeBytes(LeBytes64(x)[..4]) as bv64) | ((FromLeBytes(LeBytes64(x)[4..]) as bv64) << 32) == x
  {
    LeRoundTrip(Low32(x));
    LeRoundTrip(Low32(x >> 32));
    HalvesRoundTrip(x);
    hide LeBytes32, FromLeBytes;
    assert LeBytes64(x)[..4] == LeBytes32(Low32(x)) && LeBytes64(x)[4..] == LeBytes32(Low32(x >> 32));
  }

  /** `seccomp_data` as the interpreter lays it out; the instruction pointer stays zero. */
  ghost predicate IsSeccompData(data: seq<bv8>, nr: bv32, arch: bv32, args: seq<bv64>) {
    && |data| == 64
    && |args| <= 6
    && data[0..4] == LeBytes32(nr)
    && data[4..8] == LeBytes32(arch)
    && forall i :: 0 <= i < |args| ==> data[16 + 8 * i..16 + 8 * i + 8] == LeBytes64(args[i])
  }

  /** A word load; `None` is the out-of-range slice panic. */
  function Load(data: seq<bv8>, k: bv32): Option<bv32> {
    var offset := k as int;
    if offset + 4 <= |data| then Some(FromLeBytes(data[offset..offset + 4])) else None
  }

  /** `Panicked` covers an unknown opcode, a load past the data, and leaving the program. */
  datatype Outcome = Returned(value: bv32) | FellOff(accumulator: bv32) | Panicked {
    /** First answer wins. */
    function Then(next: Outcome): Outcome {
      if FellOff? then next else this
    }
  }

  /** A piece either answers or ends with `nr` loaded. */
  predicate HandsOver(o: Outcome, nr: bv32) {
    o.Returned? || o == FellOff(nr)
  }

  predicate IsJump(code: int, x86: bool) {
    code == BPF_JMP_JEQ_K || code == BPF_JMP_JSET_K || (x86 && code == BPF_JMP_JGE_K)
  }

  predicate Taken(code: int, accumulator: bv32, k: bv32) {
    if code == BPF_JMP_JEQ_K then accumulator == k
    else if code == BPF_JMP_JSET_K then accumulator & k != 0
    else accumulator >= k
  }

  /** One instruction: return, continue past `skip` further instructions, or panic. */
  datatype Effect = Return(value: bv32) | Continue(skip: nat, accumulator: bv32) | Panic

  function Execute(i: Instruction, data: seq<bv8>, x86: bool, acc: bv32): Effect {
    if i.code == BPF_RET_K then Return(i.k)
    else if i.code == BPF_LD_W_ABS then
      (match Load(data, i.k)
       case None => Panic
       case Some(v) => Continue(0, v))
    else if i.code == BPF_ALU_AND_K then Continue(0, acc & i.k)
    else if IsJump(i.code, x86) then Continue(if Taken(i.code, acc, i.k) then i.jt else i.jf, acc)
    else Panic
  }

  /**
   The meaning of a program suffix: jumps are relative and forward, so no program
   counter is needed. Reaching the end exactly is `FellOff`, so that pieces compose.
   */
  function Exec(p: seq<Instruction>, data: seq<bv8>, x86: bool, acc: bv32): Outcome
    decreases |p|
  {
    if p == [] then FellOff(acc)
    else
      match Execute(p[0], data, x86, acc)
      case Return(v) => Returned(v)
      case Continue(skip, acc') =>
        if 1 + skip <= |p| then Exec(p[1 + skip..], data, x86, acc') else Panicked
      case Panic => Panicked
  }

  // ------------------------------------------------------------------ policy

  predicate Denies(denied: seq<bv64>, nr: bv32) {
    exists i :: 0 <= i < |denied| && Low32(denied[i]) == nr
  }

  /** The x32 ABI, whose numbers would bypass the table. */
  predicate IsX32(t: Target, nr: bv32) {
    t.x86 && nr >= X32_SYSCALL_BIT
  }

  /** What the filter is meant to decide: the first rule that matches. */
  function Policy(t: Target, arch: bv32, nr: bv32, arg0: bv32, arg1: bv32): bv32 {
    if arch != t.auditArch then SECCOMP_RET_KILL_PROCESS
    else if IsX32(t, nr) then SECCOMP_RET_KILL_PROCESS
    else if Denies(t.denied, nr) then Errno(EPERM)
    else if nr == Low32(t.sysIoctl) && arg1 & 0xffff in t.ioctls then Errno(EPERM)
    else if nr == Low32(t.sysPrctl) && arg0 == PR_SET_PDEATHSIG then Errno(EPERM)
    else if nr == Low32(t.sysClone3) then Errno(ENOSYS)
    else if nr == Low32(t.sysClone) && RequestsNamespace(arg0) then Errno(EPERM)
    else SECCOMP_RET_ALLOW
  }

  /** Some namespace flag is set; the exit-signal byte, with CLONE_NEWTIME, is not looked at. */
  predicate RequestsNamespace(flags: bv32) {
    || flags & CLONE_NEWNS != 0 || flags & CLONE_NEWCGROUP != 0 || flags & CLONE_NEWUTS != 0
    || flags & CLONE_NEWIPC != 0 || flags & CLONE_NEWUSER != 0 || flags & CLONE_NEWPID != 0
    || flags & CLONE_NEWNET != 0
  }

  // ------------------------------------------------------------------ proofs

  lemma CloneMask(flags: bv32)
    ensures flags & NamespaceCloneFlags() != 0 <==> RequestsNamespace(flags)
  {
  }

  /** Sequential composition: a piece that neither returns nor escapes hands over its accumulator. */
  lemma {:induction false} ExecConcat(a: seq<Instruction>, b: seq<Instruction>, data: seq<bv8>, x86: bool, acc: bv32)
    requires !Exec(a, data, x86, acc).Panicked?
    ensures Exec(a + b, data, x86, acc) ==
            match Exec(a, data, x86, acc)
            case Returned(v) => Returned(v)
            case FellOff(acc') => Exec(b, data, x86, acc')
            case Panicked => Panicked
    decreases |a|
  {
    if a == [] {
      assert a + b == b;
    } else {
      assert (a + b)[0] == a[0];
      match Execute(a[0], data, x86, acc) {
        case Return(_) =>
        case Continue(skip, acc') =>
          assert (a + b)[1 + skip..] == a[1 + skip..] + b;
          ExecConcat(a[1 + skip..], b, data, x86, acc');
        case Panic =>
      }
    }
  }

  /** One instruction in front of the rest. */
  lemma ExecHead(i: Instruction, rest: seq<Instruction>, data: seq<bv8>, x86: bool, acc: bv32)
    ensures var e := Execute(i, data, x86, acc);
            && (e.Return? ==> Exec([i] + rest, data, x86, acc) == Returned(e.value))
            && (e.Continue? && e.skip <= |rest| ==>
                  Exec([i] + rest, data, x86, acc) == Exec(rest[e.skip..], data, x86, e.accumulator))
  {
    var p := [i] + rest;
    var e := Execute(i, data, x86, acc);
    if e.Continue? && e.skip <= |rest| {
      assert p[1 + e.skip..] == rest[e.skip..];
    }
  }

  /** The words the filter reads are exactly the low halves the policy speaks of. */
  lemma LoadedWords(data: seq<bv8>, nr: bv32, arch: bv32, args: seq<bv64>)
    requires IsSeccompData(data, nr, arch, args) && |args| == 6
    ensures Load(data, DATA_NR) == Some(nr)
    ensures Load(data, DATA_ARCH) == Some(arch)
    ensures Load(data, DATA_ARG0) == Some(Low32(args[0]))
    ensures Load(data, DATA_ARG1) == Some(Low32(args[1]))
  {
    LeRoundTrip(nr);
    LeRoundTrip(arch);
    LeRoundTrip(Low32(args[0]));
    LeRoundTrip(Low32(args[1]));
    assert data[16..20] == data[16..24][..4] == LeBytes32(Low32(args[0]));
    assert data[24..28] == data[24..32][..4] == LeBytes32(Low32(args[1]));
  }

  /** A block is transparent for every other syscall: it falls off its end untouched. */
  lemma SyscallBlockExec(syscall: bv64, body: seq<Instruction>, data: seq<bv8>, x86: bool, nr: bv32)
    requires |body| < 0x100
    ensures Exec(SyscallBlock(syscall, body).value, data, x86, nr) ==
            if nr == Low32(syscall) then Exec(body, data, x86, nr) else FellOff(nr)
  {
    var block := SyscallBlock(syscall, body).value;
    assert block[1..] == body;
    assert block[1 + |body|..] == [];
  }

  lemma {:induction false} DenyEachExec(commands: seq<bv32>, data: seq<bv8>, x86: bool, acc: bv32)
    ensures Exec(DenyEach(commands), data, x86, acc) ==
            if acc in commands then Returned(Errno(EPERM)) else FellOff(acc)
  {
    if commands != [] {
      var n := |commands| - 1;
      DenyEachExec(commands[..n], data, x86, acc);
      ExecConcat(DenyEach(commands[..n]), DenyIfEqual(commands[n]), data, x86, acc);
      DenyIfEqualExec(commands[n], data, x86, acc);
      assert commands == commands[..n] + [commands[n]];
    }
  }

  lemma DenyIfEqualExec(value: bv32, data: seq<bv8>, x86: bool, acc: bv32)
    ensures Exec(DenyIfEqual(value), data, x86, acc) ==
            if acc == value then Returned(Errno(EPERM)) else FellOff(acc)
  {
    var p := DenyIfEqual(value);
    assert p[1..] == [Deny(EPERM)];
    assert p[2..] == [];
  }

  /** The words of one system call as the filter sees them. */
  ghost predicate Sees(data: seq<bv8>, arch: bv32, nr: bv32, arg0: bv32, arg1: bv32) {
    && Load(data, DATA_NR) == Some(nr)
    && Load(data, DATA_ARCH) == Some(arch)
    && Load(data, DATA_ARG0) == Some(arg0)
    && Load(data, DATA_ARG1) == Some(arg1)
  }

  lemma IoctlBodyExec(commands: seq<bv32>, data: seq<bv8>, x86: bool, acc: bv32, arch: bv32, nr: bv32, arg0: bv32,
      arg1: bv32)
    requires Sees(data, arch, nr, arg0, arg1)
    ensures Exec(IoctlBody(commands), data, x86, acc) ==
            if arg1 & 0xffff in commands then Returned(Errno(EPERM)) else FellOff(nr)
  {
    var start := [Statement(BPF_LD_W_ABS, DATA_ARG1), Statement(BPF_ALU_AND_K, 0xffff)];
    var reload := [Statement(BPF_LD_W_ABS, DATA_NR)];
    MaskExec(data, x86, acc, arg1);
    ReloadExec(data, x86, arg1 & 0xffff, nr);
    hide Exec;
    DenyEachExec(commands, data, x86, arg1 & 0xffff);
    ExecConcat(start, DenyEach(commands), data, x86, acc);
    ExecConcat(start + DenyEach(commands), reload, data, x86, acc);
  }

  lemma MaskExec(data: seq<bv8>, x86: bool, acc: bv32, arg1: bv32)
    requires Load(data, DATA_ARG1) == Some(arg1)
    ensures Exec([Statement(BPF_LD_W_ABS, DATA_ARG1), Statement(BPF_ALU_AND_K, 0xffff)], data, x86, acc)
         == FellOff(arg1 & 0xffff)
  {
    var start := [Statement(BPF_LD_W_ABS, DATA_ARG1), Statement(BPF_ALU_AND_K, 0xffff)];
    assert start[1..] == [Statement(BPF_ALU_AND_K, 0xffff)];
    assert start[1..][1..] == [];
    assert Exec(start[1..], data, x86, arg1) == FellOff(arg1 & 0xffff);
  }

  lemma PrctlBodyExec(data: seq<bv8>, x86: bool, acc: bv32, arch: bv32, nr: bv32, arg0: bv32, arg1: bv32)
    requires Sees(data, arch, nr, arg0, arg1)
    ensures Exec(PrctlBody(), data, x86, acc) ==
            if arg0 == PR_SET_PDEATHSIG then Returned(Errno(EPERM)) else FellOff(nr)
  {
    var start := [Statement(BPF_LD_W_ABS, DATA_ARG0)];
    var reload := [Statement(BPF_LD_W_ABS, DATA_NR)];
    assert start[1..] == [];
    assert Exec(start, data, x86, acc) == FellOff(arg0);
    ReloadExec(data, x86, arg0, nr);
    hide Exec;
    DenyIfEqualExec(PR_SET_PDEATHSIG, data, x86, arg0);
    ExecConcat(start, DenyIfEqual(PR_SET_PDEATHSIG), data, x86, acc);
    ExecConcat(start + DenyIfEqual(PR_SET_PDEATHSIG), reload, data, x86, acc);
  }

  lemma CloneBodyExec(data: seq<bv8>, x86: bool, acc: bv32, arch: bv32, nr: bv32, arg0: bv32, arg1: bv32)
    requires Sees(data, arch, nr, arg0, arg1)
    ensures Exec(CloneBody(), data, x86, acc) ==
            if RequestsNamespace(arg0) then Returned(Errno(EPERM)) else FellOff(nr)
  {
    var p := CloneBody();
    var reload := [p[3]];
    CloneMask(arg0);
    ReloadExec(data, x86, arg0, nr);
    hide Exec;
    assert p == [p[0]] + ([p[1]] + ([p[2]] + reload));
    ExecHead(p[0], [p[1]] + ([p[2]] + reload), data, x86, acc);
    assert ([p[1]] + ([p[2]] + reload))[0..] == [p[1]] + ([p[2]] + reload);
    ExecHead(p[1], [p[2]] + reload, data, x86, arg0);
    assert ([p[2]] + reload)[0..] == [p[2]] + reload;
    assert ([p[2]] + reload)[1..] == reload;
    ExecHead(p[2], reload, data, x86, arg0);
  }

  lemma ReloadExec(data: seq<bv8>, x86: bool, acc: bv32, nr: bv32)
    requires Load(data, DATA_NR) == Some(nr)
    ensures Exec([Statement(BPF_LD_W_ABS, DATA_NR)], data, x86, acc) == FellOff(nr)
  {
    assert [Statement(BPF_LD_W_ABS, DATA_NR)][1..] == [];
  }

  lemma DenyBlockExec(syscall: bv64, errno: bv32, data: seq<bv8>, x86: bool, nr: bv32)
    ensures Exec(SyscallBlock(syscall, [Deny(errno)]).value, data, x86, nr) ==
            if nr == Low32(syscall) then Returned(Errno(errno)) else FellOff(nr)
  {
    SyscallBlockExec(syscall, [Deny(errno)], data, x86, nr);
  }

  lemma {:induction false} DenyBlocksExec(denied: seq<bv64>, data: seq<bv8>, x86: bool, nr: bv32)
    ensures Exec(DenyBlocks(denied), data, x86, nr) ==
            if Denies(denied, nr) then Returned(Errno(EPERM)) else FellOff(nr)
  {
    if denied != [] {
      var n := |denied| - 1;
      DenyBlocksExec(denied[..n], data, x86, nr);
      DenyBlockExec(denied[n], EPERM, data, x86, nr);
      ExecConcat(DenyBlocks(denied[..n]), SyscallBlock(denied[n], [Deny(EPERM)]).value, data, x86, nr);
      assert forall i :: 0 <= i < n ==> denied[..n][i] == denied[i];
      assert Denies(denied, nr) <==> Denies(denied[..n], nr) || Low32(denied[n]) == nr;
    }
  }

  lemma PreludeExec(t: Target, data: seq<bv8>, acc: bv32, arch: bv32, nr: bv32, arg0: bv32, arg1: bv32)
    requires Sees(data, arch, nr, arg0, arg1)
    ensures Exec(Prelude(t), data, t.x86, acc) ==
            if arch != t.auditArch then Returned(SECCOMP_RET_KILL_PROCESS)
            else if IsX32(t, nr) then Returned(SECCOMP_RET_KILL_PROCESS)
            else if Denies(t.denied, nr) then Returned(Errno(EPERM))
            else FellOff(nr)
  {
    HeaderExec(t, data, acc, arch, nr, arg0, arg1);
    ExecConcat(Header(t), X32Guard(t), data, t.x86, acc);
    X32GuardExec(t, data, nr);
    DenyBlocksExec(t.denied, data, t.x86, nr);
    ExecConcat(Header(t) + X32Guard(t), DenyBlocks(t.denied), data, t.x86, acc);
  }

  lemma HeaderExec(t: Target, data: seq<bv8>, acc: bv32, arch: bv32, nr: bv32, arg0: bv32, arg1: bv32)
    requires Sees(data, arch, nr, arg0, arg1)
    ensures Exec(Header(t), data, t.x86, acc) ==
            if arch != t.auditArch then Returned(SECCOMP_RET_KILL_PROCESS) else FellOff(nr)
  {
    var p := Header(t);
    var reload := [p[3]];
    ReloadExec(data, t.x86, arch, nr);
    hide Exec;
    assert p == [p[0]] + ([p[1]] + ([p[2]] + reload));
    ExecHead(p[0], [p[1]] + ([p[2]] + reload), data, t.x86, acc);
    assert ([p[1]] + ([p[2]] + reload))[0..] == [p[1]] + ([p[2]] + reload);
    ExecHead(p[1], [p[2]] + reload, data, t.x86, arch);
    assert ([p[2]] + reload)[0..] == [p[2]] + reload;
    assert ([p[2]] + reload)[1..] == reload;
    ExecHead(p[2], reload, data, t.x86, arch);
  }

  lemma X32GuardExec(t: Target, data: seq<bv8>, nr: bv32)
    ensures Exec(X32Guard(t), data, t.x86, nr) ==
            if IsX32(t, nr) then Returned(SECCOMP_RET_KILL_PROCESS) else FellOff(nr)
  {
    if t.x86 {
      var p := X32Guard(t);
      assert p[1..] == [p[1]];
      assert p[2..] == [];
    }
  }

  lemma IoctlBlockExec(t: Target, data: seq<bv8>, arch: bv32, nr: bv32, arg0: bv32, arg1: bv32)
    requires Fits(t) && Sees(data, arch, nr, arg0, arg1)
    ensures Exec(IoctlBlock(t), data, t.x86, nr) ==
            if nr == Low32(t.sysIoctl) && arg1 & 0xffff in t.ioctls
            then Returned(Errno(EPERM)) else FellOff(nr)
  {
    SyscallBlockExec(t.sysIoctl, IoctlBody(t.ioctls), data, t.x86, nr);
    IoctlBodyExec(t.ioctls, data, t.x86, nr, arch, nr, arg0, arg1);
  }

  lemma PrctlBlockExec(t: Target, data: seq<bv8>, arch: bv32, nr: bv32, arg0: bv32, arg1: bv32)
    requires Sees(data, arch, nr, arg0, arg1)
    ensures Exec(PrctlBlock(t), data, t.x86, nr) ==
            if nr == Low32(t.sysPrctl) && arg0 == PR_SET_PDEATHSIG
            then Returned(Errno(EPERM)) else FellOff(nr)
  {
    SyscallBlockExec(t.sysPrctl, PrctlBody(), data, t.x86, nr);
    PrctlBodyExec(data, t.x86, nr, arch, nr, arg0, arg1);
  }

  lemma Clone3BlockExec(t: Target, data: seq<bv8>, nr: bv32)
    ensures Exec(Clone3Block(t), data, t.x86, nr) ==
            if nr == Low32(t.sysClone3) then Returned(Errno(ENOSYS)) else FellOff(nr)
  {
    DenyBlockExec(t.sysClone3, ENOSYS, data, t.x86, nr);
  }

  lemma CloneBlockExec(t: Target, data: seq<bv8>, arch: bv32, nr: bv32, arg0: bv32, arg1: bv32)
    requires Sees(data, arch, nr, arg0, arg1)
    ensures Exec(CloneBlock(t), data, t.x86, nr) ==
            if nr == Low32(t.sysClone) && RequestsNamespace(arg0)
            then Returned(Errno(EPERM)) else FellOff(nr)
  {
    SyscallBlockExec(t.sysClone, CloneBody(), data, t.x86, nr);
    CloneBodyExec(data, t.x86, nr, arch, nr, arg0, arg1);
  }

  /**
   Compiler correctness: whatever accumulator the program starts with, it returns the
   policy's answer. It never falls off its end and never panics.
   */
  lemma ProgramMeetsPolicy(t: Target, data: seq<bv8>, acc: bv32, arch: bv32, nr: bv32, arg0: bv32, arg1: bv32)
    requires Fits(t)
    requires Sees(data, arch, nr, arg0, arg1)
    ensures Exec(Program(t), data, t.x86, acc) == Returned(Policy(t, arch, nr, arg0, arg1))
  {
    var first := Exec(Prelude(t), data, t.x86, acc);
    var ioctl := Exec(IoctlBlock(t), data, t.x86, nr);
    var prctl := Exec(PrctlBlock(t), data, t.x86, nr);
    var clone3 := Exec(Clone3Block(t), data, t.x86, nr);
    var clone := Exec(CloneBlock(t), data, t.x86, nr);
    hide *;
    PreludeExec(t, data, acc, arch, nr, arg0, arg1);
    IoctlBlockExec(t, data, arch, nr, arg0, arg1);
    PrctlBlockExec(t, data, arch, nr, arg0, arg1);
    Clone3BlockExec(t, data, nr);
    CloneBlockExec(t, data, arch, nr, arg0, arg1);
    ProgramByBlocks(t, data, acc, nr);
    FirstMatch(t, arch, nr, arg0, arg1, first, ioctl, prctl, clone3, clone);
  }

  /** The block outcomes, first answer winning, are the policy. */
  lemma FirstMatch(t: Target, arch: bv32, nr: bv32, arg0: bv32, arg1: bv32,
                   first: Outcome, ioctl: Outcome, prctl: Outcome, clone3: Outcome, clone: Outcome)
    requires first == if arch != t.auditArch || IsX32(t, nr) then Returned(SECCOMP_RET_KILL_PROCESS)
                      else if Denies(t.denied, nr) then Returned(Errno(EPERM)) else FellOff(nr)
    requires ioctl == if nr == Low32(t.sysIoctl) && arg1 & 0xffff in t.ioctls
                      then Returned(Errno(EPERM)) else FellOff(nr)
    requires prctl == if nr == Low32(t.sysPrctl) && arg0 == PR_SET_PDEATHSIG
                      then Returned(Errno(EPERM)) else FellOff(nr)
    requires clone3 == if nr == Low32(t.sysClone3) then Returned(Errno(ENOSYS)) else FellOff(nr)
    requires clone == if nr == Low32(t.sysClone) && RequestsNamespace(arg0)
                      then Returned(Errno(EPERM)) else FellOff(nr)
    ensures first.Then(ioctl).Then(prctl).Then(clone3).Then(clone).Then(Returned(SECCOMP_RET_ALLOW))
         == Returned(Policy(t, arch, nr, arg0, arg1))
  {
  }

  /** The blocks run in order, each handing the syscall number on to the next. */
  lemma ProgramByBlocks(t: Target, data: seq<bv8>, acc: bv32, nr: bv32)
    requires Fits(t)
    requires HandsOver(Exec(Prelude(t), data, t.x86, acc), nr)
    requires HandsOver(Exec(IoctlBlock(t), data, t.x86, nr), nr)
    requires HandsOver(Exec(PrctlBlock(t), data, t.x86, nr), nr)
    requires HandsOver(Exec(Clone3Block(t), data, t.x86, nr), nr)
    requires HandsOver(Exec(CloneBlock(t), data, t.x86, nr), nr)
    ensures Exec(Program(t), data, t.x86, acc) ==
            Exec(Prelude(t), data, t.x86, acc)
            .Then(Exec(IoctlBlock(t), data, t.x86, nr))
            .Then(Exec(PrctlBlock(t), data, t.x86, nr))
            .Then(Exec(Clone3Block(t), data, t.x86, nr))
            .Then(Exec(CloneBlock(t), data, t.x86, nr))
            .Then(Returned(SECCOMP_RET_ALLOW))
  {
    hide Exec;
    var p1 := Prelude(t) + IoctlBlock(t);
    var p2 := p1 + PrctlBlock(t);
    var p3 := p2 + Clone3Block(t);
    var p4 := p3 + CloneBlock(t);
    HandOn(Prelude(t), IoctlBlock(t), data, t.x86, acc, nr);
    HandOn(p1, PrctlBlock(t), data, t.x86, acc, nr);
    HandOn(p2, Clone3Block(t), data, t.x86, acc, nr);
    HandOn(p3, CloneBlock(t), data, t.x86, acc, nr);
    AllowExec(p4, data, t.x86, acc, nr);
  }

  /** Two pieces that each answer or reload the syscall number make another such piece. */
  lemma HandOn(a: seq<Instruction>, b: seq<Instruction>, data: seq<bv8>, x86: bool, acc: bv32, nr: bv32)
    requires HandsOver(Exec(a, data, x86, acc), nr) && HandsOver(Exec(b, data, x86, nr), nr)
    ensures Exec(a + b, data, x86, acc) == Exec(a, data, x86, acc).Then(Exec(b, data, x86, nr))
    ensures HandsOver(Exec(a + b, data, x86, acc), nr)
  {
    hide Exec;
    ExecConcat(a, b, data, x86, acc);
  }

  lemma AllowExec(p: seq<Instruction>, data: seq<bv8>, x86: bool, acc: bv32, nr: bv32)
    requires HandsOver(Exec(p, data, x86, acc), nr)
    ensures Exec(p + [Statement(BPF_RET_K, SECCOMP_RET_ALLOW)], data, x86, acc) ==
            Exec(p, data, x86, acc).Then(Returned(SECCOMP_RET_ALLOW))
  {
    var last := [Statement(BPF_RET_K, SECCOMP_RET_ALLOW)];
    assert Exec(last, data, x86, nr) == Returned(SECCOMP_RET_ALLOW);
    hide Exec;
    ExecConcat(p, last, data, x86, acc);
  }

  /** A program that is about to return an answer takes a step inside itself. */
  lemma StepInside(filter: seq<Instruction>, pc: nat, data: seq<bv8>, x86: bool, acc: bv32)
    requires pc <= |filter| && Exec(filter[pc..], data, x86, acc).Returned?
    ensures pc < |filter|
    ensures match Execute(filter[pc], data, x86, acc)
            case Return(v) => Exec(filter[pc..], data, x86, acc) == Returned(v)
            case Continue(skip, acc') =>
              && pc + 1 + skip <= |filter|
              && Exec(filter[pc + 1 + skip..], data, x86, acc') == Exec(filter[pc..], data, x86, acc)
            case Panic => false
  {
    var p := filter[pc..];
    assert p != [] && p[0] == filter[pc];
    match Execute(filter[pc], data, x86, acc) {
      case Return(_) =>
      case Continue(skip, _) => assert p[1 + skip..] == filter[pc + 1 + skip..];
      case Panic =>
    }
  }

  /**
   The interpreter loop. It panics exactly when the builder does; otherwise it returns
   the policy's answer, the program counter growing at every step and staying inside
   the program.
   */
  method Evaluate(t: Target, arch: bv32, syscall: bv64, args: seq<bv64>) returns (r: Outcome)
    requires |args| == 6
    ensures r == if Fits(t)
                 then Returned(Policy(t, arch, Low32(syscall), Low32(args[0]), Low32(args[1])))
                 else Panicked
  {
    var nr := Low32(syscall);
    var data := FillData(arch, nr, args);
    var built := BaselineFilter(t);
    if built.None? {
      return Panicked;
    }
    LoadedWords(data, nr, arch, args);
    ProgramMeetsPolicy(t, data, 0, arch, nr, Low32(args[0]), Low32(args[1]));
    r := Interpret(built.value, data, t.x86);
  }

  method Interpret(filter: seq<Instruction>, data: seq<bv8>, x86: bool) returns (r: Outcome)
    requires Exec(filter, data, x86, 0).Returned?
    ensures r == Exec(filter, data, x86, 0)
  {
    var accumulator: bv32 := 0;
    var pc := 0;
    assert filter[0..] == filter;
    hide Exec, Execute;
    while true
      invariant 0 <= pc <= |filter|
      invariant Exec(filter[pc..], data, x86, accumulator) == Exec(filter, data, x86, 0)
      decreases |filter| - pc
    {
      StepInside(filter, pc, data, x86, accumulator);
      match Execute(filter[pc], data, x86, accumulator) {
        case Return(v) => return Returned(v);
        case Continue(skip, next) => pc, accumulator := pc + 1 + skip, next;
        case Panic => assert false;
      }
    }
  }

  function Splice(data: seq<bv8>, offset: nat, bytes: seq<bv8>): (r: seq<bv8>)
    requires offset + |bytes| <= |data|
    ensures |r| == |data|
    ensures r[offset..offset + |bytes|] == bytes
    ensures forall lo, hi :: (0 <= lo <= hi <= offset || offset + |bytes| <= lo <= hi <= |data|)
                             ==> r[lo..hi] == data[lo..hi]
  {
    data[..offset] + bytes + data[offset + |bytes|..]
  }

  method FillData(arch: bv32, nr: bv32, args: seq<bv64>) returns (data: seq<bv8>)
    requires |args| == 6
    ensures IsSeccompData(data, nr, arch, args)
  {
    hide LeBytes32, LeBytes64, Splice;
    data := seq(64, _ => 0);
    data := Splice(data, 0, LeBytes32(nr));
    data := Splice(data, 4, LeBytes32(arch));
    for index := 0 to 6
      invariant IsSeccompData(data, nr, arch, args[..index])
    {
      data := Splice(data, 16 + index * 8, LeBytes64(args[index]));
    }
    assert args[..6] == args;
  }
}
