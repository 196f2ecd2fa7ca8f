/** The per-box runtime of the jumptable-hello superbox: the initialised flag
    and jmp_buf slot of each box, the lifecycle hooks (load, init, clobber),
    the export call gates, the abort import and the data-stack stubs.

    setjmp/longjmp are modelled as values: a checkpoint is the identity of
    the jmp_buf a gate keeps on its stack frame, and what a box's code does
    during a call is an `Outcome` -- it returned a value, or it called its
    abort import with a code.  The three boxes of the source are three
    instances of `Box` (see module BoxSystem). */
module BoxRuntime {
  import opened Common

  /** Identity of the jmp_buf that one gate activation keeps on its stack. */
  type Frame = nat

  /** How a box's code ended: it returned `value`, or it called its abort
      import (slot 0 of its import table) with `code`. */
  datatype Outcome = Normal(value: int) | Aborted(code: int)

  /** Where control goes after a box's abort import: back to the gate that
      installed `frame`, where setjmp now returns `value`, or nowhere (the
      process-wide `__box_abort` spins forever). */
  datatype Transfer = LongJump(frame: Frame, value: int) | Halt(code: int)

  //// import table ABI ////

  /** The entries of a box's import table. */
  datatype Import = AbortEntry | WriteEntry | FlushEntry | SysPingEntry

  /** `__box_boxN_importjumptable`: abort first, then the shared write and
      flush shims, then the environment's `sys_ping`. */
  const ImportTable: seq<Import> := [AbortEntry, WriteEntry, FlushEntry, SysPingEntry]

  /** The slot of each import; the table and this numbering agree. */
  function ImportSlot(i: Import): (slot: nat)
    ensures slot < |ImportTable| && ImportTable[slot] == i
  {
    match i
    case AbortEntry => 0
    case WriteEntry => 1
    case FlushEntry => 2
    case SysPingEntry => 3
  }

  //// export table ABI ////

  const ExportCount: nat := 5
  type Slot = s: nat | s < ExportCount

  const SlotPostInit: Slot := 0
  const SlotHello: Slot := 1
  const SlotPing: Slot := 2
  const SlotPingAbort: Slot := 3
  const SlotPingImport: Slot := 4

  /** The arguments a gate passes through the export table: postinit gets
      the import table, `hello` nothing, the ping exports one int32. */
  datatype Args = Imports(table: seq<Import>) | NoArgs | Int32Arg(a: int32)

  /** What the box's code at each export slot does when called. */
  type ExportTable = (Slot, Args) -> Outcome

  /** Box code the runtime caused to run, in order. */
  datatype Event = RanLoad | RanExport(slot: Slot, args: Args)

  //// C library and glue conventions ////

  /** ISO C 7.13.2.1: after `longjmp(buf, v)` the matching `setjmp` returns
      `v`, except that a `v` of 0 is delivered as 1. */
  function SetjmpValue(v: int): (r: int)
    ensures r != 0
    ensures v != 0 ==> r == v
    ensures v == 0 ==> r == 1
  {
    if v == 0 then 1 else v
  }

  /** `__wrap_exit` and `_exit`: the exit status handed to the abort path is
      never positive and has the magnitude of the status passed to exit. */
  function ExitCode(code: int): (r: int)
    ensures r <= 0
    ensures r == code || r == -code
  {
    if code > 0 then -code else code
  }

  /** The code `__wrap_abort` and `__assert_func` abort with. */
  const AssertAbortCode: int := -1

  /** `__box_abort`: with no other course of action it spins forever. */
  function BoxAbort(err: int): (t: Transfer)
    ensures t.Halt? && t.code == err
  {
    Halt(err)
  }

  /** The value a gate hands back to its caller for an outcome of the box's
      code: a normal result unchanged, an abort code as setjmp returns it. */
  function Returned(o: Outcome): (r: int)
    ensures o.Normal? ==> r == o.value
    ensures o.Aborted? ==> r != 0 && (o.code != 0 ==> r == o.code)
  {
    match o
    case Normal(v) => v
    case Aborted(code) => SetjmpValue(code)
  }

  /** The state one box keeps in the superbox: `__box_boxN_initialized`,
      `__box_boxN_jmpbuf`, its loader and its export jump table. */
  class Box {
    const name: string
    /** What `__box_boxN_load` returns (the default loader returns 0). */
    const loadResult: int
    const exports: ExportTable

    var initialized: bool
    var checkpoint: Option<Frame>
    /** Frames below this number may be in use; a gate takes the next one. */
    var nextFrame: nat
    ghost var trace: seq<Event>

    /** The installed checkpoint, if any, belongs to a frame already taken. */
    ghost predicate Valid()
      reads this
    {
      checkpoint.Some? ==> checkpoint.value < nextFrame
    }

    constructor (name: string, loadResult: int, exports: ExportTable)
      ensures Valid()
      ensures this.name == name && this.loadResult == loadResult && this.exports == exports
      ensures !initialized && checkpoint == None && trace == []
    {
      this.name := name;
      this.loadResult := loadResult;
      this.exports := exports;
      initialized := false;
      checkpoint := None;
      nextFrame := 0;
      trace := [];
    }

    /** The code `init` ends with when the box is not yet initialised: the
        loader's error, else what the postinit gate returns. */
    ghost function InitCode(): int {
      if loadResult != 0 then loadResult
      else Returned(exports(SlotPostInit, Imports(ImportTable)))
    }

    /** The box code `init` runs when the box is not yet initialised. */
    ghost function InitEvents(): seq<Event> {
      if loadResult != 0 then [RanLoad]
      else [RanLoad, RanExport(SlotPostInit, Imports(ImportTable))]
    }

    /** `__box_boxN_load` */
    method Load() returns (err: int)
      modifies this`trace
      ensures err == loadResult
      ensures trace == old(trace) + [RanLoad]
    {
      trace := trace + [RanLoad];
      err := loadResult;
    }

    /** First half of a gate's crossing: keep the caller's checkpoint in a
        local and install a fresh one for this call. */
    method Install(slot: Slot, args: Args) returns (saved: Option<Frame>, frame: Frame)
      requires Valid()
      modifies this`checkpoint, this`nextFrame, this`trace
      ensures Valid()
      ensures saved == old(checkpoint) && checkpoint == Some(frame)
      ensures saved.Some? ==> saved.value < frame
      ensures old(nextFrame) <= frame < nextFrame
      ensures trace == old(trace) + [RanExport(slot, args)]
    {
      saved := checkpoint;
      frame := nextFrame;
      nextFrame := nextFrame + 1;
      checkpoint := Some(frame);
      trace := trace + [RanExport(slot, args)];
    }

    /** Second half of a gate's crossing, once the box's code has ended with
        `outcome`: an abort clears the flag and long-jumps back here; either
        way the caller's checkpoint is restored. */
    method Leave(saved: Option<Frame>, frame: Frame, outcome: Outcome) returns (r: int)
      requires Valid() && checkpoint == Some(frame)
      requires saved.Some? ==> saved.value < frame
      modifies this`checkpoint, this`initialized
      ensures Valid()
      ensures checkpoint == saved
      ensures r == Returned(outcome)
      ensures initialized == (old(initialized) && outcome.Normal?)
    {
      match outcome {
        case Normal(v) =>
          checkpoint := saved;
          r := v;
        case Aborted(code) =>
          var t := Abort(code);
          assert t == LongJump(frame, SetjmpValue(code));
          checkpoint := saved;
          r := t.value;
      }
    }

    /** `__box_boxN_postinit`: the gate for export slot 0, which runs without
        an initialisation check and hands the box its import table. */
    method PostInit(imports: seq<Import>) returns (err: int)
      requires Valid()
      modifies this`checkpoint, this`nextFrame, this`trace, this`initialized
      ensures Valid()
      ensures checkpoint == old(checkpoint) && nextFrame > old(nextFrame)
      ensures trace == old(trace) + [RanExport(SlotPostInit, Imports(imports))]
      ensures err == Returned(exports(SlotPostInit, Imports(imports)))
      ensures initialized == (old(initialized) && exports(SlotPostInit, Imports(imports)).Normal?)
    {
      var saved, frame := Install(SlotPostInit, Imports(imports));
      err := Leave(saved, frame, exports(SlotPostInit, Imports(imports)));
    }

    /** `__box_boxN_init`: idempotent; otherwise load, then postinit, and
        only when both succeed mark the box initialised. */
    method Init() returns (err: int)
      requires Valid()
      modifies this`checkpoint, this`nextFrame, this`trace, this`initialized
      ensures Valid() && checkpoint == old(checkpoint) && nextFrame >= old(nextFrame)
      ensures old(initialized) ==> err == 0 && initialized && trace == old(trace)
      ensures !old(initialized) ==>
        err == InitCode() && initialized == (err == 0) && trace == old(trace) + InitEvents()
    {
      if initialized {
        return 0;
      }
      err := Load();
      if err != 0 {
        return;
      }
      err := PostInit(ImportTable);
      if err != 0 {
        return;
      }
      initialized := true;
      err := 0;
    }

    /** `__box_boxN_clobber`: mark the box as needing re-initialisation;
        runs no box code and touches nothing else. */
    method Clobber() returns (err: int)
      modifies this`initialized
      ensures err == 0 && !initialized
    {
      initialized := false;
      err := 0;
    }

    /** `__box_boxN_abort`, the box's import slot 0: clear the flag, then
        long-jump to the installed checkpoint, or escalate to the spinning
        `__box_abort` when none is installed. */
    method Abort(code: int) returns (t: Transfer)
      modifies this`initialized
      ensures !initialized
      ensures checkpoint.Some? ==> t == LongJump(checkpoint.value, SetjmpValue(code))
      ensures checkpoint.None? ==> t == Halt(code)
    {
      initialized := false;
      if checkpoint.Some? {
        t := LongJump(checkpoint.value, SetjmpValue(code));
      } else {
        t := BoxAbort(code);
      }
    }

    /** The steps of every export gate before the raw call: initialise on
        demand (returning init's error untouched), then install a fresh
        checkpoint. */
    method Enter(slot: Slot, args: Args) returns (err: int, saved: Option<Frame>, frame: Frame)
      requires Valid()
      modifies this`checkpoint, this`nextFrame, this`trace, this`initialized
      ensures Valid() && saved == old(checkpoint)
      ensures err == 0 <==> old(initialized) || InitCode() == 0
      ensures err != 0 ==>
        err == InitCode() && !initialized && checkpoint == old(checkpoint)
        && trace == old(trace) + InitEvents()
      ensures err == 0 ==>
        initialized && checkpoint == Some(frame)
        && (saved.Some? ==> saved.value < frame) && old(nextFrame) <= frame
        && trace == old(trace) + (if old(initialized) then [] else InitEvents()) + [RanExport(slot, args)]
    {
      saved, frame := checkpoint, 0;
      if !initialized {
        err := Init();
        if err != 0 {
          return;
        }
      }
      err := 0;
      saved, frame := Install(slot, args);
    }

    /** What a completed export gate promises, from its entry state to its
        exit state, for the call of `slot` with `args` that returned `r`. */
    twostate predicate GateDone(slot: Slot, args: Args, r: int)
      reads this
    {
      && checkpoint == old(checkpoint)
      && if !old(initialized) && InitCode() != 0 then
           r == InitCode() && !initialized && trace == old(trace) + InitEvents()
         else
           && trace == old(trace) + (if old(initialized) then [] else InitEvents()) + [RanExport(slot, args)]
           && r == Returned(exports(slot, args))
           && initialized == exports(slot, args).Normal?
    }

    /** The export gate shared by `boxN_hello`, `boxN_ping`, `boxN_ping_abort`
        and `boxN_ping_import`, which differ only in their slot. */
    method Call(slot: Slot, args: Args) returns (r: int)
      requires Valid()
      modifies this`checkpoint, this`nextFrame, this`trace, this`initialized
      ensures Valid() && GateDone(slot, args, r)
    {
      var saved, frame;
      r, saved, frame := Enter(slot, args);
      if r != 0 {
        return;
      }
      r := Leave(saved, frame, exports(slot, args));
    }

    /** `boxN_hello` (export slot 1) */
    method Hello() returns (r: int)
      requires Valid()
      modifies this`checkpoint, this`nextFrame, this`trace, this`initialized
      ensures Valid() && GateDone(SlotHello, NoArgs, r)
    {
      r := Call(SlotHello, NoArgs);
    }

    /** `boxN_ping` (export slot 2) */
    method Ping(a: int32) returns (r: int)
      requires Valid()
      modifies this`checkpoint, this`nextFrame, this`trace, this`initialized
      ensures Valid() && GateDone(SlotPing, Int32Arg(a), r)
    {
      r := Call(SlotPing, Int32Arg(a));
    }

    /** `boxN_ping_abort` (export slot 3) */
    method PingAbort(a: int32) returns (r: int)
      requires Valid()
      modifies this`checkpoint, this`nextFrame, this`trace, this`initialized
      ensures Valid() && GateDone(SlotPingAbort, Int32Arg(a), r)
    {
      r := Call(SlotPingAbort, Int32Arg(a));
    }

    /** `boxN_ping_import` (export slot 4) */
    method PingImport(a: int32) returns (r: int)
      requires Valid()
      modifies this`checkpoint, this`nextFrame, this`trace, this`initialized
      ensures Valid() && GateDone(SlotPingImport, Int32Arg(a), r)
    {
      r := Call(SlotPingImport, Int32Arg(a));
    }

    /** `__box_boxN_push`: this profile has no data stack, so every
        allocation fails with NULL. */
    method Push(size: uint32) returns (p: Option<nat>)
      ensures p == None
    {
      p := None;
    }

    /** `__box_boxN_pop`: `assert(false)`, whose failure handler aborts the
        whole process with -1. */
    method Pop(size: uint32) returns (t: Transfer)
      ensures t == Halt(AssertAbortCode)
    {
      t := BoxAbort(AssertAbortCode);
    }
  }
}
