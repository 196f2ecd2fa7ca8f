/** The superbox of the jumptable-hello example with its three boxes, a
    cross-box call, and the lifecycle scenarios the runtime is built for. */
module BoxSystem {
  import opened Common
  import opened BoxRuntime
  import Box2Payload

  /** What the default `__box_boxN_load` returns: the image is resident. */
  const DefaultLoad: int := 0

  class System {
    const box1: Box
    const box2: Box
    const box3: Box

    /** Three distinct boxes, each with its own flag and checkpoint slot. */
    ghost predicate Valid()
      reads this, box1, box2, box3
    {
      && box1 != box2 && box2 != box3 && box1 != box3
      && box1.Valid() && box2.Valid() && box3.Valid()
    }

    /** The state at reset: every box unloaded, no checkpoint installed.
        box1 and box3 run code that is not part of this model, so their
        export tables are parameters; box2 runs the wasm3-hello payload. */
    constructor (exports1: ExportTable, exports3: ExportTable,
                 sysPing: int32 -> int32, postInit2: Outcome)
      ensures Valid() && fresh(box1) && fresh(box2) && fresh(box3)
      ensures box1.name == "box1" && box2.name == "box2" && box3.name == "box3"
      ensures box1.exports == exports1 && box3.exports == exports3
      ensures box2.exports == Box2Payload.Exports(sysPing, postInit2)
      ensures box1.loadResult == 0 && box2.loadResult == 0 && box3.loadResult == 0
      ensures !box1.initialized && !box2.initialized && !box3.initialized
      ensures box1.checkpoint == None && box2.checkpoint == None && box3.checkpoint == None
    {
      box1 := new Box("box1", DefaultLoad, exports1);
      box2 := new Box("box2", DefaultLoad, Box2Payload.Exports(sysPing, postInit2));
      box3 := new Box("box3", DefaultLoad, exports3);
    }
  }

  /** A call of box `a`'s export `slotA` whose code crosses into box `b`
      through b's gate for `slotB` and returns what that gate returned.
      Whatever b does -- including aborting -- a's gate sees an ordinary
      return: a stays initialised and gets its checkpoint back, and b's
      gate behaves exactly as when called from outside.  A box's export
      table is a fixed function of (slot, args), which cannot call another
      box, so the code of a's export is written out here and
      `a.exports(slotA, argsA)` plays no part in it. */
  method CallThrough(a: Box, slotA: Slot, argsA: Args, b: Box, slotB: Slot, argsB: Args)
    returns (r: int)
    requires a != b && a.Valid() && b.Valid()
    modifies a`checkpoint, a`nextFrame, a`trace, a`initialized
    modifies b`checkpoint, b`nextFrame, b`trace, b`initialized
    ensures a.Valid() && b.Valid()
    ensures a.checkpoint == old(a.checkpoint)
    ensures !old(a.initialized) && a.InitCode() != 0 ==>
      r == a.InitCode() && !a.initialized && unchanged(b)
    ensures old(a.initialized) || a.InitCode() == 0 ==>
      && a.initialized
      && a.trace == old(a.trace) + (if old(a.initialized) then [] else a.InitEvents())
                    + [RanExport(slotA, argsA)]
      && b.GateDone(slotB, argsB, r)
  {
    var err, saved, frame := a.Enter(slotA, argsA);
    if err != 0 {
      return err;
    }
    var v := b.Call(slotB, argsB);
    r := a.Leave(saved, frame, Normal(v));
  }

  /** Calling init twice in a row runs load and postinit once. */
  method InitTwice(box: Box) returns (e1: int, e2: int)
    requires box.Valid() && !box.initialized && box.InitCode() == 0
    modifies box`checkpoint, box`nextFrame, box`trace, box`initialized
    ensures e1 == 0 && e2 == 0 && box.initialized
    ensures box.trace == old(box.trace) + box.InitEvents()
  {
    e1 := box.Init();
    e2 := box.Init();
  }

  /** Clobbering an initialised box unloads it without running box code, and
      the next call re-runs load and postinit before the export. */
  method ClobberThenCall(box: Box, slot: Slot, args: Args) returns (r: int)
    requires box.Valid() && box.initialized && box.InitCode() == 0
    modifies box`checkpoint, box`nextFrame, box`trace, box`initialized
    ensures box.trace == old(box.trace) + box.InitEvents() + [RanExport(slot, args)]
    ensures r == Returned(box.exports(slot, args))
  {
    var err := box.Clobber();
    assert !box.initialized && box.trace == old(box.trace);
    r := box.Call(slot, args);
  }

  /** An abort raised while no gate of the box is active halts the process
      with the abort code, and the box is left unloaded. */
  method AbortOutsideAnyCall(box: Box, code: int) returns (t: Transfer)
    requires box.checkpoint == None
    modifies box`initialized
    ensures t == Halt(code) && !box.initialized
  {
    t := box.Abort(code);
  }

  /** box2 of the wasm3-hello example, from reset: ping(5) initialises the
      box and returns 7; ping_abort(0) exits with -2, which the caller sees
      as -2 with the box unloaded and box1 and box3 untouched; the next
      ping(5) runs load and postinit again and returns 7. */
  method Box2Scenario(sys: System, sysPing: int32 -> int32) returns (first: int, aborted: int, again: int)
    requires sys.Valid() && !sys.box2.initialized
    requires sys.box2.loadResult == 0
    requires sys.box2.exports == Box2Payload.Exports(sysPing, Normal(0))
    modifies sys.box2`checkpoint, sys.box2`nextFrame, sys.box2`trace, sys.box2`initialized
    ensures first == 7 && aborted == -2 && again == 7
    ensures sys.Valid() && sys.box2.initialized
    ensures sys.box2.checkpoint == old(sys.box2.checkpoint)
    ensures unchanged(sys.box1) && unchanged(sys.box3)
    ensures sys.box2.trace == old(sys.box2.trace)
      + sys.box2.InitEvents() + [RanExport(SlotPing, Int32Arg(5))]
      + [RanExport(SlotPingAbort, Int32Arg(0))]
      + sys.box2.InitEvents() + [RanExport(SlotPing, Int32Arg(5))]
  {
    var box := sys.box2;
    var init := [RanLoad, RanExport(SlotPostInit, Imports(ImportTable))];
    assert box.InitEvents() == init && box.InitCode() == 0;

    first := box.Ping(5);
    assert box.initialized;
    ghost var t1 := box.trace;
    assert t1 == old(box.trace) + init + [RanExport(SlotPing, Int32Arg(5))];

    aborted := box.PingAbort(0);
    assert !box.initialized;
    ghost var t2 := box.trace;
    assert t2 == t1 + [RanExport(SlotPingAbort, Int32Arg(0))];

    again := box.Ping(5);
    assert box.trace == t2 + init + [RanExport(SlotPing, Int32Arg(5))];
  }

  /** A box whose code calls `exit(0)` is seen by its caller as returning 1:
      the exit status 0 reaches `longjmp` as 0, which setjmp turns into 1. */
  method ExitZeroSeenAsOne(box: Box, slot: Slot, args: Args) returns (r: int)
    requires box.Valid() && box.initialized
    requires box.exports(slot, args) == Aborted(ExitCode(0))
    modifies box`checkpoint, box`nextFrame, box`trace, box`initialized
    ensures r == 1 && !box.initialized
  {
    r := box.Call(slot, args);
  }
}
