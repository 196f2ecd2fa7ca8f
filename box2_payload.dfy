/** The exports of box2 in the wasm3-hello example, used as a concrete
    export table behind the gates of module BoxRuntime. */
module Box2Payload {
  import opened Common
  import opened BoxRuntime

  const N: int32 := 2

  /** `box2_ping`: `a + n`; signed overflow is undefined in C, and the model
      wraps as the target's adder does. */
  function Ping(a: int32): (r: int32)
    ensures a <= MaxInt32 - N ==> r == a + N
    ensures a > MaxInt32 - N ==> r == a + N - TwoTo32
  {
    Wrap32(a + N)
  }

  /** `box2_ping_import`: the environment's `sys_ping` of `a`, plus `n`. */
  function PingImport(a: int32, sysPing: int32 -> int32): (r: int32)
    ensures sysPing(a) <= MaxInt32 - N ==> r == sysPing(a) + N
  {
    Wrap32(sysPing(a) + N)
  }

  /** `box2_ping_abort`: 0 makes the box exit with `-n`, which its exit glue
      turns into a call of its abort import; any other value returns `n`. */
  function PingAbort(a: int32): (o: Outcome)
    ensures o.Aborted? <==> a == 0
    ensures o.Aborted? ==> o.code == -2
    ensures o.Normal? ==> o.value == 2
  {
    if a == 0 then Aborted(ExitCode(-N)) else Normal(N)
  }

  /** `box2_hello`: prints a greeting and returns 0. */
  function Hello(): (o: Outcome)
    ensures o == Normal(0)
  {
    Normal(0)
  }

  /** The int32 argument of a ping export (the gates always pass one). */
  function ArgOf(args: Args): int32 {
    if args.Int32Arg? then args.a else 0
  }

  /** What box2's code does when called through export `slot`; its postinit
      belongs to the box's own generated glue, so what that does is a
      parameter here. */
  function Export(sysPing: int32 -> int32, postInit: Outcome, slot: Slot, args: Args): (o: Outcome)
    ensures slot == SlotPostInit ==> o == postInit
    ensures slot == SlotHello ==> o == Normal(0)
    ensures slot == SlotPing ==> o == Normal(Ping(ArgOf(args)))
    ensures slot == SlotPingAbort ==> o == PingAbort(ArgOf(args))
    ensures slot == SlotPingImport ==> o == Normal(PingImport(ArgOf(args), sysPing))
  {
    if slot == SlotPostInit then postInit
    else if slot == SlotHello then Hello()
    else if slot == SlotPing then Normal(Ping(ArgOf(args)))
    else if slot == SlotPingAbort then PingAbort(ArgOf(args))
    else Normal(PingImport(ArgOf(args), sysPing))
  }

  /** box2's export jump table. */
  function Exports(sysPing: int32 -> int32, postInit: Outcome): ExportTable {
    (slot: Slot, args: Args) => Export(sysPing, postInit, slot, args)
  }
}
