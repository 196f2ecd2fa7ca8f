# bento-linker box runtime and outputers, in Dafny

This project models the core of bento-linker, a tool that generates the glue
between "bento boxes" (isolated code images) and the superbox that loads and
calls them. The model covers five parts:

- **Box runtime** (`box_runtime.dfy`, `box_system.dfy`, `heap.dfy`). This is
  the generated C runtime of the jumptable-hello superbox, stamped out once per
  box.
  - Each box has an `initialized` flag and a `jmp_buf *` checkpoint slot.
  - `init` is idempotent and runs load, then postinit. `clobber` clears the
    flag.
  - Every export gate initialises the box on demand, saves the caller's
    checkpoint, installs its own, calls through the export table and restores
    the saved checkpoint.
  - The abort import clears the flag and long-jumps to the installed checkpoint.
    With none installed it escalates to the spinning `__box_abort`.
  - `push` and `pop` are stubs.
  - `_sbrk` is a bump allocator.
  - setjmp/longjmp are values: a checkpoint is the identity of a gate's jmp_buf
    (`Frame`), and box code ends in an `Outcome` (`Normal(v)` or `Aborted(code)`).
  - Section 7.13.2.1 of ISO/IEC 9899 says a `longjmp` with 0 makes `setjmp`
    return 1. The model keeps that rule, so `exit(0)` inside a box reaches the
    gate's caller as 1.
- **box2's payload** (`box2_payload.dfy`). These are the exports of the
  wasm3-hello example's box2, used as a concrete export table behind the
  gates.
- **`__box_cbprintf`** (`printf.dfy`). This is the superbox's minimal printf.
  - The text between conversions is copied through one write callback.
  - Each conversion is parsed (flags, width, precision, `*`) and rendered with
    its padding.
  - The variadic arguments are a list of values, and the callback is a sink
    that appends what it is given.
- **C header/source outputer** (`c_output.dfy`, `lex_order.dfy`). This is
  `bento/outputs/c.py`, which covers:
  - the C type of a primitive (`repr_arg`);
  - function declarations (`repr_fn`, `repr_fnptr`);
  - the declarations of the prologue (imports, exports, per-sub-box hooks);
  - the quoted, de-duplicated, sorted `#include` list.
- **Partial linker-script outputer** (`ld_output.dfy`, `sorting.dfy`). This is
  `bento/outputs/ld.py`, which covers:
  - memory modes as sorted letters;
  - the MEMORY block in address order, without memories that have no mode;
  - the SECTIONS block, with one group per memory in address order and a misc
    group for the sections no memory claims.
- **RAM block device** (`block_device.dfy`). This is the armv7m-mpu-littlefs
  example's byte array with bounds-checked read and program, and erase-all.

Python list-building code is modelled as functions over sequences, with
methods whose loops are proved against them. The C code that changes state in
place is modelled as classes with `modifies` frames:

- the box state;
- the heap break;
- the output sink;
- the device's `array<byte>`.

## Model

| member | source | states |
|---|---|---|
| BoxRuntime.ImportSlot | examples/jumptable-hello/bb.c:1026-1031 | the abort, write, flush and sys_ping imports sit at slots 0 to 3 of the import table, and the table holds each import at its slot |
| BoxRuntime.SetjmpValue | examples/jumptable-hello/bb.c:1011-1014 | a longjmp code of 0 reaches setjmp as 1 and any other code as itself, so a gate never sees 0 from an abort |
| BoxRuntime.ExitCode | examples/jumptable-hello/bb.c:231-233 | the status passed on to the abort path is never positive and has the magnitude of the exit status (the same rule as `_exit` at lines 244-246) |
| BoxRuntime.BoxAbort | examples/jumptable-hello/bb.c:218-222 | `__box_abort` never returns: control halts with the code it was given |
| BoxRuntime.Returned | examples/jumptable-hello/bb.c:953-961 | a normal result reaches the caller unchanged; an abort code reaches it as a nonzero value, unchanged unless it was 0 |
| BoxRuntime.Box.constructor | examples/jumptable-hello/bb.c:898-899 | a box starts uninitialised with no checkpoint installed |
| BoxRuntime.Box.Load | examples/jumptable-hello/bb.c:892-895 | returns the loader's result and records that the loader ran |
| BoxRuntime.Box.Install | examples/jumptable-hello/bb.c:950-952 | keeps the caller's checkpoint in a local, installs a fresh frame above it, and records the export call |
| BoxRuntime.Box.Leave | examples/jumptable-hello/bb.c:953-961 | restores the caller's checkpoint whether the export returned or aborted; the gate's result is `Returned(outcome)`; the flag survives only a normal return |
| BoxRuntime.Box.PostInit | examples/jumptable-hello/bb.c:905-918 | calls export slot 0 with the import table without an initialisation check; returns what the outcome gives and leaves the checkpoint as it was |
| BoxRuntime.Box.Init | examples/jumptable-hello/bb.c:1035-1055 | on an initialised box returns 0 and runs no box code; otherwise runs load, then postinit only if load succeeded, returns the first nonzero code or 0, and sets the flag exactly when the result is 0; the checkpoint is unchanged |
| BoxRuntime.Box.Clobber | examples/jumptable-hello/bb.c:1057-1060 | returns 0 and clears the flag; its frame allows no other change, so the checkpoint and the trace stay as they were |
| BoxRuntime.Box.Abort | examples/jumptable-hello/bb.c:1011-1018 | clears the flag, then long-jumps to the installed checkpoint with `SetjmpValue(code)`, or halts with `code` when none is installed |
| BoxRuntime.Box.Enter | examples/jumptable-hello/bb.c:942-952 | when on-demand init fails, returns init's error with the box uninitialised, the checkpoint untouched and no export run; otherwise the box is initialised and a fresh checkpoint is installed |
| BoxRuntime.Box.Call | examples/jumptable-hello/bb.c:942-962 | the gate restores the checkpoint; it passes an init failure through without calling the export; otherwise it returns `Returned` of the export's outcome, and the box stays initialised exactly when the export returned normally |
| BoxRuntime.Box.Hello | examples/jumptable-hello/bb.c:920-940 | the gate contract for export slot 1 with no arguments |
| BoxRuntime.Box.Ping | examples/jumptable-hello/bb.c:942-962 | the gate contract for export slot 2 with an int32 argument |
| BoxRuntime.Box.PingAbort | examples/jumptable-hello/bb.c:964-984 | the gate contract for export slot 3 |
| BoxRuntime.Box.PingImport | examples/jumptable-hello/bb.c:986-1006 | the gate contract for export slot 4 |
| BoxRuntime.Box.Push | examples/jumptable-hello/bb.c:1062-1064 | returns NULL for every size |
| BoxRuntime.Box.Pop | examples/jumptable-hello/bb.c:1066-1068 | never returns: the failed assertion halts the process with -1 |
| Box2Payload.Ping | examples/wasm3-hello/box2/main.c:7-9 | returns a + 2, wrapping past INT32_MAX |
| Box2Payload.PingImport | examples/wasm3-hello/box2/main.c:11-13 | returns sys_ping(a) + 2 when that does not overflow |
| Box2Payload.PingAbort | examples/wasm3-hello/box2/main.c:15-22 | aborts exactly when a is 0, with code -2 (exit(-2) through the exit glue); otherwise returns 2 |
| Box2Payload.Hello | examples/wasm3-hello/box2/main.c:24-27 | returns 0 |
| Box2Payload.Export | examples/wasm3-hello/box2/main.c:5-27 | slots 1 to 4 of box2's export table are hello, ping, ping_abort and ping_import with their arguments, and slot 0 is the glue's postinit |
| BoxSystem.System.constructor | examples/jumptable-hello/bb.c:898-899 | three distinct boxes, each with its own flag and checkpoint, all uninitialised with no checkpoint; box2 runs the wasm3-hello payload |
| BoxSystem.CallThrough | examples/jumptable-hello/bb.c:1191-1197 | when box a's code calls box b's gate, a abort inside b clears only b's flag: a stays initialised and gets its checkpoint back, and b's gate behaves as when called from outside |
| BoxSystem.InitTwice | examples/jumptable-hello/bb.c:1035-1039 | a second init returns 0 and runs neither load nor postinit again |
| BoxSystem.ClobberThenCall | examples/jumptable-hello/bb.c:1057-1060 | after clobber, the next gate call runs load and postinit again before the export and returns the export's result |
| BoxSystem.AbortOutsideAnyCall | examples/jumptable-hello/bb.c:1013-1017 | an abort with no checkpoint installed halts with the abort code and leaves the box uninitialised |
| BoxSystem.Box2Scenario | examples/wasm3-hello/box2/main.c:15-18 | from reset, ping(5) returns 7; ping_abort(0) returns -2 and unloads box2; the next ping(5) re-runs load and postinit and returns 7; box1 and box3 are untouched |
| BoxSystem.ExitZeroSeenAsOne | examples/jumptable-hello/bb.c:1011-1014 | box code that calls exit(0) is seen by the gate's caller as returning 1, with the box unloaded |
| Heap.BumpHeap.constructor | examples/jumptable-hello/bb.c:196-197 | the break starts unset over the linker's region |
| Heap.BumpHeap.Sbrk | examples/jumptable-hello/bb.c:201-213 | sets the break lazily to the heap start; fails with (void*)-1 and leaves the break where it was when the move would pass the heap end; otherwise returns the old break and moves it by diff |
| Heap.TwoAllocations | examples/jumptable-hello/bb.c:206-212 | two successful growths from a fresh heap hand out adjacent blocks, in order |
| Printf.Digits | examples/jumptable-hello/bb.c:360-371 | the numeral of v has exactly as many digits as the C size loop counts, at least one, and no leading zero |
| Printf.ValueOfDigits | examples/jumptable-hello/bb.c:451-464 | reading the numeral of v back gives v |
| Printf.DigitsOfValue | examples/jumptable-hello/bb.c:451-464 | every canonical numeral is the numeral of the number it denotes (the other direction of the round trip) |
| Printf.PositionsAreDigits | examples/jumptable-hello/bb.c:426-464 | taking digit i as v / b^i % b for i from size-1 down to 0, as both digit loops do, writes the numeral of v |
| Printf.SkipLen | examples/jumptable-hello/bb.c:262 | the copied run contains neither '%' nor the terminator and ends at one of them |
| Printf.StrSize | examples/jumptable-hello/bb.c:336-339 | the `%s` length stops at the terminator, or at the precision when one is given, and never passes either |
| Printf.ClassifyAsWritten | examples/jumptable-hello/bb.c:376-383 | the parser's last branch takes the terminating NUL as a pointer-width hex conversion |
| Printf.Classify | examples/jumptable-hello/bb.c:289-396 | the corrected chain: only the terminator ends a conversion unfinished |
| Printf.Finish | examples/jumptable-hello/bb.c:316-395 | every conversion's size is the length of what its body writes |
| Printf.Parse | examples/jumptable-hello/bb.c:289-400 | a finished conversion moves the format at least two characters on, uses at least the arguments before it, and, in the corrected parser, stays inside the format |
| Printf.TrailingPercentOverruns | examples/jumptable-hello/bb.c:376-400 | with a trailing '%' the parser as written reads the NUL as a conversion, takes an argument that was never passed, and resumes one past the terminator; the corrected parser stops |
| Printf.RenderLength | examples/jumptable-hello/bb.c:403-476 | a conversion writes exactly `size` body characters, padded up to the width, and a width no larger than the size adds no padding |
| Printf.PrintOne | examples/jumptable-hello/bb.c:399-400 | a format made of one conversion prints exactly that conversion's rendering |
| Printf.PrintSingle | examples/jumptable-hello/bb.c:316-395 | `%` followed by a conversion character prints that conversion, built with no flags from the first argument |
| Printf.PrintPercent | examples/jumptable-hello/bb.c:316-321 | `%%` prints a single '%' |
| Printf.PrintSigned | examples/jumptable-hello/bb.c:342-358 | `%d` prints the signed decimal numeral of the argument as an int32, INT32_MIN included, and that numeral reads back as the value |
| Printf.SignedRoundTrip | examples/jumptable-hello/bb.c:437-464 | a signed decimal numeral reads back as the number it was made from |
| Printf.RenderSigned | examples/jumptable-hello/bb.c:437-464 | a `%d` conversion with no flags renders as the signed numeral of the int32 value |
| Printf.WrapSign | examples/jumptable-hello/bb.c:345-350 | a word below 2^31 is itself as an int32; from 2^31 on it is negative, and negating it stays within uint32 |
| Printf.SignedBody | examples/jumptable-hello/bb.c:440-449 | the body of a negative `%d` is '-' followed by the numeral of the magnitude |
| Printf.PrintUnsigned | examples/jumptable-hello/bb.c:360-371 | `%u` prints the decimal numeral of the argument, which reads back as the argument |
| Printf.RenderUnsigned | examples/jumptable-hello/bb.c:437-464 | a `%u` conversion with no flags renders as the decimal numeral |
| Printf.PrintHex | examples/jumptable-hello/bb.c:384-395 | `%x` prints the lower-case hexadecimal numeral of the argument, which reads back as the argument |
| Printf.RenderHex | examples/jumptable-hello/bb.c:426-436 | a `%x` conversion with no flags renders as the hexadecimal numeral |
| Printf.PrintPointer | examples/jumptable-hello/bb.c:376-395 | `%p`, and any other two-character conversion whose character the parser's last branch takes as a pointer (anything but the known conversions, modifiers, ignored characters, 'x' and 'X'), prints the hexadecimal numeral zero-filled to exactly eight characters |
| Printf.RenderPointer | examples/jumptable-hello/bb.c:379-395 | a pointer conversion renders as zero fill followed by the hex numeral, which has at most eight digits |
| Printf.DigitsFit | examples/jumptable-hello/bb.c:389-391 | a 32-bit word has at most eight hex digits |
| Printf.PrintString | examples/jumptable-hello/bb.c:330-340 | `%s` prints the whole string argument |
| Printf.PrintStringPrecision | examples/jumptable-hello/bb.c:337 | `%.*s` prints at most n characters of the string, and all of it when n is 0 |
| Printf.RenderPadded | examples/jumptable-hello/bb.c:403-476 | an unsigned conversion pads its numeral up to the width: behind with spaces when left-justified, otherwise in front with zeros or spaces |
| Printf.PrintWidth | examples/jumptable-hello/bb.c:300-306 | `%*u` takes the width from the arguments and pads the numeral in front with spaces |
| Printf.PrintZeroWidth | examples/jumptable-hello/bb.c:294-298 | `%0*u` pads the numeral in front with zeros |
| Printf.PrintLeftWidth | examples/jumptable-hello/bb.c:467-476 | `%-*u` pads the numeral behind with spaces |
| Printf.Sink.Write | examples/jumptable-hello/bb.c:255-257 | the write callback appends the buffer and reports its full length |
| Printf.Strcspn | examples/jumptable-hello/bb.c:262 | the loop returns `SkipLen`, the run up to the next '%' or the terminator |
| Printf.CountLoop | examples/jumptable-hello/bb.c:365-367 | the `t /= b` loop counts the digits of the value |
| Printf.StrSizeLoop | examples/jumptable-hello/bb.c:336-339 | the `%s` size loop computes `StrSize` |
| Printf.ConvertString | examples/jumptable-hello/bb.c:330-340 | builds the `%s` conversion `Finish` specifies |
| Printf.ConvertSigned | examples/jumptable-hello/bb.c:342-358 | builds the `%d` conversion, one extra character for the sign, at least one digit |
| Printf.ConvertUnsigned | examples/jumptable-hello/bb.c:360-371 | builds the `%u` conversion |
| Printf.ConvertHex | examples/jumptable-hello/bb.c:376-395 | builds the hex conversion, forcing zero fill and width 8 unless the character is 'x' or 'X' |
| Printf.ParseModifier | examples/jumptable-hello/bb.c:290-375 | a digit, '*', '.', '-' or ignored character updates the flags and argument count exactly as the parser specification's next step does |
| Printf.ParseTerminal | examples/jumptable-hello/bb.c:316-395 | a conversion character ends the parse with the conversion `Parse` specifies |
| Printf.ParseConv | examples/jumptable-hello/bb.c:289-397 | the parser loop computes the corrected `Parse` from the '%' on |
| Printf.WritePad | examples/jumptable-hello/bb.c:403-412 | a padding loop writes `count` copies of the fill character, none when count is not positive |
| Printf.WriteHex | examples/jumptable-hello/bb.c:426-436 | writes hex digits size-1 down to 0, digit i being value / 16^i % 16 |
| Printf.DivideByTen | examples/jumptable-hello/bb.c:452-455 | dividing by ten i times is dividing by 10^i |
| Printf.WriteDecimal | examples/jumptable-hello/bb.c:451-464 | writes decimal digits size-1 down to 0, digit i being value / 10^i % 10 |
| Printf.EmitBody | examples/jumptable-hello/bb.c:414-465 | writes the conversion's body and reports its length |
| Printf.Emit | examples/jumptable-hello/bb.c:402-476 | writes the front padding, the body and the back padding, which make up `Render` |
| Printf.FormatRunToEnd | examples/jumptable-hello/bb.c:260-276 | from position p the printer copies the text up to the next '%' or the terminator; when that run reaches the end of the format, the output from p is exactly the rest of the format |
| Printf.ResumeAtEnd | examples/jumptable-hello/bb.c:273-400 | at the terminator the printer stops and writes nothing more; in the corrected parser a '%' right before the terminator also prints nothing and stops |
| Printf.ResumePercent | examples/jumptable-hello/bb.c:316-321 | wherever it stands, `%%` prints one '%' and printing goes on two characters later with no argument used |
| Printf.Printed | examples/jumptable-hello/bb.c:255-478 | a format with neither '%' nor an embedded NUL is printed unchanged |
| Printf.PrintedStopsAtTerminator | examples/jumptable-hello/bb.c:260-276 | a format whose first NUL comes before any '%' is printed exactly up to that NUL, and nothing after it |
| Printf.CopyText | examples/jumptable-hello/bb.c:262-271 | one write of the text before the next '%', skipped when the run is empty |
| Printf.ResumeRound | examples/jumptable-hello/bb.c:273-476 | from a '%' or the terminator, writes what the printer specification prints there and says where it goes on |
| Printf.PrintRound | examples/jumptable-hello/bb.c:260-477 | one round of the printer loop writes a prefix of the output, moves forward, and leaves exactly the rest of the output to print |
| Printf.CbPrintf | examples/jumptable-hello/bb.c:255-478 | writes exactly `Printed(format, args)` through the callback and returns its length |
| COutput.CType | bento/outputs/c.py:32-45 | the C type is never empty or a pointer; it starts with 'c' only as "char"; it is "void" only for a u8 pointer |
| COutput.CTypeIsTable | bento/outputs/c.py:32-45 | the conditional chain is the lookup table: byte pointers first, then the named primitives (bool, err32, err64, errsize, isize, usize, f32, f64) before the `err*`, `iN` and `uN` family rules, then "???" |
| COutput.ReprArgConst | bento/outputs/c.py:31 | the text starts with "const " exactly for const arguments |
| COutput.ReprArgTail | bento/outputs/c.py:46-48 | the name comes last; a '*' stands right before it exactly for pointers; with a name, a space separates it from the type |
| COutput.ReprArgNoSpace | bento/outputs/c.py:46 | without a name, const or space in the primitive, the text has no space |
| COutput.ReprArgNotVoid | bento/outputs/c.py:32 | no argument is written as a bare "void" |
| COutput.Params | bento/outputs/c.py:64-65 | parameter i is `repr_arg` of argument i under name i, for as many as `zip` pairs |
| COutput.JoinInOrder | bento/outputs/c.py:64-65 | the joined list holds each element at its offset, in order, with ", " after every element but the last |
| COutput.RetTypeVoid | bento/outputs/c.py:60-61 | the return type is "void " exactly when there are no return values |
| COutput.ParamListVoid | bento/outputs/c.py:64-67 | the parameter list is "void" exactly when there are no arguments |
| COutput.AttrTextSingle | bento/outputs/c.py:53 | an attribute starting with "__" is followed by a newline, any other by a space |
| COutput.ReprFnAttrHead | bento/outputs/c.py:55-68 | with only the noreturn attribute, the text is the attribute line followed by the signature |
| COutput.ReprFnNoReturn | bento/outputs/c.py:55-58 | the noreturn attribute leads the text exactly for noreturn functions whose name has no '*' |
| COutput.ReprFnPtrNoReturn | bento/outputs/c.py:71-74 | a function pointer never carries noreturn, and its text does not depend on the noreturn flag |
| COutput.HookDeclsLayout | bento/outputs/c.py:113-130 | one "box hooks" marker, then for each sub-box in order its init, clobber, push and pop declarations |
| COutput.NoHooksNoMarker | bento/outputs/c.py:113-114 | the hooks marker is written exactly when there are sub-boxes |
| COutput.OwnDeclsMembers | bento/outputs/c.py:82-84 | exactly the box's own links are declared, and nothing else |
| COutput.Quote | bento/outputs/c.py:141-142 | an include is kept when it starts with '"' or '<' and otherwise wrapped in double quotes |
| COutput.QuoteIdempotent | bento/outputs/c.py:141-142 | quoting twice is quoting once, and quoting leaves exactly the already-quoted names alone |
| COutput.QuotedSet | bento/outputs/c.py:138-143 | the set holds the quoted form of every include and nothing else |
| COutput.HOutput.constructor | bento/outputs/c.py:21-25 | a new outputer has no includes and no declarations |
| COutput.HOutput.BuildImports | bento/outputs/c.py:81-89 | appends the box's own imports, in order, under an imports marker written only before the first one |
| COutput.HOutput.BuildExports | bento/outputs/c.py:92-100 | appends the box's own exports, declared extern, under an exports marker written only before the first one |
| COutput.HOutput.BuildPrologue | bento/outputs/c.py:102-130 | appends the three standard includes, then the imports, the exports and the hook section |
| COutput.HOutput.BuildHooks | bento/outputs/c.py:113-130 | appends the hooks marker (only when there are sub-boxes) and the four hooks of each sub-box in order |
| COutput.HOutput.SortedIncludes | bento/outputs/c.py:138-145 | the include list is strictly ascending (each include once) and holds exactly the quoted includes |
| COutput.HOutput.InsertIncludes | bento/outputs/c.py:191-199 | the sorted, de-duplicated include lines are inserted as the first declaration |
| LexOrder.Irreflexive | bento/outputs/c.py:144 | no string sorts before itself in Python's string order |
| LexOrder.Transitive | bento/outputs/c.py:144 | Python's string order is transitive |
| LexOrder.Total | bento/outputs/c.py:144 | of two different strings, one sorts before the other |
| LexOrder.Asymmetric | bento/outputs/c.py:144 | two strings never each sort before the other |
| LexOrder.InsertUnique | bento/outputs/c.py:143 | adding to the set kept as an ascending list keeps it ascending and adds exactly the new element |
| Sorting.SortByCorrect | bento/outputs/ld.py:74 | `sorted` by key returns a permutation of its input in ascending key order |
| Sorting.SortByStable | bento/outputs/ld.py:74 | `sorted` is stable: the elements with any one key come out in the order they went in, so memories at the same address keep the order they were added in, in MEMORY and in the SECTIONS groups (ld.py:88) |
| Sorting.InsertKeeps | bento/outputs/ld.py:74 | inserting an element puts it in front of every element with the same key and leaves their order |
| LdOutput.ListedKeepsTies | bento/outputs/ld.py:74-81 | among memories at one address, MEMORY lists those with a mode in the order they were added |
| LdOutput.NormalizeModeCorrect | bento/outputs/ld.py:11 | the emitted mode has the same letters in ascending order, and is empty only for an empty mode |
| LdOutput.ModeOrderIrrelevant | bento/outputs/ld.py:11 | two modes with the same letters are emitted the same, and normalising is idempotent |
| LdOutput.ListedCorrect | bento/outputs/ld.py:74-81 | the MEMORY block lists memories in ascending address order, each memory with a mode as often as it was added, and none without a mode |
| LdOutput.RemainingIsFilter | bento/outputs/ld.py:93-105 | after some groups, the sections left are those placed in none of their memories, in their original order |
| LdOutput.GroupContents | bento/outputs/ld.py:93-105 | a memory's group holds every section placed in it, in original order, unless an earlier memory of the same name already took them |
| LdOutput.TargetedIffGroup | bento/outputs/ld.py:89-90 | some section targets the memory exactly when the filtered group is non-empty |
| LdOutput.GroupHeaderWhenTargeted | bento/outputs/ld.py:89-92 | a group header is written exactly when a remaining section targets the memory |
| LdOutput.GroupSections | bento/outputs/ld.py:94-102 | a group writes exactly the remaining sections that target its memory |
| LdOutput.GroupsPartition | bento/outputs/ld.py:88-105 | the groups and what they leave over together hold every section exactly once |
| LdOutput.SectionsBlockComplete | bento/outputs/ld.py:84-118 | the SECTIONS block writes every section exactly once |
| LdOutput.MiscIsUnplaced | bento/outputs/ld.py:106-116 | the misc group holds exactly the sections whose memory is none of the listed memories, in original order |
| LdOutput.PartialLD.constructor | bento/outputs/ld.py:28-41 | a new outputer holds its declarations, memories and sections, and nothing has been written |
| LdOutput.PartialLD.Build | bento/outputs/ld.py:60-118 | writes the banner, the declarations, the MEMORY block (only when there are memories) and the SECTIONS block (only when there are sections) |
| LdOutput.PartialLD.WriteDecls | bento/outputs/ld.py:64-70 | writes the declarations in order |
| LdOutput.PartialLD.WriteMemoryBlock | bento/outputs/ld.py:71-83 | writes the MEMORY block only when there are memories |
| LdOutput.PartialLD.WriteMemories | bento/outputs/ld.py:74-81 | writes the memories with a mode in address order, each with its normalised mode |
| LdOutput.PartialLD.WriteSectionsBlock | bento/outputs/ld.py:84-118 | writes the SECTIONS block only when there are sections: the groups, then the misc group |
| LdOutput.PartialLD.WriteGroups | bento/outputs/ld.py:88-105 | writes the group of every memory in address order and returns the sections left |
| LdOutput.PartialLD.WriteGroup | bento/outputs/ld.py:89-105 | writes one memory's header and sections, and keeps the others in order |
| LdOutput.PartialLD.WriteTargeted | bento/outputs/ld.py:93-105 | the inner loop writes the sections placed in the memory and rebuilds the list of the others |
| LdOutput.PartialLD.WriteMisc | bento/outputs/ld.py:107-116 | writes the misc header and the leftover sections, or nothing when there are none |
| BlockDevice.BlockCount | examples/armv7m-mpu-littlefs/bd.c:16-18 | the block count times the block size is the device size |
| BlockDevice.BlockSize | examples/armv7m-mpu-littlefs/bd.c:20-22 | the block size is 512, and the blocks cover the device |
| BlockDevice.AsWrittenAdmitsOutOfBounds | examples/armv7m-mpu-littlefs/bd.c:26 | the wrapped check lets through a one-byte access at offset 0xFFFFFFFF, far outside the array |
| BlockDevice.ChecksAgreeWithoutWrap | examples/armv7m-mpu-littlefs/bd.c:26 | the corrected check never admits more than the C check, and the two agree whenever the sum does not wrap |
| BlockDevice.InRangeInBounds | examples/armv7m-mpu-littlefs/bd.c:30 | every byte of a range that passes the corrected check is inside the array |
| BlockDevice.WriteAt | examples/armv7m-mpu-littlefs/bd.c:39 | copying data in keeps the length, puts the data at the range and leaves every other byte |
| BlockDevice.ReadAfterProg | examples/armv7m-mpu-littlefs/bd.c:25-41 | reading back a range just programmed returns the bytes written |
| BlockDevice.ProgLeavesOthers | examples/armv7m-mpu-littlefs/bd.c:34-41 | programming one range leaves every disjoint range as it was |
| BlockDevice.Device.constructor | examples/armv7m-mpu-littlefs/bd.c:13 | the device array is fresh and starts zeroed |
| BlockDevice.Device.Read | examples/armv7m-mpu-littlefs/bd.c:25-32 | out of range, returns -EINVAL and leaves the buffer; otherwise returns 0, copies exactly the range into the start of the buffer and leaves the rest of it |
| BlockDevice.Device.Prog | examples/armv7m-mpu-littlefs/bd.c:34-41 | out of range, returns -EINVAL and leaves the device; otherwise returns 0 and writes exactly the range |
| BlockDevice.Device.Erase | examples/armv7m-mpu-littlefs/bd.c:43-46 | returns 0 and changes nothing |
| BlockDevice.Device.Sync | examples/armv7m-mpu-littlefs/bd.c:48-51 | returns 0 and changes nothing |
| BlockDevice.Device.EraseAll | examples/armv7m-mpu-littlefs/bd.c:53-56 | returns 0 and sets every byte to 0 |
| BlockDevice.ProgThenRead | examples/armv7m-mpu-littlefs/bd.c:25-41 | on a device, a successful prog followed by a read of the same range returns the programmed bytes |

## Left out

- Reset handler, data/bss copy loops, FPU enable, vector table and default handlers of bb.c: these are hardware startup and linker symbols.
- The real setjmp/longjmp stack mechanics, and MPU or wasm3 confinement. A checkpoint is a frame identity and an abort is an outcome value.
- Concurrent or interrupt-time re-entry into a box, which races on the single checkpoint slot.
- box1's and box3's exports run code that is not part of this model, so their export tables are parameters.
- BoxSystem.CallThrough: an export table is a fixed, deterministic function of (slot, args), so box code that keeps state across calls or calls into another box lies outside it; this scenario writes box a's export code out by hand instead of taking it from a's table.
- The box2 and box3 runtime code in bb.c is a copy of box1's, and one `Box` class models all three.
- The printf/fprintf/fflush/`_write` wrappers and the `__box_write`/`__box_flush` glue of bb.c are I/O plumbing over an import that is not part of this model.
- The `printf` calls inside box2's exports and inside `__assert_func` are output only.
- BoxRuntime.Box.Pop: the assertion message `__assert_func` prints is not modelled, only its abort with -1.
- Box2Payload.Ping: signed overflow is undefined in C; the model wraps as the target's adder does.
- Box2Payload.PingImport: the result is stated only when sys_ping(a) + 2 does not overflow; otherwise it wraps.
- Heap.BumpHeap.Sbrk: addresses are integers and the region is given to the constructor. Like the C code, there is no check that a negative diff stays above the heap start.
- Printf.CbPrintf: the write callback never fails, so the early return of a negative write result (every `nres < 0` branch) is not modelled.
- Printf.CbPrintf: `res` is an unbounded integer; the overflow of the `ssize_t` total is not modelled.
- Printf.WordAt: `va_list` becomes a list of values. A missing argument, or one of the wrong kind, reads as 0 or as the empty string instead of as undefined behaviour.
- The pointer-to-`uint32_t` cast of the `%s` argument is not modelled. The string's characters are kept in the conversion instead.
- Printf.PadCount: the `(ssize_t)width - (ssize_t)size` comparison is modelled with the width wrapped to 32 bits; `size` is small enough that its cast never wraps.
- Printf.ConvertSigned: negating INT32_MIN is undefined in C; the model takes the target's wrap-around, so INT32_MIN prints as -2147483648.
- bento/outputs/c.py: the text layout is not modelled. That covers textwrap doc wrapping, the `#ifndef` guard, the `getvalue` print loop and the `pushattrs` attribute expansion. Declarations are kept as what they declare.
- bento/outputs/c.py: `Fn.postbound`/`prebound` and `argnames` are not part of this model. A link's function is taken as already bound, and its argument names are given.
- LexOrder.Less: Python's `str` order is modelled as code-point order with a proper prefix first, without Unicode normalisation.
- bento/outputs/ld.py: the text layout of each entry is not modelled: the `%#010x` origin and length, the padding, the upper-cased names and the doc-comment wrapping. Names are taken with their prefix already applied.
- bento/outputs/ld.py: `default_build_parent`, `default_build_box` and the `LDOutput` class depend on box and memory machinery that is not part of this model.
- bento/runtimes/__init__.py, bento/outputs/header.py and examples/fs/bb.h are not part of this model. From bb.h only the value 22 of `EINVAL` is used.
- BlockDevice.Device.Read and BlockDevice.Device.Prog: `memcpy` with overlapping buffers is excluded by requiring the buffer not to be the device array.

## Findings

| source | as written | input that shows it | evidently intended | confidence | as-written member | corrected member |
|---|---|---|---|---|---|---|
| examples/armv7m-mpu-littlefs/bd.c:26 | `block*BD_BLOCK_SIZE + off + size` is summed in 32-bit unsigned arithmetic before it is compared with `BD_SIZE`; `bd_prog` at line 35 does the same | block 0, off 0xFFFFFFFF, size 1: the sum wraps to 0, the check passes, and `memcpy` touches `bd[0xFFFFFFFF]` | reject every range that does not lie inside the array | high, not executed | BlockDevice.AsWrittenAdmitsOutOfBounds | BlockDevice.InRangeInBounds |
| examples/jumptable-hello/bb.c:376-400 | the parser's last branch takes every other character, the terminating NUL included, as a hex conversion, and `p += 2` then steps past it | the format "%" (any format ending in '%'): the NUL is printed as an 8-digit pointer from an argument never passed, and the next `strcspn` starts one past the terminator | stop at the end of the format | high, not executed | Printf.TrailingPercentOverruns | Printf.ParseConv |
