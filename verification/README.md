# ARMMultiTasking thread ABI and fibre contexts, in Dafny

This project models the parts of the ARMMultiTasking kernel whose behaviour
is written out in its headers and in the user-level fibre code:

- **Thread constants and the creation flags word** (`include/common/thread.h`):
  the invalid/current thread id, the bounded thread name, the kernel
  configuration bits, the property (`TPROP_*`) and yield (`YIELD_*`) codes,
  the permission bits (`TPERM_*`), the `flags` word of thread creation
  (a kind in the low 16 bits, a "permissions to withhold" mask above it,
  built from the `TPERM_NO_*` constants), and the four-word argument block.
  Permission masks are also given a set view (`set<Permission>`), and the two
  views are proved to correspond.
- **Thread states** (`include/thread_state.h`): the six-state enumeration,
  its numeric codes, and the header's trick of expanding one list of
  `ENUM_VALUE(key, value)` lines both as a C enumeration and as assembler
  `.set` directives.
- **Fibre context construction** (`src/user/fibre.c`): `init_context` and
  `make_context` over a byte-addressed, little-endian memory, with the
  platform's stack alignment, pointer size and return trampoline as
  parameters (`Platform`; `AArch64` gives 8-byte pointers and 16-byte
  alignment).
- **The thread control block** (`include/kernel/thread.h`) as a record, with
  no kernel operations; only storing a state into its raw state word and a
  name into its name buffer are modelled.

Modules: `ThreadFlags` (thread_flags.dfy), `ThreadStates`
(thread_state.dfy), `Fibre` (fibre.dfy), `KernelThread` (kernel_thread.dfy),
`MachineWords` (machine_words.dfy: bytes, n-byte words, the `size_t` cast)
and `Wrappers` (the `Option` type). Thread names are byte sequences, so a
name's length is its `strlen()`.

`make_context` computes its stack pointer with `size_t` arithmetic. When the
aligned stack top is below one pointer size, `sp -= sizeof(UserContext*)`
wraps around; the model keeps that wrap (`Fibre.SubWrap`), so the
"slot lies below the stack top" guarantee is proved for every stack top that
does not wrap, which is every real stack.

The kernel configuration macros are written without parentheses
(`1 << 0` and so on), so an expression such as `~KCFG_LOG_THREADS` would
expand to `~1 << 2`. The model gives each flag the value its definition
evidently intends, a single bit.

## Model

| member | source | states |
|---|---|---|
| ThreadFlags.IdSentinels | include/common/thread.h:9-11 | `CURRENT_THREAD` is the same value as `INVALID_THREAD`, -1, so it never collides with a table index |
| ThreadFlags.NameBuffer | include/common/thread.h:13-17 | a name of at most `THREAD_NAME_MAX_LEN` bytes fills a `THREAD_NAME_SIZE` buffer: the name first, NUL after it |
| ThreadFlags.CString | include/common/thread.h:13-17 | reading a buffer as a C string yields its NUL-free prefix up to the first terminator |
| ThreadFlags.NameRoundTrip | include/common/thread.h:13-17 | `THREAD_NAME_MAX_LEN` is 12, one less than the buffer size, so any valid name fits with its terminator and reads back unchanged |
| ThreadFlags.KcfgBit | include/common/thread.h:19-22 | each kernel configuration flag is a single bit within the low four bits |
| ThreadFlags.KcfgBitsDisjoint | include/common/thread.h:19-22 | two configuration flags share a bit exactly when they are the same flag |
| ThreadFlags.KcfgFlagsOf | include/common/thread.h:19-22 | the flags a configuration word enables are exactly those whose bit is set |
| ThreadFlags.KcfgWordOf | include/common/thread.h:19-22 | OR-ing the bits of a set of flags gives a word whose bit for each flag is set exactly when the flag is in the set, with nothing above the low four bits |
| ThreadFlags.KcfgFlagsOfWordOf | include/common/thread.h:19-22 | reading the flags back from the word built from a set gives that set |
| ThreadFlags.KcfgWordOfFlagsOf | include/common/thread.h:19-22 | rebuilding a word from the flags it enables gives the word with everything but the four configuration bits cleared |
| ThreadFlags.PropertyCode | include/common/thread.h:24-32 | the nine properties have codes 0..8 in the header's order |
| ThreadFlags.DecodeProperty | include/common/thread.h:24-32 | a code names a property exactly when it is below 9, and then the one with that code |
| ThreadFlags.PropertyCodesDistinct | include/common/thread.h:24-32 | property codes are pairwise distinct and decode back to their property |
| ThreadFlags.YieldCode | include/common/thread.h:60-62 | `YIELD_ANY` is 0, `YIELD_TO` is 1, `YIELD_NEXT` is 2 |
| ThreadFlags.DecodeYield | include/common/thread.h:60-62 | codes 0..2 and only those name a yield kind, the one with that code |
| ThreadFlags.YieldCodesDistinct | include/common/thread.h:60-62 | yield codes are pairwise distinct and decode back to their kind |
| ThreadFlags.PermBit | include/common/thread.h:43-48 | each permission is a single bit among the six lowest bits of the 16-bit mask |
| ThreadFlags.PermBitsDisjoint | include/common/thread.h:43-48 | the six permission bits are pairwise distinct |
| ThreadFlags.PermissionsOf | include/common/thread.h:41-48 | a mask grants exactly the permissions whose bit it has set |
| ThreadFlags.MaskOverBit | include/common/thread.h:43-48 | OR-ing the bits of the permissions of a list that are in a set sets a permission's bit exactly when it is in both |
| ThreadFlags.MaskOf | include/common/thread.h:43-48 | the mask built from a set of permissions has a permission's bit set exactly when the permission is in the set, and no bit outside the six named ones |
| ThreadFlags.PermissionsOfMaskOf | include/common/thread.h:41-48 | set to mask to set is the identity |
| ThreadFlags.MaskOfPermissionsOf | include/common/thread.h:41-48 | mask to set to mask keeps exactly the six named bits; `TPERM_ALL`'s other ten bits stand for no permission |
| ThreadFlags.AllGrantsEverything | include/common/thread.h:41-42 | `TPERM_ALL` grants every permission and `TPERM_NONE` grants none |
| ThreadFlags.KindCode | include/common/thread.h:34-36 | a kind's code is `THREAD_FUNC` or `THREAD_FILE`, and the two kinds get different codes; both lie inside `TFLAG_KIND_MASK` because the kind field is 16 bits wide |
| ThreadFlags.DecodeKind | include/common/thread.h:34-36 | a kind field names a thread kind exactly when it is `THREAD_FUNC` or `THREAD_FILE` |
| ThreadFlags.EncodeFlags | include/common/thread.h:34-39 | OR-ing the kind with (remove << TFLAG_PERM_SHIFT) puts the kind in the bits under `TFLAG_KIND_MASK` and the removal mask in the bits above the shift, each recoverable unchanged |
| ThreadFlags.DecodeFlags | include/common/thread.h:34-39 | splitting a flags word into `flags & TFLAG_KIND_MASK` and `flags >> TFLAG_PERM_SHIFT` loses nothing: encoding the parts rebuilds the word |
| ThreadFlags.DecodeEncodeFlags | include/common/thread.h:34-39 | any 16-bit kind and 16-bit removal mask come back unchanged from kind OR-ed with (remove << 16) |
| ThreadFlags.RemovalFlag | include/common/thread.h:50-58 | each `TPERM_NO_X` has no bit in the kind field and decodes to removal mask `TPERM_X` |
| ThreadFlags.RemovedPermissions | include/common/thread.h:38-39 | a flags word withholds a permission exactly when it has that permission's `TPERM_NO_*` bit |
| ThreadFlags.RemovedPermissionsOfEncoding | include/common/thread.h:34-39 | whatever the kind, a flags word withholds exactly the permissions of its removal mask |
| ThreadFlags.RemovalFlagsCombine | include/common/thread.h:50-58 | OR-ing two `TPERM_NO_*` flags onto a kind encodes that kind with both bits removed, withholds exactly those two permissions and keeps the kind |
| ThreadFlags.NoAllRemovesEverything | include/common/thread.h:51 | `TPERM_NO_ALL` has no bit below 16, contains every `TPERM_NO_*` bit, and decodes to removal mask `TPERM_ALL` without touching the kind |
| MachineWords.ToSizeT | include/common/thread.h:73-74 | the `(size_t)` cast gives a value inside the word's range; it keeps in-range values, and sends a negative value no further than one range below zero to that value plus the range |
| MachineWords.ToSizeTResidue | include/common/thread.h:73-74 | for every integer, the cast differs from the original by a multiple of the word's range |
| MachineWords.ToSizeTUnique | include/common/thread.h:73-74 | the cast is the only in-range value congruent to the original, so with ToSizeTResidue it is reduction modulo the range for every integer |
| ThreadFlags.MakeArgs | include/common/thread.h:64-74 | `make_args` fills the four words in order, each the `size_t` cast of its argument and below the word's range |
| ThreadFlags.MakeArgsResidues | include/common/thread.h:71-74 | each of the four argument words is congruent to its argument modulo the word's range, whatever the argument's sign |
| ThreadStates.Code | include/thread_state.h:14-21 | init=0, running=1, suspended=2, waiting=3, finished=4, cancelled=5: every code is below 6 |
| ThreadStates.Decode | include/thread_state.h:14-21 | a raw state word is a state exactly when it is below 6, and then the state with that code |
| ThreadStates.DecodeEncode | include/thread_state.h:14-21 | decode(encode(s)) == s for every state |
| ThreadStates.EncodeDecode | include/thread_state.h:14-21 | encode(decode(n)) == n for n < 6, and n >= 6 is not a state |
| ThreadStates.CodeInjective | include/thread_state.h:14-21 | two states share a code exactly when they are the same state |
| ThreadStates.EnumTable | include/thread_state.h:14-21 | the header's list binds the i-th state's name to i |
| ThreadStates.AsmExpansion | include/thread_state.h:4-7 | the assembler expansion turns each `ENUM_VALUE(key, value)` line into `.set key, value`, one directive per line, in order |
| ThreadStates.CExpansion | include/thread_state.h:8-11 | the C expansion turns each line into the enumerator `key=value`, with its value written out, one per line, in order |
| ThreadStates.CValuesFrom | include/thread_state.h:8-11 | C's rule for enumerator values: one with a written value takes it, one without takes its predecessor's value plus one (the first one the starting value) |
| ThreadStates.ExpansionsAgree | include/thread_state.h:4-12 | for any list of explicit-value lines, the C enumeration and the `.set` directives bind each name to the value in its line |
| ThreadStates.HeaderBindsCodes | include/thread_state.h:4-21 | for this header, the C and assembler views both bind each state's name to its code |
| Fibre.InitContext | src/user/fibre.c:7-9 | clearing a context zeroes every saved word and keeps its shape |
| Fibre.AlignDown | src/user/fibre.c:14-15 | `ALIGN_STACK_PTR` gives an aligned value at most the input and less than one alignment below it |
| Fibre.AlignDownIsGreatest | src/user/fibre.c:14-15 | no aligned value between the rounded-down value and the input is skipped |
| Fibre.AlignDownAligned | src/user/fibre.c:14-15 | `ALIGN_STACK_PTR` leaves an already aligned value unchanged |
| Fibre.AArch64Valid | src/user/fibre.c:14 | the AArch64 platform (8-byte pointers, 16-byte stack alignment) meets make_context's platform assumptions for any trampoline address that fits a pointer |
| Fibre.SubWrap | src/user/fibre.c:21 | `size_t` subtraction is exact when it does not go below zero and wraps modulo the address space when it does |
| Fibre.SlotAddress | src/user/fibre.c:14-23 | the final stack pointer is aligned, inside the address space, and unless the subtraction wrapped the pointer slot at it ends at or below the aligned top, which is at or below the given top |
| Fibre.SlotIsHighest | src/user/fibre.c:21-23 | every aligned address with room for a pointer below the aligned top is at or below the slot: the slot wastes no stack |
| Fibre.LoadStoredWord | src/user/fibre.c:25-26 | the little-endian bytes of a word read back as that word |
| Fibre.StoreWord | src/user/fibre.c:25-26 | a pointer store writes the word's bytes at the address, reads back as the stored value, and leaves every other byte as it was |
| Fibre.MakeContext | src/user/fibre.c:11-27 | after `make_context` every saved word other than sp, pc and lr is zero; pc is the function, lr the trampoline; sp is determined by the stack top alone, aligned, and (without wrap) leaves the slot below the top; the slot holds the context's address; no other byte of memory changes |
| KernelThread.WithState | include/kernel/thread.h:22-23 | storing a state in the raw state word reads back as that state and changes no other field |
| KernelThread.StoredNameReadsBack | include/kernel/thread.h:27 | a valid name stored in a thread's name buffer reads back unchanged and keeps the record well shaped |

## Left out

- The kernel's behaviour: thread creation and destruction, the scheduler and its three yield kinds, permission checks, the mutex, the message queue, signal delivery, kernel configuration, timer preemption and the code-page manager. `include/kernel/thread.h` only declares these entry points; their bodies are not part of this model, so only the thread record is transcribed.
- How thread creation applies the removal mask to the creator's permissions: that code is not part of this model; the model proves what the flags word encodes, not what the kernel does with it.
- The layout of `UserContext` (`user/fibre.h` is not part of this model): the context is sp, pc, lr and a sequence of other saved words.
- The body of `ALIGN_STACK_PTR` and the address of `set_context_from_stack_address`, which live in per-architecture files: they are the `stackAlign` and `returnTrampoline` parameters of `Platform`, and rounding down to a positive alignment is assumed.
- The storage of the context itself: the model treats `ctx` as a value, assumed not to overlap the reserved stack slot, and memory as bytes in little-endian order.
- The register context, signal wrapper and architecture selection of `include/port/port.h`: assembly-backed platform services.
- The demo programs, the system-call table generator `scripts/syscalls.py` and the `errno` shim `src/user/errno.c`: clients and build plumbing, not part of the core.
- Fibre.MakeContext: the slot-below-top guarantee is stated only when the aligned stack top is at least one pointer size, because the C code wraps around below zero and then promises nothing.
