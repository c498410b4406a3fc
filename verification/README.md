# MF66: a verified model of the compiler and its neighbours

MF66 is a Forth system that compiles to AArch64 machine code. This project models its core
and proves it correct:

- **Tokens and the peephole pass** (`cells`, `signed`, `tokens`, `operators`, `reduce`,
  `exactness`). Straight-line code is a run of tokens with a meaning on Forth states: data stack,
  return stack, byte memory, 64-bit wrapping cells. `signed` reads cells as numbers, signed and
  unsigned, and `operators` says in these numbers what every operator, shift, comparison and
  selection computes. `reduce` folds constants, chains immediates, fuses and cancels; it refines
  the run wherever the run does not underflow. Where that fails, where the pass is stable, and
  what it never leaves behind, is characterised exactly.
- **The register-window lowerer** (`machine`, `window`, `ownership`, `simulation`, `lowering`,
  `lowerer`, `limits`). A window of constants and registers stands for the top of the stack; cells
  at hot constant addresses are cached; registers come from a pool of seven. `window` is the
  specification, `lowerer` the object that updates its fields in place: register ownership is its
  invariant, its tokens succeed exactly when none is starved of registers, and its code means the
  run. `ownership` shows who owns which register and exactly when `alloc` fails, `simulation` and
  `lowering` that the code means the run, and exactly which runs fit the 12-bit adjustment of DSP.
- **The control-flow compiler** (`branches`, `structured`, `flow`, `compiler`, `backpatch`,
  `committed`, `patching`, `colon`). `structured` gives nested control flow a meaning and direct
  code; `flow` shows that the flat code simulates it; `compiler` compiles word by word with open
  branches on a stack; `backpatch` shows the two produce the same code; `committed` puts a whole
  definition together, tail call, exits and `unless` included; `patching` covers arbitrary words:
  every forward branch is patched once, to where its word says; `colon` is the definition object
  that the words update in place.
- **The rope** (`rope`, `build`, `buffer`, `lines`, `utf8`): a leaf-oriented AVL tree with join and
  split, refining edits of a plain sequence, with line navigation and UTF-8 decoding.
- **Kernel and session words** (`dictionary`, `division`, `numbers`, `calls`, `loops`):
  the hash index and its rollback, the 128-step division, pictured output against `>number`, catch,
  throw and tail calls over whole programs of structured words, and the exact number of turns of
  counted loops, from their 64-bit cells to their code.

The main results come first in the table. A method on an object ties the new state to a function
of the old one; what that function means is in the lemmas, and the rows name those.

## Reading the model

- The data stack is the machine's: its deepest cell is whatever x0 holds when the stack is
  empty, so a stack of depth d has d + 1 cells. Reaching below it is underflow, `None`.
- `None` of the lowerer is the failure of `alloc`. Everything the source asserts or refuses is a
  value: `Option` or `Result`.
- What called words do to the state, and what they leave in the registers, are arbitrary
  functions (`Env`, `Words`, `Prims`).
- Stack memory, the return stack and data memory are separate.

## Where code and comments differ

The comment over `reduce` (src/opt.rs:512-515) calls one pass a fixpoint. The model follows the
code: `Limits.ReduceIsNotIdempotent` gives an input, `Exactness.StableExactly` says exactly when a
second pass changes nothing. The header of src/rope_buffer.rs calls the tree AVL; a text of five
leaves inserted at once is not, and `Build.BuiltBalance` says exactly which sizes are.

## Model

| member | source | states |
|---|---|---|
| Reduce.ReducedMeans | src/opt.rs:516-678 | On every state on which a run does not underflow, the reduced run ends in the same stack, return stack and memory, in wrapping 64-bit arithmetic and whatever the called words do. |
| Reduce.ReducedShrinks | src/opt.rs:516-678 | The reduced run is never longer than its input, and never contains the shifted multiply that the lowerer cannot emit. |
| Reduce.ReduceRun | src/opt.rs:516-678 | The forward loop over the run computes the specification `Reduced` that the lemmas are about. |
| Exactness.TransparentExactly | src/opt.rs:516-678 | For runs without calls, with the needed depth read off the tokens: the reduced run does the same if and only if the state is deep enough for the run, or too shallow even for what is left of it. |
| Exactness.RunSucceeds | src/opt.rs:516-678 | A run without calls goes through if and only if the data stack has `Need` cells and the return stack `Slots` cells. |
| Exactness.StableExactly | src/opt.rs:512-515 | The comment calls the pass a fixpoint; it is not. Reducing a second time changes nothing if and only if the first result has no literal or `dup` before a `drop` and no negatable comparison before `0=`; otherwise the result is strictly shorter. |
| Exactness.ReducedIsNormal | src/opt.rs:516-678 | What the source tokens of a run reduce to has no literal or `dup` before an operator, no literal before a shift, no two motions that undo each other, no two immediates of one operator in a row, and no `dup`, immediate shift and operator that could fuse. |
| Limits.ReduceIsNotIdempotent | src/opt.rs:512-515 | `dup 0 *` reduces to `dup drop 0`, which reduces to `0`. |
| Limits.UnderflowIsHidden | src/opt.rs:550-556 | `0 +` on an empty stack underflows, but is reduced to nothing and then does not. |
| Lowering.LoweredMeans | src/opt.rs:1873-1997 | For every run, however long, that fits and for which `alloc` never fails, every machine in canonical form and every effect of called words on the machine: if the run does not underflow, the emitted code ends in the canonical form of exactly the stack, return stack and data memory the run gives. A run fits if wherever the window is settled (before a call, when registers run short, and at the end) DSP moves by no more than 511 cells, and every load reaches. |
| Lowering.CompiledMeans | src/session.rs:2068-2101 | The same for the run reduced and then lowered, against the meaning of the run before reduction. |
| Lowering.LoweredExactly | src/opt.rs:1774-1997 | Where every token fits and the final settle's own loads and stores reach, the code means the run if and only if the run fits, that is, if and only if its last DSP adjustment is at most 511 cells either way. |
| Lowering.ShortRunFits | src/opt.rs:1988-1992 | A run with at most 255 tokens in a row without a call fits, however long it is, since a call settles the window. |
| Lowering.ShortFits | src/opt.rs:1873-1997 | A run of at most 255 tokens fits, before reduction and after. |
| Lowering.CompiledExists | src/session.rs:2077-2083 | A run with at most four hot addresses after reduction always has code. |
| Ownership.PoolExactly | src/opt.rs:813-912 | Lowering a run fails if and only if one of its tokens is starved where it stands: `drop`, `nip` or `-rot`, which reserve nothing, with fewer registers free than the entries it still has to pull. No other token ever fails, however many cells are cached. |
| Limits.LongRunsFail | src/opt.rs:1782-1790 | A run of k literals (k up to 4094) is lowered to code that means it if and only if k is at most 511. |
| Simulation.SettleExactly | src/opt.rs:1774-1827 | Settling any window whose loads and stores reach keeps the state if and only if DSP moves by at most 511 cells; past that the 12-bit immediate is cut and the depth is wrong. |
| Limits.ImmCodeExactly | src/opt.rs:942-962 | An operator with a constant is one instruction if and only if it adds or subtracts -4095 to 4095, or multiplies by a power of two from 2 to 2^62. |
| Ownership.PoolSuffices | src/opt.rs:813-850 | With at most four hot constant addresses, `alloc` never fails in any run, however long and whatever is spilled. |
| Limits.PoolBoundIsTight | src/opt.rs:882-912 | For any five addresses there is a run that makes exactly them hot and on which `drop -rot` finds no register: the bound of four is tight. |
| Ownership.OwnershipHolds | src/opt.rs:703-743 | After every prefix of every run, each used register is held by exactly one window entry or one cached cell, never by both or two, and nothing else is used. |
| Flow.GenSim | src/session.rs:2204-2391 | For every structured statement (if, else, until, while, do and ?do with loop and +loop, leave, unloop, exit, case) whose runs fit, laid out anywhere in a body: started from a state showing the Forth state, its flat code reaches the end, the target of `leave` or the target of `exit`, as the structured meaning says, with that meaning's state. |
| Backpatch.StmtCompiles | src/session.rs:2204-2391 | Compiling the words of any structured statement one at a time, with back-patching on a control-flow stack, succeeds if and only if the statement has structured code and each `leave` a loop, and then appends exactly that code, pending tokens, open leaves and exits, and leaves the control-flow stack otherwise as it was. |
| Committed.DefinitionIs | src/session.rs:2397-2447 | Compiling and committing a structured definition yields the prologue, its code, the tail call or epilogue, and every exit pointing at the epilogue; it is refused in all other cases. There is a tail call to a word if and only if the pending tokens are some tokens and then a call of that word, and the word is in the arena. |
| Committed.DefinitionRuns | src/session.rs:2397-2447 | Running the committed body of any structured definition (`unless` included) whose runs fit from its first instruction hands over exactly the state of the structured meaning, with the return address the caller passed: by return, or by jumping to an arena word that produces that state and returns there. |
| Committed.DefinitionLeaves | src/session.rs:2408-2447 | When the tokens pending at the end of a definition end in a call of an arena word, a normal run leaves by a branch to that word, with the frame's return address in LR and the return stack as the frame found it; if they do not, and after every `exit`, it leaves by `ret`. |
| Committed.DesugaredDefinition | src/session.rs:1872-1880 | A definition with `unless` compiles to the same body, or fails with the same error, as with `0= if` in its place. |
| Committed.EndsByBranch | src/session.rs:2286-2314 | A statement that ends by `leave` or `exit` has compiled a branch for it that is still to be patched. |
| Patching.CommittedBranches | src/session.rs:2204-2447 | For arbitrary words, nested or not, accepted by the compiler: seen from every point of compilation, each branch still open is open once and is patched later, to a target ahead of it, and each exit to the epilogue; every closed branch is never written again; and every branch of the committed body goes to a place inside the body. |
| Patching.WordSound | src/session.rs:2204-2391 | One word keeps the invariant: no branch is open twice, every open branch has the form it will be patched in, every other branch already goes inside the body. What it closes it points forward, exactly at the code after it (`then`, `repeat`, `endcase`), past its own jump (`else`) or at the frame drop (`loop`); where it loops it branches back exactly to the remembered place; and no other branch is written. |
| Patching.WordsSound | src/session.rs:2204-2391 | The same invariant over any sequence of words: what was closed stays as it was, and what has been closed since goes forward. |
| Buffer.ReachedRefines | src/rope_buffer.rs:226-273 | Any sequence of inserts, deletes and replaces from the empty rope, positions clamped, holds the text that the same edits make of a plain sequence, with exact cached lengths, newline counts and heights. |
| Buffer.ReachedIsBalanced | src/rope_buffer.rs:509-685 | If every inserted text packs (every text of at most four leaves does), every rope reached is AVL at every branch, has no empty leaf under a branch and no leaf over 2048 code points, and a nonempty one of height h holds at least Fib(h + 2) code points. |
| Calls.WordRuns | kernel/exceptions.masm:19-61 | Words are built of if/else, while loops, early exits, calls, catch and throw, nested in any way and calling each other recursively. Running a word's compiled body, with tail calls or without, ends as its meaning says; a normal end returns to the caller with the return stack and HANDLER it was entered with, a throw resumes at the innermost live frame's caller with what that frame saved. |
| Calls.StmtRuns | src/session.rs:2204-2391 | The same inside a word: from the first instruction of any statement, its code goes on after it, leaves the word or raises, as the statement's meaning says, with what the word keeps on the return stack in place. |
| Calls.TailCallsPreserve | src/session.rs:2408-2447 | Compiled with and without tail-call elimination, every word ends in the same machine state: data stack, return stack, handler and return address. |
| Calls.RecursionDepth | src/session.rs:2398-2402 | A word ending in a call of itself re-enters its first instruction after any number of rounds with the return stack of its first entry when tail calls are eliminated, and with exactly one frame per round when they are not. |
| Calls.ReturnExactly | src/session.rs:2423-2447 | With tail calls eliminated a word has a return if and only if it does not end in a call or leaves early somewhere. |
| Dictionary.OneBucketSuffices | kernel/dict.masm:90-149 | In any history of publishes, the newest entry in the bucket of the name's hash, and then the rest below it, give the newest entry of the wordlist whose name matches under ASCII case folding: scanning one bucket finds what scanning everything finds. |
| Dictionary.Index.RunMarker | src/session.rs:1531-1546 | Running a marker after any publishes leaves a sound index whose history is the one at the snapshot, so every bucket, chain and lookup answers as then. |
| Division.UmSlashMod | kernel/arith.masm:469-495 | For every 128-bit dividend: a throw exactly when the divisor is 0, and otherwise remainder = ud mod u and quotient = (ud div u) mod 2^64, with the 65-bit shifted remainder handled. |
| Numbers.PrintAndRead | src/session.rs:377-378 | In every base from 2 to 36 every unsigned 128-bit value is written by `<# #s #>` in 1 to 128 characters, and `0 0 >number` on them consumes all of them and returns the value. |
| Loops.ExactTrips | src/aenc.rs:154-181 | The wrapped difference index - limit changes sign at step `Trips` and at no earlier step, for every start and every nonzero constant step, in either direction. |
| Loops.CountedTurns | src/aenc.rs:146-194 | On the cells themselves: a whole counted loop whose body keeps its frame, and whose `+loop` step is the same each time, runs its body exactly `Trips` times (never for `?do` on equal limits) and gives back the return stack. |
| Loops.CountedCode | src/aenc.rs:146-194 | And so does its code: laid out anywhere in a body, it reaches the end of the loop in the state of those turns. |
| Lines.OffsetRoundTrip | src/rope_buffer.rs:339-360 | From every offset up to the length to line and column and back is the identity. |
| Utf8.RoundTripExactly | src/rope_buffer.rs:768-856 | Encoding any scalar values and decoding them gives them back if and only if there is no CR among them and the first is not U+FEFF. |
| Reduce.ReducedRefines | src/opt.rs:516-678 | The statement of `ReducedMeans` as refinement over all states. |
| Reduce.PushRefines | src/opt.rs:520-674 | Each step of the pass, on any kept tokens, refines appending the token. |
| Reduce.RefinesInContext | src/opt.rs:519-521 | A rewrite that refines in isolation refines after any prefix. |
| Reduce.RefinesThen | src/opt.rs:519-521 | A rewrite that refines still refines before one more token. |
| Reduce.LitLitAlu | src/opt.rs:523-531 | Folding two literals and an operator keeps the meaning, and the literal is the sum, difference or product of the numbers modulo 2^64, or their bitwise combination. |
| Reduce.DupShiftFuses | src/opt.rs:532-543 | `dup k shift op` fuses into one shifted-operand operation. |
| Reduce.IdentityVanishes | src/opt.rs:547-557 | A literal and operator that are an identity vanish. |
| Reduce.AbsorbingDrops | src/opt.rs:558-565 | An absorbing literal and operator become a drop and the literal. |
| Reduce.IdentityExactly | src/opt.rs:545-557 | The literals that vanish with their operator are exactly its right identities. |
| Reduce.AbsorbingExactly | src/opt.rs:558-565 | The literals that make an operator drop its operand are exactly those that absorb every operand. |
| Reduce.ImmediatesChain | src/opt.rs:566-580 | Two immediates of one operator become one; for subtraction the magnitudes add. |
| Reduce.FoldDupRefines | src/opt.rs:585-610 | `dup` and an operator: the value for and/or, zero for minus/xor (a literal before it is dead), the fused form otherwise. |
| Reduce.LitLitShift | src/opt.rs:615-623 | Folding a literal shifted by a literal count keeps the meaning, and the literal is the number times or divided by that power of two, rounded down. |
| Reduce.LitShiftFolds | src/opt.rs:624-636 | A literal count becomes an immediate of its low six bits. |
| Reduce.ShiftByZero | src/opt.rs:627-630 | A count that is 0 modulo 64 makes the shift vanish. |
| Reduce.LitDrop | src/opt.rs:639-646 | A literal immediately dropped is dead. |
| Reduce.DupDrop | src/opt.rs:639-646 | A `dup` immediately dropped is dead. |
| Reduce.InversesCancel | src/opt.rs:647-656 | Inverse permutations annihilate. |
| Reduce.CompareNegates | src/opt.rs:657-672 | A comparison followed by `0=` is the negated comparison. |
| Reduce.NegateIsComplement | src/opt.rs:393-405 | The negated comparison holds exactly when the comparison does not, on all operands. |
| Reduce.NegateExactly | src/opt.rs:393-405 | The comparisons that have a negation are the six of two signed operands. |
| Tokens.RunAppend | src/opt.rs:1924-1994 | Running two runs one after the other is running them as one, underflow included. |
| Tokens.FetchAfterStore | src/opt.rs:1225-1289 | A cell stored byte by byte at any address, wrapping at the top of memory, is fetched back. |
| Tokens.ByteAfterStore | src/opt.rs:1225-1289 | `c!` stores the low eight bits and nothing else, and `c@` fetches them. |
| Tokens.BytesAfterStore | src/opt.rs:1225-1289 | `!` stores the eight bytes of a cell, least significant first, wrapping at the top of memory, and nothing else. |
| Operators.AluIs | src/opt.rs:314-326 | Folded sums, differences and products are those of the signed numbers modulo 2^64; and, or and xor work bit by bit. |
| Operators.ShiftIs | src/opt.rs:328-337 | A shift by b, modulo 64, multiplies the unsigned number by 2^b modulo 2^64, or divides by 2^b rounding down: the unsigned number for the logical shift, the signed one for the arithmetic shift. |
| Operators.HoldsIs | src/opt.rs:350-377 | A comparison holds exactly when the signed numbers are so related, the unsigned ones for `u<` and `u>`. |
| Operators.SelIs | src/opt.rs:105-115 | min and max give the smaller and the larger of the signed numbers, umin and umax of the unsigned ones. |
| Operators.FlagIs | src/opt.rs:350-377 | The flags are the cells of -1 and 0. |
| Signed.SignedLessIs | src/opt.rs:356 | The signed order of cells is the order of their signed numbers. |
| Machine.LoadImm64Loads | src/aenc.rs:36-41 | One movz and three movk leave the 64-bit constant in its register and change nothing else. |
| Machine.CondOfDecides | src/opt.rs:378-417 | After `cmp a, b` the condition chosen for a comparison holds exactly when the numbers in a and b are so related, signed or unsigned; so does, after `cmp b, a`, the condition for swapped operands. |
| Machine.SelectGives | src/opt.rs:105-124 | `cmp` and `csel` with the chosen condition give the smaller or the larger of the numbers, signed or unsigned. |
| Machine.InvertNegates | src/session.rs:2372 | Flipping the low bit of a condition negates it. |
| Ownership.AllocSucceeds | src/opt.rs:813-821 | `alloc` finds a register whenever one is free, and takes exactly one. |
| Ownership.AllocExactly | src/opt.rs:813-821 | `alloc` fails if and only if no pool register is free. |
| Ownership.AllocIsFresh | src/opt.rs:813-821 | What `alloc` returns is a pool register nobody holds. |
| Ownership.FreeAtLeast | src/opt.rs:809-812 | At least seven less the window entries and the cached cells are free. |
| Ownership.SettleOwned | src/opt.rs:1774-1827 | Settling never runs out of registers however full the pool is, and leaves all seven free. |
| Ownership.ReserveOwned | src/opt.rs:834-841 | After `reserve` of at most seven, that many registers are free. |
| Ownership.EnsureOwned | src/opt.rs:842-852 | Pulling operands keeps ownership, succeeds if and only if enough registers are free, and takes one each. |
| Ownership.TokOwned | src/opt.rs:1924-1994 | One token finds its registers if and only if it is not starved, that is, unless it is `drop`, `nip` or `-rot` and fewer registers are free than the one, two or three entries it still has to pull; and it keeps ownership. |
| Ownership.FetchOwned | src/opt.rs:1225-1289 | `@` keeps ownership through a cache hit, a cache fill and a plain load. |
| Simulation.SimSettle | src/opt.rs:1774-1827 | Within reach, settling changes nothing of the state and leaves canonical form: pass 1, the new top, pass 2, without overwriting anything still needed. |
| Simulation.AdjustDspExact | src/aenc.rs:94-97 | The DSP adjustment is exact if and only if it is at most 511 cells either way. |
| Simulation.StoreRegsRuns | src/opt.rs:1789-1798 | Pass 1 writes the slots of the deep register entries and nothing else. |
| Simulation.SimEnsure | src/opt.rs:842-852 | Pulling entry cells into the window does not change the state it stands for. |
| Simulation.SimToRegAt | src/opt.rs:853-865 | Putting an entry in a register does not change the state. |
| Simulation.SimAlu | src/opt.rs:963-1003 | A binary operator, also with a constant on either side, leaves the operator applied to the two top cells; coherence of the cell cache is kept. |
| Simulation.SimImmAlu | src/opt.rs:1004-1030 | An operator with an immediate, folded into one instruction or through a scratch register. |
| Simulation.ImmCodeRuns | src/opt.rs:942-962 | Each folded form (12-bit add and subtract, also of a negated constant; a shift for multiplying by a power of two) computes the operator. |
| Simulation.SimDupAlu | src/opt.rs:1115-1141 | `dup op` in place computes x op x. |
| Simulation.SimShift | src/opt.rs:1039-1073 | A shift by a computed count, taken modulo 64, leaves the number times or divided by that power of two. |
| Simulation.SimImmShift | src/opt.rs:1074-1092 | A shift by an immediate count leaves the number times or divided by that power of two, the arithmetic one rounding the signed number down. |
| Simulation.SimDupShiftAlu | src/opt.rs:1093-1114 | The fused shifted-operand operation computes x op (x shifted). |
| Simulation.SimZeroCmp | src/opt.rs:1142-1207 | A comparison with zero leaves -1 or 0, as the signed number is. |
| Simulation.SimBinaryCmp | src/opt.rs:1142-1207 | A comparison of two values, also against a small constant, leaves -1 exactly when the numbers are so related, signed or unsigned. |
| Simulation.SimSel | src/opt.rs:1208-1224 | min, max, umin and umax leave the smaller or the larger of the two numbers. |
| Simulation.SimPick | src/opt.rs:919-928 | A pick leaves the state with a copy of the n-th item on top. |
| Simulation.SimRoll | src/opt.rs:929-941 | A roll by reindexing the window is the roll of the stack. |
| Simulation.SimMinusRot | src/opt.rs:882-918 | `-rot` by reindexing the window is `-rot` of the stack. |
| Simulation.SimTuck | src/opt.rs:882-918 | `tuck` through one copy is `tuck` of the stack. |
| Simulation.SimFetch | src/opt.rs:1225-1289 | `@` leaves the cell in memory whether it came from the cache, filled it or was loaded; every cached register still equals memory at its address. |
| Simulation.SimCFetch | src/opt.rs:1225-1289 | `c@` leaves the byte. |
| Simulation.SimStore | src/opt.rs:1225-1289 | `!` and `c!`, the cache dropped first, store exactly the second item at the top one. |
| Simulation.SimLoopIdx | src/opt.rs:1478-1484 | `i` and `j` push the cell of the loop frame. |
| Simulation.SimCall | src/opt.rs:1988-1992 | A call, the window settled first, leaves what the word makes of the state, whatever else it clobbers. |
| Lowering.TokSim | src/opt.rs:1924-1994 | One token of any kind that fits keeps the simulation: the window after it stands for the state the token gives. |
| Lowering.ToksSim | src/opt.rs:1924-1994 | So does a run of any length each of whose tokens fits. |
| Lowerers.Lower | src/opt.rs:1873-1997 | Pre-scan, tokens and final settle, in place: there is code if and only if no token is starved, and the code of a run that fits means the run, on every machine and with any called words. |
| Lowerers.ScanHot | src/opt.rs:1890-1904 | The pre-scan finds exactly the addresses fetched at least twice right after their literal. |
| Lowerers.Lowerer.constructor | src/opt.rs:751-790 | A new window holds x0 only, and meets the class invariant: every used register has exactly one holder. |
| Lowerers.Lowerer.AllocReg | src/opt.rs:813-821 | The first free pool register, or failure, changing `used` only. |
| Lowerers.Lowerer.CountFree | src/opt.rs:809-812 | The number of free pool registers. |
| Lowerers.Lowerer.DropCache | src/opt.rs:803-808 | Every cached cell goes and its register is free again. |
| Lowerers.Lowerer.ReserveRegs | src/opt.rs:834-841 | Settles exactly when too few registers are free. |
| Lowerers.Lowerer.EnsureCells | src/opt.rs:842-852 | Pulls entry cells below the window until it holds n. |
| Lowerers.Lowerer.Stack | src/opt.rs:882-918 | The eight stack motions as window operations, with the source's reservations (none for drop, nip and -rot). |
| Lowerers.Lowerer.StoreDeepRegs | src/opt.rs:1789-1798 | The loop of pass 1 of settling: every register entry below the top stored in its slot and freed, in order. |
| Lowerers.Lowerer.StoreDeepConsts | src/opt.rs:1808-1817 | The loop of pass 2 of settling: every constant below the top loaded into a free register and stored in its slot. |
| Lowerers.Lowerer.Settle | src/opt.rs:1774-1827 | Settling, in place, never fails on a valid window and leaves the canonical one, with no register in use. |
| Lowerers.Lowerer.Token | src/opt.rs:1924-1994 | One token in place succeeds if and only if it is not starved, keeps the class invariant, and leaves a window that stands for the state the token gives. |
| Lowerers.Lowerer.Tokens | src/opt.rs:1924-1994 | A run in place succeeds if and only if none of its tokens is starved where it stands, keeps the class invariant, and leaves a window that stands for the state the run gives. |
| Branches.FieldExact | src/aenc.rs:98-114 | A branch offset survives its field, cut to its width and sign-extended, if and only if it is in the field's range. |
| Branches.BranchRanges | src/aenc.rs:98-114 | `cbz` and `b.cond` reach 2^18 instructions either way, `b` 2^25 and `tbz` 2^13, and no further. |
| Branches.FlagTestRuns | src/aenc.rs:413-424 | The flag test pops the flag into x9 and raises the next item. |
| Branches.FusedCmpRuns | src/opt.rs:1835-1867 | A fused comparison pops its operands, and its condition holds exactly when the comparison does. |
| Branches.DoRuns | src/aenc.rs:146-152 | `do` moves limit and start into a loop frame. |
| Branches.QDoTestRuns | src/aenc.rs:185-194 | `?do` compares index and limit and changes nothing else. |
| Branches.LoopRuns | src/aenc.rs:154-165 | `loop` adds one to the index; bit 63 of x11 tells whether it crossed the limit. |
| Branches.PlusLoopRuns | src/aenc.rs:167-181 | `+loop` adds the popped step to the index; bit 63 of x11 tells whether it crossed the limit. |
| Branches.UnloopRuns | src/aenc.rs:202-204 | `unloop` drops exactly the loop frame. |
| Flow.TestCarries | src/session.rs:1915-1923 | The test of if, until and while, fused or not, falls through exactly when the flag the pending run leaves is true and branches otherwise. |
| Flow.IfSim | src/session.rs:2230-2233 | An `if` with no `else`, laid out with its forward branch, does what the choice does. |
| Flow.IfElseSim | src/session.rs:2234-2253 | An `if` with `else` does what the choice does. |
| Flow.UntilSim | src/session.rs:2254-2261 | A `begin … until` loop repeats until the flag is true. |
| Flow.WhileSim | src/session.rs:2262-2281 | A `begin … while … repeat` loop repeats while the flag is true. |
| Flow.CountedSim | src/session.rs:2282-2336 | The body and step of a counted loop, `leave` included, run as the structured loop does and drop the frame at the end. |
| Flow.DoLoopSim | src/session.rs:2282-2336 | A whole counted loop, the skip of `?do` included. |
| Flow.CaseSim | src/session.rs:1882-1914 | `case`: the arms compiled as `over = if drop … else` and one final drop run the first arm whose test equals the selector, or the default. |
| Flow.GenWellFormed | src/session.rs:2204-2391 | Generated code has its pending branches inside it and only valid pending tokens. |
| Committed.BodyIs | src/session.rs:2425-2447 | The committed body is prologue, code, tail call or epilogue, with every exit resolved to the epilogue. |
| Colon.CompileColon | src/session.rs:2397-2447 | Compiling words and committing, in place: refused exactly when a word or the commit is, and otherwise, if its runs fit, a body that runs as the structured meaning of the words says, with every branch inside it. |
| Colon.ColonDef.constructor | src/session.rs:1455-1475 | A new definition holds the nest instruction only. |
| Colon.ColonDef.FlushPending | src/session.rs:2068-2101 | The pending run is reduced, lowered and appended, and then empty. |
| Colon.ColonDef.PatchAll | src/session.rs:2321-2324 | Exactly the listed branches are rewritten to the target. |
| Colon.ColonDef.Loop | src/session.rs:2315-2336 | The step, the branch back, and every `leave` patched to the frame drop; refused without a `do`. |
| Colon.ColonDef.AddToLoop | src/session.rs:2291-2303 | The innermost loop, and only it, gets the branch. |
| Colon.ColonDef.Endcase | src/session.rs:1901-1914 | A drop, then every open branch closed back to the marker; refused without one. |
| Colon.ColonDef.CompileTok | src/session.rs:1882-1930 | One word in place gives the specified state or error; it keeps the branch invariant, writes no closed branch, and points what it closes where the word says. |
| Colon.ColonDef.CompileToks | src/session.rs:1882-1930 | Words in place give the specified state, or the first error. |
| Colon.ColonDef.PatchExits | src/session.rs:2444-2446 | Every exit, and nothing else, is pointed at the epilogue. |
| Colon.ColonDef.CommitBody | src/session.rs:2397-2447 | Refused with open control flow. A call of an arena word at the end becomes, after the code of the tokens before it, the restored return address and a branch to the word, and nothing more unless there are exits; without one the body ends in the restored return address and `ret`. |
| Rope.ExactMeasures | src/rope_buffer.rs:118-147 | In an exact tree the cached length and newline count are those of the text. |
| Rope.BalanceKeepsText | src/rope_buffer.rs:612-685 | Balancing and its rotations keep the text and exact cached numbers, on any tree. |
| Rope.JoinKeepsText | src/rope_buffer.rs:555-595 | Joining trees of any shapes concatenates their texts. |
| Rope.LeavesMerge | src/rope_buffer.rs:555-595 | Two leaves join into one leaf if and only if they hold at most 2048 code points together. |
| Rope.SplitKeepsText | src/rope_buffer.rs:509-553 | Splitting cuts the text at the position, clamped to the length. |
| Rope.Rebalanced | src/rope_buffer.rs:612-638 | Two balanced trees whose heights differ by at most two rebalance to a balanced tree no lower than the higher of them and at most one higher. |
| Rope.JoinIsBalanced | src/rope_buffer.rs:555-595 | A join of two valid ropes is valid, and as high as the higher of them or one higher. |
| Rope.SplitIsBalanced | src/rope_buffer.rs:509-553 | Both parts of a split of a valid rope are valid. |
| Rope.InsertIsBalanced | src/rope_buffer.rs:597-601 | Inserting a valid rope keeps validity. |
| Rope.DeleteIsBalanced | src/rope_buffer.rs:603-608 | Deleting keeps validity. |
| Rope.HeightIsLogarithmic | src/rope_buffer.rs:5-20 | A rope of height h holds at least Fib(h + 2) code points. |
| Build.BuiltBalance | src/rope_buffer.rs:423-455 | The rope built from a text is AVL if and only if its number of chunks packs: halving with rounding up never meets a number above 1 that is 1 modulo 4. |
| Build.FewChunksPack | src/rope_buffer.rs:442-453 | Up to four chunks always pack; five do not. |
| Build.BuiltHolds | src/rope_buffer.rs:423-455 | A built rope holds the text, in leaves neither empty nor over the limit. |
| Build.BuildRope | src/rope_buffer.rs:423-455 | The chunking and pairing loops build the specified rope. |
| Build.ChunkLeaves | src/rope_buffer.rs:432-440 | The leaves in order, each but the last of exactly 2048 code points, the last with the rest. |
| Build.PairUp | src/rope_buffer.rs:442-453 | Neighbours joined two by two, an odd last one carried over. |
| Buffer.InsertRefines | src/rope_buffer.rs:236-244 | An insert is the insert into the text; with a packing text it keeps validity. |
| Buffer.DeleteRefines | src/rope_buffer.rs:260-268 | A delete is the clamped delete from the text, and keeps validity. |
| Buffer.EditRefines | src/rope_buffer.rs:236-273 | The same for any one edit. |
| Buffer.CharAtNode | src/rope_buffer.rs:459-475 | The code point found down the tree is the one at that position of the text. |
| Buffer.CollectRange | src/rope_buffer.rs:477-505 | What is appended is exactly the slice of the text. |
| Buffer.CountBeforeIs | src/rope_buffer.rs:698-722 | Counting through cached numbers gives the newlines before the offset, clamped. |
| Buffer.NthNewlineRaw | src/rope_buffer.rs:729-758 | The tree's n-th newline search is the linear one. |
| Buffer.RopeBuffer.constructor | src/rope_buffer.rs:178-183 | An empty, valid rope. |
| Buffer.RopeBuffer.FromSlice | src/rope_buffer.rs:185-190 | A rope of the text. |
| Buffer.RopeBuffer.InsertCodePoints | src/rope_buffer.rs:236-244 | The contents become the insert into the old contents; validity is kept for packing texts. |
| Buffer.RopeBuffer.Delete | src/rope_buffer.rs:260-268 | The contents become the clamped delete from the old contents; validity is kept. |
| Buffer.RopeBuffer.Replace | src/rope_buffer.rs:271-273 | Delete, then insert. |
| Buffer.RopeBuffer.CharAt | src/rope_buffer.rs:226-233 | The code point at the position, or none past the end. |
| Buffer.RopeBuffer.Slice | src/rope_buffer.rs:308-320 | The clamped slice of the contents. |
| Buffer.RopeBuffer.NthNewline | src/rope_buffer.rs:724-727 | One past the n-th newline of the contents. |
| Buffer.RopeBuffer.StartOf | src/rope_buffer.rs:277-287 | The start of a line as a scan of the contents gives it. |
| Buffer.RopeBuffer.RangeOf | src/rope_buffer.rs:290-306 | The range of a line as a scan gives it. |
| Buffer.RopeBuffer.GetLine | src/rope_buffer.rs:324-330 | The text of a line, empty when there is none. |
| Buffer.RopeBuffer.ToLineCol | src/rope_buffer.rs:339-350 | Line and column as a scan gives them. |
| Buffer.RopeBuffer.ToOffset | src/rope_buffer.rs:353-360 | The offset as a scan gives it, clamped to the line. |
| Lines.NthIs | src/rope_buffer.rs:724-758 | The n-th newline has n newlines before it; there is none exactly when the text has too few. |
| Lines.LineIs | src/rope_buffer.rs:277-306 | Each line starts after its newline and ends at the next one or at the end, with exactly its number of newlines before both. |
| Lines.OffsetInLine | src/rope_buffer.rs:290-306 | An offset lies in a line if and only if that many newlines come before it. |
| Lines.LineColRoundTrip | src/rope_buffer.rs:339-360 | From line and column to the offset and back: the same line, the column clamped to the line. |
| Lines.PastTheLastLine | src/rope_buffer.rs:277-360 | A line past the last has no start and no range, and its offset is the end of the text. |
| Lines.LinesJoin | src/rope_buffer.rs:324-330 | The lines joined by newlines are the text. |
| Utf8.EncodeDecode | src/rope_buffer.rs:768-856 | Decoding the UTF-8 (section 3 of RFC 3629) of any scalar values gives them, a leading BOM dropped and CR and CR LF turned into newlines. |
| Utf8.DecodeBytes | src/rope_buffer.rs:768-844 | The decoding loop, malformed input included, computes the specified sequence. |
| Utf8.MalformedExactly | src/rope_buffer.rs:780-844 | Bytes that start with no character give U+FFFD for one byte, and only those; a character takes one byte, the two of CR LF, or as many as its lead byte announces. |
| Utf8.ReplacedExactly | src/rope_buffer.rs:846-858 | Surrogates and values past U+10FFFF are written as U+FFFD, and nothing else is but U+FFFD itself. |
| Utf8.NormalKeeps | src/rope_buffer.rs:780-789 | Line-end normalisation removes every CR, never lengthens, and is the identity without CR. |
| Division.TurnDivides | kernel/arith.masm:477-490 | One turn of the restoring division keeps remainder and quotient those of the dividend bits taken so far. |
| Division.TurnRemainder | kernel/arith.masm:477-490 | One turn brings in one dividend bit, for divisors up to 2^64 - 1. |
| Numbers.FewDigits | src/session.rs:58-60 | A number of n bits has at most n digits in any base: 128 bytes are enough. |
| Numbers.DigitReadsBack | src/session.rs:377 | A digit as `#` writes it is read back as itself by `>number`, up to base 36. |
| Numbers.DigitCharIs | src/session.rs:377 | The digits written are 0 to 9 and then A to Z. |
| Numbers.DigitIs | kernel/number.masm:196-211 | A character is a digit of a base if and only if it is 0 to 9, or a letter of either case (or what follows the letters), standing for a number below the base. |
| Numbers.DigitLetters | kernel/number.masm:196-211 | Up to base 36 the digits are exactly 0 to 9, A to Z and a to z. |
| Numbers.HoldBuffer.PicStart | kernel/numout.masm:5-9 | The buffer is empty again. |
| Numbers.HoldBuffer.Hold | kernel/numout.masm:12-20 | The character is put in front of what is held, nothing else changed. |
| Numbers.HoldBuffer.Sharp | src/session.rs:377 | `#` puts the last digit in front and leaves the quotient; base 0 gives the digit zero and quotient zero. |
| Numbers.HoldBuffer.SharpS | src/session.rs:378 | `#s` puts all digits in front, in every base in which it ends. |
| Numbers.HoldBuffer.PicEnd | kernel/numout.masm:41-48 | `#>` yields exactly what is held. |
| Numbers.UdMod | src/runtime.rs:494-504 | Exact remainder and double quotient; zeros for divisor zero. |
| Numbers.AccumulateIs | kernel/number.masm:187-236 | The two-cell multiply and carry are (acc * base + digit) mod 2^128. |
| Numbers.ToNumber | kernel/number.masm:187-236 | The digit loop takes the longest start of the text that is digits of the base, and leaves (acc * base + d) over all its digits, modulo 2^128, and the number of characters left. |
| Numbers.ScanAppend | kernel/number.masm:187-236 | Scanning goes on after a prefix exactly when the prefix is all digits. |
| Numbers.DigitsReadBack | kernel/number.masm:187-236 | Scanning the digits of any double after zero consumes all and gives the double. |
| Numbers.AnyCaseReadsBack | kernel/number.masm:187-236 | So does scanning them with any of their letters in lower case. |
| Calls.CatchRuns | kernel/exceptions.masm:19-61 | `catch` leaves the data stack of the normal return with 0, or the saved depth with the code in place of the token, and RP and HANDLER as they were; control goes on after it. |
| Calls.CallRuns | src/aenc.rs:52-77 | A call that ends normally goes on after it with the return stack and handler unchanged. |
| Calls.TailRuns | src/session.rs:2408-2447 | Unnest and branch to the callee ends where the call and return would. |
| Calls.PushDrop | kernel/exceptions.masm:19-61 | On the data stack with its cached top, dropping undoes pushing, and neither touches a deeper cell. |
| Calls.ThrownBelow | kernel/exceptions.masm:46-61 | Where a throw goes does not depend on what was pushed since the frame. |
| Dictionary.HashIsFolded | kernel/dict.masm:48-66 | Names alike under ASCII case folding have one FNV-1a hash. |
| Dictionary.FoldedIs | kernel/dict.masm:127-140 | Two names agree under folding if and only if they differ at most in the case of the letters A to Z. |
| Dictionary.CreatedSound | kernel/dict.masm:202-251 | Creating keeps the index sound: every node is linked to the previous one in creation order and in its bucket, and every bucket head is its newest node. |
| Dictionary.PeeledHeads | src/session.rs:1515-1524 | Peeling the newest node restores every bucket head to what it was before it. |
| Dictionary.TrimmedSound | src/session.rs:1525-1526 | With the heads of the first k entries and the pointers restored, the index is sound for those k. |
| Dictionary.StillRemembers | src/session.rs:1493-1508 | A snapshot stays usable after any further publishes. |
| Dictionary.Index.constructor | kernel/dict.masm:12-40 | An empty, sound index. |
| Dictionary.Index.Publish | kernel/dict.masm:45-87 | Traps exactly when the node would meet the headers; otherwise the node, 40 bytes below the last, is linked into the chain and into bucket FNV-1a modulo 512, and nothing else changed. |
| Dictionary.Index.Create | kernel/dict.masm:202-251 | Traps exactly when header or node does not fit; otherwise the history gains the entry, at the old HERE, and HERE moves past the 48 bytes, the name and one cell, rounded up to cells. |
| Dictionary.Index.Search | kernel/dict.masm:90-149 | For a name of 1 to 32 bytes the header of the newest entry of the wordlist with that name, up to the case of ASCII letters, and 0 if there is none; 0 for every other length. |
| Dictionary.Index.SearchOrder | kernel/dict.masm:152-178 | The first wordlist of the order that has such an entry answers; 0 if none has. |
| Dictionary.Index.Rollback | src/session.rs:1513-1527 | Every bucket head is that of the first k entries again; only heads and the two index pointers change. |
| Dictionary.Index.Snapshot | src/session.rs:1493-1508 | A marker that remembers the whole history. |
| Dictionary.Index.NodeOfHeader | src/session.rs:1562-1569 | Walking the creation chain finds the node of the header. |
| Dictionary.Index.Forget | src/session.rs:1549-1575 | Forgets exactly the found entry and everything newer; changes nothing when the name is not found. |
| Dictionary.Index.PublishAndRollback | src/session.rs:1513-1527 | Any publishes after a snapshot and the rollback leave every bucket head as it was. |
| Dictionary.HashName | kernel/dict.masm:48-66 | The byte loop computes the hash and the folded first byte. |
| Dictionary.SameName | kernel/dict.masm:127-140 | The byte loop tells whether two names agree under folding. |
| Loops.CrossingIsSignChange | src/aenc.rs:154-165 | On 64-bit cells, bit 63 of the xor of old and new difference is set exactly when the wrapped difference changes sign. |
| Loops.CrossedIs | src/aenc.rs:154-181 | The emitted test, in numbers: with the difference cell holding x and the step n, bit 63 of x11 is set exactly when x and x + n wrapped lie on different sides of zero. |
| Loops.LoopTurns | src/aenc.rs:154-181 | From inside the loop: the body runs exactly the least number of times at which the difference has changed sign, and the frame is dropped. |
| Loops.PlainTurns | src/aenc.rs:154-165 | `do … loop` runs its body -d times for the difference d below zero, and 2^63 - d times otherwise. |
| Loops.ZeroStepNeverEnds | src/aenc.rs:167-181 | With the step zero the loop never ends, whatever the fuel. |
| Signed.SignIs | src/aenc.rs:154-165 | Bit 63 of a cell is the sign of the number it holds in two's complement. |
| Signed.SumIs | src/aenc.rs:154-181 | Adding cells adds their numbers modulo 2^64. |
| Signed.ToIntIs | src/aenc.rs:154-181 | Every cell holds exactly its signed reading. |

## Left out

- Floating point: its window, its caches and its tokens; a deferred `f!` is not ordered against integer accesses.
- Locals, instance variables and object dispatch, and the pinning of loop variables: pins are taken as empty.
- Inlining of small words and the token vocabulary: a run is taken as the tokens it holds.
- Metrics, traces and reports of the optimizer: counters without effect on the code.
- Machine-word encodings other than the constant loads and the branch offset fields; condition flags are the two compared operands.
- The `used` array is a set of registers, and the iteration order of hash maps does not occur.
- Return-stack words such as `>r` and `r>` as tokens of their own: they are calls in the source too.
- Lowering.LoweredExactly: a token that does not fit in the middle of a run is not followed further; up to there the statement is exact, and `Limits.LongRunsFail` gives runs on both sides of it. At the final settle more than 4095 cells are not considered.
- Exactness.TransparentExactly: runs without calls, since a call may leave any depth; `Reduce.ReducedMeans` covers calls in the direction that matters.
- Ownership.PoolSuffices: a sufficient condition on the text alone; `Ownership.PoolExactly` is the exact one.
- Lowerers.Lower: the tokens have the forms the compiler builds; a shifted multiply, which the source never emits, is not among them.
- Colon.CompileColon: the same of the tokens the words add.
- Flow.GenSim: statements whose structured meaning ends, in bodies of fewer than 8192 instructions, the range of the shortest branch; nothing is said of loops that never end.
- Committed.DefinitionRuns: the words of the arena are assumed to leave the return stack as they find it and not to look below it; bodies have fewer than 8192 instructions, and their runs fit.
- Patching.CommittedBranches: bodies of fewer than 8192 instructions.
- Calls.WordRuns: primitives are arbitrary partial functions on the data side; `begin … until` and counted loops are not words of this program, and neither are the register window and the fused tests, which `Committed.DefinitionRuns` covers with called words taken as arbitrary functions; return-stack use inside a word is a local stack; a throw with no live handler is not modelled; floating and locals pointers are not restored by the source and not modelled.
- Loops.CountedTurns: the body ends normally and leaves the loop frame and the step as they are; a body with `leave` or `exit` has its meaning in `Flow.GenSim`, without a count.
- Dictionary.Index.Create: header fields other than the link and the name are left out, and the state after the trap.
- Dictionary.Index.RunMarker: the Rust-side tables and the code cursor that a marker also restores are left out.
- Dictionary.Index.PublishAndRollback: one wordlist; `Dictionary.Index.RunMarker` covers any history.
- Dictionary.Index.Forget: pruning of the Rust-side tables is left out.
- Numbers.HoldBuffer.SharpS: room for the digits is required, since the source does not check the buffer; base 1 does not end for a nonzero value and is excluded.
- `number?` with its prefixes and signs, `sign`, the single-cell printer, and the double-cell words built on the non-strict `du>`.
- The text iterators over ropes.
- JIT memory, signals, host hooks, files, time, the assembler, the workspace and other user interface.
