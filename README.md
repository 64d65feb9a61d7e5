# Buffer unpacking, modelled in Dafny

This project models the buffer-unpacking pass of the Halide compiler
(`src/UnpackBuffers.cpp`). Before code generation, statements still refer to
runtime buffers: through variables that carry a buffer `Parameter` or a
`Buffer<>` literal, and through loads and stores. The pass rewrites such a
statement in three steps:

1. **Finding the buffers.** A walker, `FindBufferSymbols`, goes over the
   statement once. It records every referenced symbol name in `symbols`, and
   every buffer under its own canonical name in `buffers` (a handle variable
   `name.buffer` and a rank).
2. **Lowering and wrapping.** For each buffer, in ascending name order, the
   pass builds `5 + 3·rank` candidate lets, each bound to a runtime accessor
   call:
   - `host`, `dev`, `elem_size`, `host_dirty` and `dev_dirty`;
   - then `min.i`, `extent.i` and `stride.i` for every dimension `i`.

   It then pops the candidate list from the back. A candidate is wrapped
   around the statement only when its name is in `symbols`.
3. **Null checks.** For each buffer, again in ascending name order, the pass
   puts a "buffer is not null" assertion in front of the statement.

The files:

- `ir.dfy` (module `IR`) holds the IR. It is one closed datatype `Node`
  covering variables, loads, stores, calls, lets, assertions, blocks and a
  catch-all node with children. It also holds the parameter and buffer-literal
  records, and the decimal rendering of a dimension index.
- `find_symbols.dfy` (module `FindSymbols`) holds the walker. It is a class
  whose `symbols` and `buffers` fields its methods update in place. `Scan` is
  the same walk as a fold. `RefsOf`, `NamesOf` and `InfosOf` say without any
  state what the walk collects, and lemmas tie them to `Scan`.
- `name_order.dfy` (module `NameOrder`) holds the string order. The standard
  string comparison is `Below`, with its order laws. An ordered map walks its
  keys in `Sorted` order, and `SortedNames` is a loop proved to produce that
  walk.
- `unpack_buffers.dfy` (module `Unpack`) holds the pass. Lowering, wrapping
  and null checks are methods with the loops of the original. Each is proved
  equal to a specification function (`CandidatesOf`, `LetChain` of `Live`,
  `Guarded`). Lemmas about those functions give the shape of the output.

The model follows the code where it differs from what a reader might expect:

- **Map key.** An entry is filed under the parameter's or literal's own
  `name()`, not under the name it was referenced by. Only the reference name
  goes into `symbols`.
- **Later registration.** A later registration under the same name replaces
  the earlier entry.
- **One entry per load.** A load registers its buffer once, under that
  canonical name. It does not make one entry per `.host`/`.dev` suffix.
- **Stores.** A store looks only at its parameter.
- **Check order.** Each check wraps the statement built so far, while the
  names are visited in ascending order. So the check that runs first is the
  one for the greatest name (`FirstCheckIsGreatest`).

## Model

| member | source | states |
|---|---|---|
| `FindSymbols.FindBufferSymbols.constructor` | src/UnpackBuffers.cpp:63-65 | a fresh walker has no symbols and no buffers |
| `FindSymbols.FindBufferSymbols.VisitParam` | src/UnpackBuffers.cpp:24-32 | a reference through a parameter does something only when the parameter is defined and is a buffer: the reference name joins `symbols`, and the entry under the parameter's own name becomes handle `name.buffer` with the parameter's rank, replacing any earlier entry; otherwise nothing changes |
| `FindSymbols.FindBufferSymbols.VisitBuffer` | src/UnpackBuffers.cpp:34-42 | the same rule for a buffer literal, guarded by the literal being defined |
| `FindSymbols.FindBufferSymbols.Visit` | src/UnpackBuffers.cpp:44-61 | visiting a node leaves the walker in the state that the fold `Scan` gives: a variable registers its own name; a load registers `.host` then `.dev` through its parameter, then through its image, then visits its index; a store does the same through its parameter only, then visits its value and index |
| `FindSymbols.FindBufferSymbols.VisitAll` | src/UnpackBuffers.cpp:54 | visiting children one after another is the left-to-right fold over them |
| `FindSymbols.FindBuffers` | src/UnpackBuffers.cpp:71-72 | after one walk from empty, `symbols` is exactly `RefsOf(s)` and the keys of `buffers` are exactly `NamesOf(s)`; every entry describes the buffer it is filed under and is one that a buffer object of `s` makes |
| `FindSymbols.ScanCollects` | src/UnpackBuffers.cpp:24-61 | the walk adds exactly the referenced names (a variable's name; a load's `.host`/`.dev` through its parameter or image; a store's through its parameter) and exactly the canonical names of the defined buffer objects in the tree |
| `FindSymbols.ScanKeepsWellKeyed` | src/UnpackBuffers.cpp:27-30 | every entry the walk writes is filed under the canonical name of the object it came from; its handle is the variable `name.buffer` carrying that object, and its rank is that object's |
| `FindSymbols.ScanEntries` | src/UnpackBuffers.cpp:28 | after the walk, an entry under a name the tree mentions is an entry one of the tree's objects makes; an entry under any other name is unchanged |
| `FindSymbols.ScanSettles` | src/UnpackBuffers.cpp:28 | once a tree mentions buffer `k`, the entry the walk leaves under `k` is the same whatever state the walk started from: the tree's own latest registration overwrites anything filed before |
| `FindSymbols.LaterRegistrationWins` | src/UnpackBuffers.cpp:28 | in a block of two statements, a buffer the second one mentions gets the entry the second one registers on its own, replacing what the first registered |
| `FindSymbols.SecondParameterWins` | src/UnpackBuffers.cpp:28 | two buffer parameters sharing a name, referenced one after the other: the entry is the second parameter's |
| `NameOrder.BelowTransitive` | src/UnpackBuffers.cpp:76 | the string order that the buffer map is sorted by is transitive |
| `NameOrder.BelowTotal` | src/UnpackBuffers.cpp:76 | any two distinct names are ordered one way or the other |
| `NameOrder.BelowAsymmetric` | src/UnpackBuffers.cpp:76 | no two names are ordered both ways |
| `NameOrder.SortedLists` | src/UnpackBuffers.cpp:76 | the map's walk lists each key exactly once, in strictly ascending order |
| `NameOrder.Least` | src/UnpackBuffers.cpp:76 | the name picked is in the set and below every other member |
| `NameOrder.SortedNames` | src/UnpackBuffers.cpp:76 | the loop produces exactly the map's ascending walk of the keys |
| `Unpack.WalkBuffers` | src/UnpackBuffers.cpp:76-78 | the names listed are the map's keys in walk order, each paired with its entry |
| `Unpack.Push` | src/UnpackBuffers.cpp:83 | one `push_back` appends exactly the candidate of the field pushed, so the list stays the candidates of the fields pushed so far |
| `Unpack.LowerBuffer` | src/UnpackBuffers.cpp:79-115 | the five per-buffer pushes and the per-dimension loop append exactly the buffer's candidates |
| `Unpack.Lower` | src/UnpackBuffers.cpp:74-116 | the candidate list is the concatenation, in ascending name order, of every buffer's candidates |
| `Unpack.DimFieldsAt` | src/UnpackBuffers.cpp:101-115 | `n` dimensions give `3n` per-dimension fields; position `k` is field `k mod 3` (min, extent, stride) of dimension `k / 3` |
| `Unpack.FieldsLayout` | src/UnpackBuffers.cpp:81-115 | a buffer of rank `d` has exactly `5 + 3·max(d, 0)` fields: host, dev, elem_size, host_dirty, dev_dirty, then the (min, extent, stride) triples of dimensions `0 .. d-1` in ascending order; no field of dimension `d` or above appears |
| `Unpack.BufferCandidatesLayout` | src/UnpackBuffers.cpp:79-115 | a buffer's candidates, position by position: the five per-buffer accessor calls on the handle, then `name.min.i`, `name.extent.i` and `name.stride.i` bound to the accessor call with the handle and `i`, for `i` below the rank |
| `Unpack.CandidateName` | src/UnpackBuffers.cpp:81-112 | a candidate's name is its buffer's name followed by the field's suffix (`.host`, …, `.min.i`, `.extent.i`, `.stride.i`) |
| `Unpack.SuffixShape` | src/UnpackBuffers.cpp:81-112 | every suffix starts with a dot and is at least four characters long, and its second character is a lower-case letter other than `b` |
| `Unpack.SuffixDots` | src/UnpackBuffers.cpp:104-112 | a dot after the first character of a suffix (the one before a dimension index) is always followed by a digit |
| `Unpack.NamesApart` | src/UnpackBuffers.cpp:81-112 | a buffer name plus a suffix never spells a different, at least as long buffer name plus a suffix |
| `Unpack.CrossBufferDistinct` | src/UnpackBuffers.cpp:81-112 | candidates of two differently named buffers never bind the same symbol |
| `Unpack.CandidatesOfDistinct` | src/UnpackBuffers.cpp:76-116 | a walk over buffers with distinct names yields candidates with pairwise distinct names |
| `Unpack.CandidateNamesUnique` | src/UnpackBuffers.cpp:74-124 | the whole candidate list of the pass has pairwise distinct names, so each referenced symbol is bound by exactly one let |
| `Unpack.SuffixesDistinct` | src/UnpackBuffers.cpp:81-112 | different fields have different suffixes, including the same field of different dimensions |
| `Unpack.CandidateNamesDistinct` | src/UnpackBuffers.cpp:81-112 | different fields of one buffer bind different symbols |
| `Unpack.FieldsDistinct` | src/UnpackBuffers.cpp:81-115 | the lowering of one buffer emits no field twice |
| `Unpack.BufferCandidateNamesDistinct` | src/UnpackBuffers.cpp:79-115 | one buffer's candidates bind pairwise distinct symbols |
| `Unpack.OwnNamesAreNoCandidates` | src/UnpackBuffers.cpp:29 | neither the buffer's own name nor its handle name `name.buffer` is one of its candidate names |
| `Unpack.CandidatesAppend` | src/UnpackBuffers.cpp:76 | the candidates of two consecutive groups of buffers are those of the first group followed by those of the second, so each buffer's candidates stay together in name order |
| `Unpack.WrapLive` | src/UnpackBuffers.cpp:118-124 | draining the list from the back yields the lets of exactly the referenced candidates, nested in list order around the original statement |
| `Unpack.LiveMembers` | src/UnpackBuffers.cpp:121 | a candidate gets a let if and only if its name is referenced |
| `Unpack.NoneLive` | src/UnpackBuffers.cpp:121 | when no candidate name is referenced, no let is produced |
| `Unpack.LiveAppend` | src/UnpackBuffers.cpp:118-124 | keeping the referenced candidates preserves their order |
| `Unpack.LetChainAt` | src/UnpackBuffers.cpp:122 | `k` levels into the lets is the let of the `k`-th kept candidate (the earliest is outermost), and below the last let is the unchanged original statement |
| `Unpack.AddNullChecks` | src/UnpackBuffers.cpp:126-134 | the checks loop wraps one check per buffer, visiting names in ascending order, each check around what came before |
| `Unpack.GuardedAt` | src/UnpackBuffers.cpp:127-134 | `k` blocks down is the not-null check of the `k`-th buffer from the end of the walk, and below all of the checks is the wrapped statement |
| `Unpack.EntriesLayout` | src/UnpackBuffers.cpp:76 | the map's walk visits every buffer once, with its own entry, in strictly ascending name order |
| `Unpack.EntriesOfProgram` | src/UnpackBuffers.cpp:126-134 | there is one check per canonical buffer name found in the program, whether or not any of its fields is referenced |
| `Unpack.UnpackBuffers` | src/UnpackBuffers.cpp:70-137 | the pass returns the checks of the map's walk around the referenced candidates' lets around the input statement |
| `Unpack.UnpackedAssembles` | src/UnpackBuffers.cpp:70-136 | the lets kept are exactly those whose names the program references (`RefsOf`) |
| `Unpack.GreatestOutermost` | src/UnpackBuffers.cpp:127-134 | for a walk in ascending order, the outermost block is the check of the greatest name |
| `Unpack.FirstCheckIsGreatest` | src/UnpackBuffers.cpp:127-134 | the output begins with the not-null check of the greatest buffer name in the program |
| `Unpack.CandidateValue` | src/UnpackBuffers.cpp:82-113 | a candidate's value is an accessor call on the handle (with the dimension index for per-dimension fields), and contains no other call |
| `Unpack.SameValueSameName` | src/UnpackBuffers.cpp:29 | two candidates of well-filed buffers with the same call bind the same symbol name, because the handle variable `name.buffer` identifies the buffer |
| `Unpack.GuardedOccurs` | src/UnpackBuffers.cpp:129-132 | the not-null checks contain no accessor call |
| `Unpack.DeadCandidateNotWrapped` | src/UnpackBuffers.cpp:118-124 | for any walk of well-filed buffers, the call of a candidate whose name is not referenced appears nowhere in the output, unless the input statement already held it |
| `Unpack.DeadCandidateNotEmitted` | src/UnpackBuffers.cpp:118-124 | the same for the whole pass: metadata that the program does not reference is never computed |
| `Unpack.BareReferenceOnlyChecked` | src/UnpackBuffers.cpp:44-47 | a buffer parameter referenced once, under any name that is not one of its candidate names, yields exactly its not-null check around the input and no let |
| `Unpack.BareNameOnlyChecked` | src/UnpackBuffers.cpp:44-47 | in particular, a reference by the parameter's bare name yields only its check |
| `IR.Decimal` | src/UnpackBuffers.cpp:104 | the decimal text of a dimension index is a non-empty string of digits, one digit long exactly below ten |
| `IR.DecimalValue` | src/UnpackBuffers.cpp:104 | the digits denote the index (`DigitsValue`), with no leading zero |
| `IR.DecimalInjective` | src/UnpackBuffers.cpp:104 | two indices have the same text if and only if they are equal |

## Left out

- Types are not modelled: `type_of<buffer_t *>()`, `Int(32)`, `Bool()`, `type_of<void *>()`, `type_of<uint64_t>()` and the call type `Call::Extern` are dropped from nodes.
- The runtime accessors (`buffer_get_host` and the others, `buffer_is_not_null`, `halide_error_buffer_argument_is_null`) are opaque `Callee` constructors and are never interpreted. What an assertion does at run time (aborting) is not modelled, so order of execution is stated only as the position of each check in the block chain.
- The base visitor (`IRVisitor`) and the full IR hierarchy are not part of this model. Every other node kind is the catch-all `Other` node, which only visits its children. The order in which the base visitor goes over children is taken to be: a load's index; a store's value, then its index; a let's value, then its body; an assertion's condition, then its message; a block's first, then its rest; a call's arguments, left to right.
- `Decimal` covers only non-negative numbers: the lowering loop's index starts at 0. Integers are unbounded. A 32-bit `int` index never wraps in this loop, because it stays below the buffer's rank.
- `test/generator/stubtest_generator.cpp` is not part of this model. It is a front-end test generator with no logic of the pass.
