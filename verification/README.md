# DOIR: the entity store and its passes

DOIR is a compiler whose intermediate representation is a store of numbered entities.  An entity carries optional
components: a child list (`block`), the cached entity that lists it (`parent`), its references (type, called function,
inputs, alias, pointer base, return type), and its own data (name, flags, number, text, register).  Every pass edits
this one store in place.  This project models the store as a class `Module` with one growing table, models the passes
as methods on it, and proves what they are for.  `dafny verify dfyconfig.toml` checks all of it.

Main results, hardest first:

* **Inlining.**  The breadth-first inlining pass ends although it also visits the bodies it has just copied.  It makes
  exactly as many visits as its root weighs, no expansion changes the weight of anything, and no call that can still be
  reached asks for inlining afterwards, by itself or by its function's type (`InlinePass.InlineAll`).  All this asks only
  of the part of the module that the pass can get to; an acyclic inline call graph is enough for the weights
  (`Weights.AcyclicInv`).  One expansion is a simultaneous substitution without capture
  (`CaptureFree.ExpansionSubstitutes`, `CaptureFree.ArgumentKeptIff`), whatever order the rewriting table is gone through
  in (`Substitute.OrderIrrelevant`).
* **Sorting.**  The renumbering is a bijection and an isomorphism on every reference component that puts the parameters
  of functions first, by index (`Renumber.Sort`, `CanonicalForm.SortIsomorphism`).  It is idempotent, children come before
  parents with each subtree one interval, counting loop and tree walks make the same visits, and the emitted bytes stay
  the same (`Idempotence.SortIdempotent`, `Walk.SortedLoop`, `SortedRun.DumpBeforeAndAfter`).
* **Lookups.**  Exactly when the climb of a lookup ends, what it finds then, and that on sorted modules it always ends,
  at the innermost block that has the name (`NameLookup.EndsIff`, `NameLookup.LookupResolve`, `NameLookup.SortedLookup`).
* **Comptime.**  Started from flags that are justified, the sweeps stop in time and end in the least fixed point,
  independently of the order of visits (`ComptimeFlags.FixedPoint`).  From supported flags, none on any call in
  particular, every sweep only adds (`ComptimeFlags.EverySweepOnlyAdds`); from merely justified ones a sweep can take
  away (`ComptimeCases.JustifiedCanShrink`), and from others the loop may never stop (`ComptimeCases.RingNeverRests`).
* **Structure.**  The checks about one entity and its neighbours are enough to make the recursive check end and to make
  what it accepts a tree, in which every definition has the parameters of its function type (`Verify.Structure`,
  `Verify.DefinitionIff`); and every sequence of builder calls and edits keeps it a tree (`EditRuns.RunsKeepTree`).
* **Registers and emission.**  From any static state, exactly when the registers given out differ
  (`Registers.RegistersDifferIff`, `AllocatedPins.AllocatedDiffer`); what every entity has after pinning, allocating and
  pinning again (`PinSchedule.PinAllocatePin`); and a load, materialized, inlined and dumped, becomes sixteen bytes: the
  opcode that belongs to it and both operands, which can be read back (`LoadRun.LoadIsSixteenBytes`,
  `LoadDump.LoadDecodes`).
* **Text.**  Unescaping undoes escaping on all well-formed UTF-8 (section 4 of RFC 3629), and interned strings share a
  pointer exactly when they are equal (`PythonString.UnescapeEscape`, `Interner.InternAll`).

How to read it: `Store.dfy` has the entities; `Shapes.dfy` has `Forest`, the shape that hangs below an entity, with
`Rep` (child lists have that shape), `NoDup` (nothing occurs twice) and `Parents` (parent links agree).  Methods take
that shape as a ghost argument.  `Pre`, `Post` and `Bfs` are the three visiting orders of a shape.  One file models one
source file or one step of its argument; each begins by naming what it models.  Contracts of the passes state their
outcome twice: by the specification functions that the proofs use, and directly on the components of the entities.
The `Cases` files hold concrete modules and what the passes make of them.

Where the code does less than it is meant to, the model follows the code and names an input or the exact condition:

* The structure check has rules for aliases, but the branch that applies them never sets its result to true: a tree
  with an alias in it is not accepted (`Verify.AliasesAreRejected`).
* A lookup need not end on a module that is not sorted, even one the structure check accepts
  (`LookupCases.UnsortedLookupNeverEnds`).  `NameLookup.EndsIff` is the exact condition.
* The allocate pass starts again whenever it visits an id below five, also in the middle of a run, so two values in one
  sorted tree can get the same register (`RegisterCases.ClashInSortedTree`).  `Registers.RegistersDifferIff` is the
  exact condition.
* The exchange of return functions for yield functions reaches the aliases of arguments too, and the rewriting passes
  over pointers: `InlineCases.ExpandCalling` shows both on one call.  `CaptureFree.ArgumentKeptIff` and
  `CaptureFree.PointersAreNotRewritten` are the exact conditions.
* Copying drops some components, a register for one (`Verify.CopyLosesRegister`).  `Verify.CopyIsComplete` says for
  which accepted entities it drops nothing.
* What an operand used too early emits depends on the numbering (`SortedDump.EarlyUseDependsOnNumbering`).  That
  operands are defined before use is enough (`SortedDump.SortKeepsBytes`); it is not shown to be needed.
* The fixed point loop need not end: `ComptimeCases.RingNeverRests` has three calls in a ring, one of them flagged.
  Justified flags, or calls without cycles, are each enough for it to end; neither is shown to be needed.
* The default count of `inline_into` wraps around for an offset beyond the list; what is done then is undefined, and
  `Edits.InlineInto` says exactly when.
* The flags `Flatten` and `Tail` have the same bit, so they are one flag here.

## Model

| member | source | states |
|---|---|---|
| InlinePass.InlineAll | systems.hpp:56-77 | the breadth-first inlining pass ends after exactly weight(root) visits, keeps the invariant of the part it can get to and all old weights, and changes nothing outside the part; on any path down from the root no call has the Inline flag itself, and none resolves to a function whose type has it |
| InlinePart.ChildInside | systems.hpp:69-72 | a part that meets the invariant is closed under child lists, so the walker stays in it |
| InlinePart.MaskedInlined | opt/inline_functions.cpp:22-52 | an expansion in the module is the same expansion in the module seen without what lies outside the part |
| Inline.InlineFunctions | opt/inline_functions.cpp:11-53 | a call becomes its expansion, call and inputs gone and a block there, if and only if its own flags or those of the type of the function it resolves to contain Inline; everything else leaves the module alone |
| Inline.Expand | opt/inline_functions.cpp:22-52 | the new state entity by entity: the call and inputs are gone, aliases named after the parameters come first, then the renamed copy of the body without parameters, both rewritings are applied, only Export and Flatten stay of the flags, nothing else moves |
| InlineStep.StepKeeps | opt/inline_functions.cpp:11-53 | one expansion keeps the whole invariant of the pass for all entities, copies included, and changes the weight of none that existed |
| Inline.AssociatedParameters | interface.cpp:80-91 | lists, index by index, the first child that is that parameter, passing over indices nobody has |
| Inline.AssociatedAll | interface.cpp:80-91 | when every index has a child the list is aligned with the inputs: entry i is the first child with index i |
| Weights.InvInlinable | opt/inline_functions.cpp:16-36 | under the invariant each call resolves to a typed function and each marked call meets everything its expansion needs, its body being a tree that does not hold the call |
| Weights.WeightsUnique | opt/inline_functions.cpp:11-53 | the weight equations determine the weight of every entity |
| Weights.AcyclicHasWeights | opt/inline_functions.cpp:11-53 | if the inline call graph is acyclic, in that some rank falls along it, every entity has a finite weight |
| Weights.AcyclicInv | opt/inline_functions.cpp:11-53 | a regular module with an acyclic inline call graph meets the invariant of the pass |
| CaptureFree.ExpansionSubstitutes | opt/inline_functions.cpp:25-45 | each reference of a copied entity is the redirected reference of its source: copies to copies, parameter i to alias i, return functions to yield functions at the top level only, all else unchanged |
| CaptureFree.ParameterResolvesToArgument | opt/inline_functions.cpp:30-45 | parameter i is redirected to alias i, which resolves to what argument i resolved to before, or, for a return function, to what the yield function in its place did |
| CaptureFree.ArgumentKeptIff | opt/inline_functions.cpp:30-45 | the alias resolves to what the argument did if and only if the argument is not one of the two exchanged functions |
| InlineCases.ExpandCalling | opt/inline_functions.cpp:30-45 | a call passing indicate_return to a function with a pointer to its parameter: the alias, named a0, resolves to indicate_yield and the copied pointer still names the parameter |
| InlineCases.ExpandByType | opt/inline_functions.cpp:16-19 | a call without the flag of a function whose type has it is expanded, and keeps of its flags Export and Flatten |
| CaptureFree.PointersAreNotRewritten | module.cpp:31-68 | a copied pointer has the redirected base exactly when the base is no parameter and not one of the exchanged functions at the top level |
| Substitute.SubstituteEntities | module.cpp:103-112 | rewrites exactly the entities within the allowed depth, each by all entries of the table in turn |
| Substitute.SubstituteOne | module.cpp:32-68 | rewrites every reference component of one entity, entry by entry, in place |
| Substitute.SequentialIsSimultaneous | module.cpp:32-68 | when no replacement is itself replaced, going through the entries one after the other equals substituting all at once |
| Substitute.OrderIrrelevant | module.cpp:32-68 | then any two orders of iteration over the hash map have the same result |
| Substitute.OrderMatters | module.cpp:32-68 | without that condition there are entries and an entity for which two orders differ |
| Copy.DeepCopyBuildStructure | interface.copy.cpp:209-226 | fresh ids in pre-order with the original's child lists renamed, the two maps filled to match |
| Copy.CopyComponents | interface.copy.cpp:8-191 | nothing in the copy comes from elsewhere than the source, renamed; name, flags, type and the component that makes the entity's kind always come along; place in the tree stays |
| Copy.DeepCopyCopyComponents | interface.copy.cpp:193-207 | fills in every copied entity of the subtree and touches nothing outside the fresh range |
| Copy.DeepCopy | interface.copy.cpp:228-235 | a copy of the whole subtree on fresh ids whose root keeps the original's parent |
| Copy.CopyExisting | interface.copy.cpp:256-285 | copies of the source's children, parameters left out on request, are appended to the destination |
| Copy.CopyIsIsomorphic | interface.copy.cpp:193-235 | the substitution is a bijection from the originals in pre-order onto the fresh ids, child lists and parents are its image, and no entity that existed has changed |
| AcceptedCopy.AcceptedCopyIsFaithful | interface.copy.cpp:193-235 | for any subtree of an accepted module the copy is an isomorphic tree at the same parent, and each copied entity that has nothing to lose is the renamed original |
| Verify.CopyIsComplete | interface.copy.cpp:8-191 | for an accepted entity the copy is the renamed original if and only if the entity has none of the components copying drops |
| Verify.CopyLosesRegister | interface.copy.cpp:8-191 | an accepted entity with a register whose copy has none |
| Builder.PushCommon | interface.cpp:124-134 | a fresh entity with its parent set, listed last or first, named unless the name is an underscore |
| Builder.PushAlias | interface.cpp:372-379 | a fresh alias at the end of the block |
| Builder.PushNumber | interface.cpp:136-145 | a fresh typed number, flagged Comptime, at the end of the block |
| Builder.PushCall | interface.cpp:207-213 | a fresh typed call with its inputs at the end of the block |
| Store.FollowAliases | interface.resolve.cpp:183-187 | follows aliases to the end of the chain whenever there is one |
| Store.ResolveNone | interface.resolve.cpp:183-187 | a chain that has no end within as many steps as there are entities has none at all |
| SortWalk.StdSort | sema/canonicalize/sort.cpp:28-40 | the same children as often, in the order of the comparison |
| SortWalk.SortTreeWalk | sema/canonicalize/sort.cpp:18-108 | appends the post-order of the tree as it stands afterwards and marks its members found; of the tree every block that has a return type gets its parameters first, by index, then its other children by id; nothing else changes |
| SortWalk.Arranged | sema/canonicalize/sort.cpp:27-41 | rearranging the siblings of a tree leaves a tree with the same members |
| Renumber.Sort | sema/canonicalize/sort.cpp:110-144 | every entity gets a new id, one each, and keeps its data and, by the new ids, every reference; the child list of every block of the tree that has a return type has, by the old ids, the parameters first by index and then the others ascending, every other list is the renamed old one; walk, missing ids in ascending order and renumbering together give the canonical form |
| SortCases.SortBackwards | sema/canonicalize/sort.cpp:27-40 | a definition that lists another entity, its second parameter and its first in this order comes out with its first parameter, its second and then the other |
| Renumber.OrderPermutes | sema/canonicalize/sort.cpp:111-132 | the order lists every id there is, each once |
| Renumber.ReorderEntities | sema/canonicalize/sort.cpp:137-141 | entity order[i] becomes entity i, its data stays and every one of its reference components follows |
| CanonicalForm.SortIsomorphism | sema/canonicalize/sort.cpp:110-144 | renumbering is a bijection fixing the invalid entity, every reference of every kind follows its target, data stays, and the new tree is numbered consecutively in post-order |
| CanonicalForm.Interval | systems.hpp:104-112 | the members of a consecutively numbered shape are exactly one interval of ids |
| Idempotence.SortIdempotent | sema/canonicalize/sort.cpp:18-144 | with distinct parameter indices in each function a second sort computes the identity order and changes nothing at all |
| SortWalk.ParametersFirst | sema/canonicalize/sort.cpp:28-40 | sorted children have the parameters first, by index, then the others by id |
| Idempotence.SortedUnique | sema/canonicalize/sort.cpp:28-40 | with distinct parameter indices there is only one sorted order of the same children |
| SortedShape.SortKeepsWellFormed | sema/canonicalize/sort.cpp:110-144 | a linked tree stays a linked tree, numbered with children before parents |
| SortedShape.SortedLookups | interface.resolve.cpp:41-59 | after sorting the cached parent and the forward scan agree for everything below the root, and lookups end |
| Walk.DepthFirst | systems.hpp:15-48 | the explicit stack makes exactly the visits of the recursive post-order walk, in that order, and stops at the first that fails |
| Walk.SortedLoop | systems.hpp:85-127 | on canonical numbering the counting loop makes the same visits in the same order with the same outcome as the tree walk |
| Walk.SubtreeInterval | systems.hpp:104-112 | following first children leads to the low end of the interval a subtree occupies, and every child is below its parent |
| NameLookup.FindBlockIsLeast | interface.resolve.cpp:41-53 | the scan finds the least block from the start on that contains what it must, and none exactly when there is none |
| NameLookup.CacheAgreesWithScan | interface.resolve.cpp:41-59 | on a canonical tree the parent through the cache and the scan for the listing block are the same block for every entity but the root |
| NameLookup.LookupResolve | interface.resolve.cpp:97-141 | wherever its climb ends, the lookup gives the first match of the first block on the way that has the plain name, or commits to the first block with the first namespace and descends; otherwise nothing |
| NameLookup.EndsIff | interface.resolve.cpp:108-138 | the climb ends if and only if it comes to the top or to a block with what is looked for within as many steps as there are entities |
| NameLookup.SortedLookup | interface.resolve.cpp:97-141 | where parents have larger ids every lookup ends, and finds its name in the innermost enclosing block that has it |
| LookupCases.UnsortedLookupNeverEnds | interface.resolve.cpp:108-138 | a module that the structure check accepts in which no lookup from the root ends |
| NameLookup.LookupDotted | interface.resolve.cpp:107-129 | the climb for a dotted name commits to the first block on the way that holds the first namespace, even when the rest is not found there |
| NameLookup.LookupPlain | interface.resolve.cpp:131-140 | the climb for a plain name gives the first match of the first block on the way that has one, or nothing at the top |
| LookupCases.LookupNested | interface.resolve.cpp:107-140 | a plain name is found in the block around the start, not in the block that comes next by id; a dotted name in the namespace that the block around has |
| NameLookup.CanonicalParentsAbove | interface.resolve.cpp:97-141 | canonical numbering gives every block a parent with a larger id |
| FunctionScope.ResolveTypeModifications | interface.resolve.cpp:153-172 | strips modifier calls, then aliases, whenever that comes to an end |
| FunctionScope.FindFunctionInsideOf | interface.resolve.cpp:62-75 | the first entity on the way up to the root that has a return type or whose type, without modifiers, has one; nothing before it does, and there is none only if nothing on the way does |
| FunctionScope.FunctionLikeMoved | interface.resolve.cpp:62-75 | renumbering does not change which entities count as functions |
| Dump.ByteDumper.InterpretNumberAssign | temp_byte_dumper.hpp:13-38 | afterwards the table holds the entity's value, if it has one, and of all other entities what it held before; a value without a type is the only fault and changes nothing |
| Dump.ByteDumper.InterpretCall | temp_byte_dumper.hpp:40-57 | the bytes a call emits, nothing inside of a function, a fault where the table has no entry |
| Dump.ByteDumper.InterpretBlock | temp_byte_dumper.hpp:59-68 | the recursion over blocks computes the dump of the tree below, faults included |
| Dump.ByteDumper.Interpret | temp_byte_dumper.hpp:70-73 | the dump of the whole module, started on whatever the table holds |
| Dump.DumperEmitsMeaning | temp_byte_dumper.hpp:13-73 | where operands are defined before use the dumper succeeds and emits the meaning: the operand bytes of the emitting calls outside functions, in order, no table involved |
| DumpCases.FunctionsAreSilent | temp_byte_dumper.hpp:40-57 | of a block with a function the calls inside are silent; outside, emit gives the low byte of a number and the first byte of a text, emit_bytes a whole text |
| SortedDump.SortKeepsBytes | sema/canonicalize/sort.cpp:110-144 | for every module whose emitted operands are defined before use outside functions, the dump succeeds before and after sorting with the same bytes |
| SortedDump.EarlyUseDependsOnNumbering | temp_byte_dumper.hpp:49-55 | a module with an operand used before it is defined is dumped before renumbering and faults after it |
| SortedRun.SortKeepsDumpable | sema/canonicalize/sort.cpp:110-144 | all that the dumper asks of a module holds again after sorting, on the renumbered names |
| SortedRun.DumpBeforeAndAfter | temp_byte_dumper.hpp:70-73 | a dumper run before sorting and one run after it both succeed with the same bytes, where operands are defined before use |
| Verify.Structure | interface.verify.cpp:84-427 | the recursive check ends whatever the links are, and returns true if and only if what hangs below is a tree linked both ways all of whose entities keep the rules; in it what has a type has one kind of value, a call has inputs, and every definition has a child for each index of its function type, with as many names as inputs and the first such child named as they say |
| Verify.TypedIff | interface.verify.cpp:104-225 | an entity with a type is accepted if and only if it has one kind of value, or a return type and a block, none of the components of a type or alias, inputs if it is a call, flags that fit, and, if it is a function, one that fits its type |
| Verify.DefinitionIff | interface.verify.cpp:183-223 | a function fits its type if and only if that has inputs, names given are as many, and every index has a child, the first of which has the name given for it, if it has one |
| Verify.UntypedIff | interface.verify.cpp:227-377 | an entity without a type is accepted if and only if it is a type with a block, a return type or a pointer to a type, a namespace with a block, or a block at the top level, without the components of a value and with flags that fit |
| VerifyCases.AcceptFine | interface.verify.cpp:84-427 | the check accepts a module with a function type, a definition of it with a named parameter, a namespace, a type, a number and a call |
| VerifyCases.MisfitsRejected | interface.verify.cpp:191-222 | it throws if in that module the definition has no parameter, two names for it, or another name |
| VerifyCases.BrokenRejected | interface.verify.cpp:122-384 | and at values of no kind or of two, at a call without inputs, at types and namespaces with the wrong components or flags, and at blocks below the top level |
| Verify.LinkedIsTree | interface.verify.cpp:393-424 | parent links and lists that agree, with no list repeating, leave no entity in two blocks and no cycle |
| Verify.RankBound | interface.verify.cpp:393-424 | the way up to a parentless entity is shorter than the number of entities, which bounds the recursion |
| Verify.IdentifierStructure | interface.verify.cpp:38-75 | accepted exactly if what follows a percent sign is a number and the name is not reserved |
| Verify.IdentifierCases | interface.verify.cpp:38-75 | a percent sign needs a number behind it; type, alias and namespace are reserved where builtins are not allowed, and nothing else is |
| Verify.AliasesAreRejected | interface.verify.cpp:84-427 | nothing accepted has an alias anywhere in it |
| Edits.MoveExisting | interface.copy.cpp:239-254 | the source's children follow the destination's, the source is empty, all of them name the destination as parent, everything else stays |
| Edits.InlineInto | interface.cpp:44-57 | the slice is inserted at the offset with parents set, or nothing changes: one of three faults, each exactly when its guard in wrapping arithmetic says so, or undefined, exactly when the slice's end does not fit into a size |
| Edits.StripFreestandingBlocks | opt/strip_freestanding_blocks.hpp:8-23 | a freestanding unexported block leaves its parent's list, every other child keeps its place, anything else changes nothing |
| Edits.RegrowKeeps | interface.cpp:44-57 | replacing what hangs below one member by other trees apart from the rest keeps a linked tree |
| Edits.EditKeeps | interface.cpp:44-57 | any single-block edit keeps the whole tree well-formed |
| EditRuns.EditKeepsTree | interface.copy.cpp:239-285 | create, push, push of a pin pair, move, splice, copy and strip each keep the tree well-formed |
| EditRuns.RunsKeepTree | interface.cpp:124-134 | after any sequence of these operations what is reachable from the root is a linked tree |
| ComptimeFlags.BubbleComptime | sema/comptime.hpp:16-66 | one visit: a value is flagged if it was or if its resolved base type is a call to the comptime base type or a type that is always known; a call is flagged exactly if its inputs are, types counting as known, or if its function's type is; the changed flag is raised exactly when a flag changed, and nothing else is touched |
| ComptimeFlags.ResolveBaseType | interface.resolve.cpp:174-181 | follows aliases and pointers to the base type, which is neither, whenever that ends |
| ComptimeFlags.Sweep | systems.hpp:145-148 | a sweep reports no change exactly when the flags were a fixed point before it |
| ComptimeFlags.SweepOnlyAdds | sema/comptime.hpp:16-66 | from flags that have support a sweep in any order only adds flags, and they have support again |
| ComptimeFlags.EverySweepOnlyAdds | systems.hpp:142-151 | from supported flags every sweep of the loop only adds |
| ComptimeFlags.NoFlagsSupported | sema/comptime.hpp:16-66 | no flag on any call is a supported start |
| ComptimeCases.JustifiedCanShrink | sema/comptime.hpp:38-47 | justified flags that are not supported yet, of which the first sweep takes one away |
| ComptimeFlags.FixedPoint | systems.hpp:142-151 | from justified flags the loop stops after at most one sweep more than the number of entities visited, in the least fixed point: a visited value is flagged if and only if it was or its base type is a call to the comptime base type or always known, a visited call if and only if its inputs are by then or its function's type is, anything else is as it was; from supported flags nothing is ever lost |
| ComptimeFlags.NoFlagsJustified | sema/comptime.hpp:16-66 | no flag on any call is a justified start |
| ComptimeFlags.LeastUnique | sema/comptime.hpp:16-66 | the least fixed point depends on what is visited, not on the order |
| ComptimeCases.AcyclicSettles | systems.hpp:142-151 | without cycles among calls the sweeps reach the least fixed point from any flags at all |
| ComptimeCases.RingNeverRests | systems.hpp:142-151 | a ring of three calls with one flag changes in every sweep for ever |
| ComptimeCases.VisitTypes | sema/comptime.hpp:46-62 | values whose type is, or points to, a call to the comptime base type, or another name of a type that is always known, are flagged, and a call of one of them and a type; a plain value and a call with it are not |
| ComptimeCases.ValidateComptime | sema/comptime.hpp:69-95 | rejects exactly the flagged calls whose first input that is neither flagged nor a type is not the second one of register_for |
| ComptimeCases.ValidatedByFixedPoint | sema/comptime.hpp:68-96 | after the fixed point a flagged visited call with an unknown input is flagged by its function's type, and a call with known inputs is flagged |
| Allocate.Allocator.AllocateRegisters | opt/allocate_registers.hpp:12-54 | one visit: while allocation is on, a number, text or call without a register gets the next one, by a number and a pin call threaded in right behind it; ids below five start again, the call that begins allocation turns it on, anything else changes nothing |
| Allocate.MoveBehind | opt/allocate_registers.hpp:38-42 | twice taking the last of the list to the position behind the value leaves the two in their order and all others in theirs |
| AllocatePass.AllocateAll | opt/allocate_registers.hpp:12-54 | the pass ends after one visit for each entity of the original tree, pins are never visited, and each entity has the register its visit gave out |
| AllocatePass.PinsErased | opt/allocate_registers.hpp:37-42 | leaving out inserted entities gives back the original list in its order |
| AllocatePass.PinFollows | opt/allocate_registers.hpp:37-42 | a pinned value is followed at once by its number and its pin call |
| AllocatePass.OrderKept | opt/allocate_registers.hpp:37-42 | after the pass every block of the tree still has its old children in their old order |
| Registers.GivenIff | opt/allocate_registers.hpp:17-51 | a visit gives out a register if and only if it comes to a number, text or call without one, with an id of at least five, after a call that begins allocation, with no id below five in between |
| Registers.RegistersDifferIff | opt/allocate_registers.hpp:13-20 | from any static state the registers given out are pairwise different if and only if, for every two with a low visit between them, none comes before both and either the first is register 0 or the count after the low visit stays below where the numbers began |
| RegisterCases.ClashInSortedTree | opt/allocate_registers.hpp:16-20 | a sorted linked tree in which two values get register 1 |
| Registers.NoLowNoClash | opt/allocate_registers.hpp:13-20 | with no low id visited all registers differ, whatever the state before |
| PinRegisters.PinRegister | opt/pin_registers.hpp:14-41 | a pin call with three inputs whose third resolves to a number gives that number as its register to what the second resolves to; otherwise nothing changes, with a fault exactly for pin calls, by kind |
| PinRegisters.PinAll | opt/pin_registers.hpp:14-41 | after the pass every entity has the register of the last pin that names it, and all else is as before |
| PinRegisters.PinPassSettles | opt/pin_registers.hpp:14-41 | a second pass over the same pins changes no register, and everything pinned has one |
| AllocatedPins.AllocatedThenPinned | opt/allocate_registers.hpp:31-35 | after allocation and the following pin pass each entity has the register allocation gave it, and every other keeps the register it had |
| PinSchedule.PinAllocatePin | driver.cpp:95-99 | pin, allocate, pin on any module: what allocation gave is there, every other entity has the register of the last user pin naming it, or else the one it had |
| PinSchedule.AcceptedValuesPlain | interface.verify.cpp:84-427 | in an accepted module no value is an alias and every value says its type |
| AllocatedPins.AllocatedDiffer | opt/allocate_registers.hpp:31-35 | any two entities with new pins have different registers if and only if the condition on low visits holds for the tree's visits |
| Materialize.MaterializeImmediates | opt/mizu/materialize_immediates.hpp:18-98 | a load becomes a block with an inlined call of load_immediate_op or load_upper_immediate_op, as the called function is load_immediate or load_upper_immediate, then its register and immediate byte by byte and two zeros; it takes over the register of its constant; the three faults, each exactly when its guard says so, and what each leaves behind |
| LoadRun.LoadIsSixteenBytes | opt/mizu/materialize_immediates.hpp:50-94 | materializing a load and inlining its operation leaves a block that is dumped, for every register below 2^16 and immediate below 2^32, as exactly sixteen bytes: the text in the body of load_immediate_op or load_upper_immediate_op, as the call was, the register, the immediate low byte first, and two zeros |
| LoadCases.LoadSeven | mizu.doir:38-52 | loading 7 into register 3 is 06 00 00 00 00 00 00 00 03 00 07 00 00 00 00 00, and begins with 07 for the upper half |
| LoadDump.LoadMeans | mizu.doir:43-52 | the inlined block means its opcode, register and immediate bytes, and defines what it emits |
| LoadDump.LoadDecodes | temp_byte_dumper.hpp:40-68 | decoding the sixteen bytes gives back opcode, register and immediate |
| Utf8.AppendUtf8 | string_helpers.hpp:129-153 | succeeds for scalar values only, with the fault by kind; what is appended is one well-formed unit that decodes to the value |
| Utf8.DecodeUtf8 | string_helpers.hpp:188-212 | where a well-formed unit begins, gives its scalar value, steps over exactly that unit, and encoding the value gives the unit back |
| Utf8.EncodeDecode | string_helpers.hpp:188-212 | a well-formed unit of RFC 3629 section 4 decodes to a scalar value whose encoding is that unit |
| Utf8.DecodeEncode | string_helpers.hpp:129-153 | a scalar value's encoding is a well-formed unit that decodes to it, whatever follows |
| TextCases.UnitsOfEachLength | string_helpers.hpp:129-153 | one code point of each length and its bytes, and surrogates and too large ones without any |
| PythonString.EscapePythonString | string_helpers.hpp:298-339 | the loop computes the escape piece by piece, for all well-formed text |
| PythonString.UnescapePythonString | string_helpers.hpp:215-296 | the loop computes the unescape for every input, with the first fault met |
| TextCases.OctalEscape | string_helpers.hpp:283-292 | one to three octal digits stand for the byte they spell, modulo 256, further digits ending it |
| TextCases.LineContinuation | string_helpers.hpp:233 | a backslash before a line break stands for nothing |
| TextCases.HexEscape | string_helpers.hpp:245-253 | two hexadecimal digits, in upper or lower case, stand for the byte they spell |
| TextCases.CodePointEscape | string_helpers.hpp:255-265 | four hexadecimal digits, in upper or lower case, stand for the code point they spell, in UTF-8, or give its fault |
| TextCases.LetterEscape | string_helpers.hpp:234-243 | a, b, t, n, v, f and r stand for the bytes 7 to 13 by name, both ways, and quotes and the backslash for themselves |
| TextCases.OtherCharacters | string_helpers.hpp:324-328 | of the other ASCII characters those from the space to the tilde are not escaped, the rest as two lower-case digits |
| PythonString.UnescapeEscape | string_helpers.hpp:215-339 | unescaping undoes escaping for every well-formed UTF-8 text |
| PythonString.EscapeIsPrintable | string_helpers.hpp:298-339 | escaped text is printable ASCII throughout |
| PythonString.EscapeLexes | grammar.peg:28 | on escaped text and a closing quote the grammar's string rule takes exactly the escaped text |
| Interner.StringInterner.Intern | string_helpers.hpp:54-63 | a known string gets its old view and nothing changes; a new one gets a new view and all old ones keep their bytes |
| Interner.StringInterner.Allocate | string_helpers.hpp:84-96 | the bytes and a terminator, in bounds even when the string exceeds the block size, apart from every earlier view |
| Interner.StringInterner.Create | string_helpers.hpp:42-46 | a block size of zero is refused, any other gives an empty interner |
| Interner.StringInterner.Find | string_helpers.hpp:65-70 | finds exactly the strings that were interned |
| Interner.StringInterner.PointersAreContents | string_helpers.hpp:54-63 | two views have the same data pointer exactly when they show the same bytes, and do not overlap otherwise |
| Interner.InternAll | string_helpers.hpp:54-107 | over any sequence of strings, results share a pointer exactly when the strings are equal, all keep their contents, different ones are disjoint |
| ParameterRange.ParseParameterRange | diagnostics.cpp:65-127 | the one-pass scan finds parameter number n of the text split at its commas of depth zero |
| ParameterRange.ParametersChain | diagnostics.cpp:87-121 | successive ranges are ordered and exactly one comma apart, with no separator inside |
| ParameterRange.ParametersCover | diagnostics.cpp:76-124 | the ranges joined by commas are the whole text up to the closing parenthesis |
| ParameterRange.DepthIsBalance | diagnostics.cpp:79-108 | while nothing is closed that was not opened the depth is the number of ( [ { < less the number of ) ] } > |
| ParameterRange.InsideBrackets | diagnostics.cpp:79-121 | between any of ( [ { < and the place where as many are closed as opened since, no comma or parenthesis ends a parameter |
| ParameterRange.SecondParameter | diagnostics.cpp:65-127 | the second parameter of f(k(a,b),c), with the inner brackets of any of the four kinds, is c |
| ParameterRange.FoundIff | diagnostics.cpp:65-127 | a range is found exactly for the indices below the number of parameters |

## Left out

- Deleted entities and the free list: no pass of the repository frees an entity, so every id below the count is live.
- Unresolved lookups inside copying, rewriting and sorting, and the callback of `deep_copy`: references are modelled in the resolved form they have once `lookups_resolved` has passed.
- Names looked up by the passes (`compiler.emit`, `compiler.indicate_yield`, `compiler.assembler.pin_register` and the like) are parameters; after sorting they are the renumbered ones, and the order of static initialisation is not modelled.
- `long double` numbers are naturals; their truncation to a byte, to 16 and to 32 bits is modelled, rounding is not.
- `reorder_entities` belongs to libecrs, which is not part of this model: it is modelled from its call, which lists the components it remaps.
- `std::sort` may leave ties in any order; the model's sort is one that does, and what is proved uses only that the result is ordered and a permutation.
- Diagnostics are reduced to the kind of fault; message text, source locations and colours are not modelled.
- Reading a component that is not there is undefined behaviour in C++.  It is a precondition of the method, a fault, or, for the child list of a namespace without a block, the empty list.
- Reference invalidation while a child vector grows, and the reserve calls that guard against it.
- InlinePass.InlineAll: assumes, of the part of the module it can get to, that calls resolve to typed functions that are no parameters and whose types are not themselves calls to be expanded, that a marked call has a parameter for each of its inputs and passes none of its callee's own parameters, and that the exchanged compiler functions have the same type and an empty body.
- CaptureFree.ExpansionSubstitutes: is about one expansion in a module that meets the invariant; for a part of a module that is the module with everything else masked, as `InlinePart.MaskedInlined` has it.
- NameLookup.LookupResolve: takes the name already split at its dots, and strict lookups as the search from the block that contains the start.
- FunctionScope.FindFunctionInsideOf: assumes that chains of type modifiers end within as many steps as there are entities, and that the climb reaches a top, which holds below a linked root.
- Walk.DepthFirst: a visitor is a step on a state of its own; visitors that change the child lists under the walker are modelled with their passes instead.
- Walk.SortedLoop: the parallel branch for independent visitors, and the renumbering at the end of a walk, which is `Renumber.Sort`.
- AllocatedPins.AllocatedThenPinned: starts from a tree that a pin pass has settled; `PinSchedule.PinAllocatePin` starts from any.  Both leave out values that are aliases, which no accepted module has (`PinSchedule.AcceptedValuesPlain`).
- AllocatedPins.AllocatedDiffer: is about the registers given out by one run, not about registers a user pinned by hand, which the pass does not look at.
- LoadRun.LoadIsSixteenBytes: assumes a little-endian host, a call outside of functions, operations that are functions under their own names written as those of mizu.doir, with eight bytes of text, and types of the call and its operands that are themselves neither calls nor aliases nor functions.
- Verify.Structure: builtin names end where its context says they do, and the root has a way up to a parentless entity.
- `compute_compiler_namespace.cpp` (bitwise and, shift right, register for): it would only add easy members.
- `strip_value`, `prepend_to_names`, `clear` and the remaining `push_` functions: the same pattern as the builder operations that are there.
- The C++ string escapes, `materialize_aliases`, the parser, printing, file loading, the Mizu interpreter and the driver, of which only the pass order is used.
