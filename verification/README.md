# A model of the shader compiler and its neighbours

This project models, in Dafny, the parts of the graphics translation layer whose guarantees span
several functions, and proves what those parts are for. `dafny verify dfyconfig.toml` checks all of it.

**Control flow** (`Shader`, `FlowGraph`, `Structured`, `BuilderSpec`, `Layout`, `BuilderLayout`,
`Simulation`, `Sealing`, `Programs`, `BuilderAccepts`, `ControlFlow`, `InlineSpec`, `Inlining`,
`Traversal`, `Compilation`, `Hull`, `HullTranslation`, `Trapping`, `Limits`, `DeadCalls`). A flat stream of structured opcodes is turned in one
pass into a graph of basic blocks, with stacks of pending join, break and continue blocks and pointers
kept into terminators that are completed later. Calls are removed by cloning callee graphs in up to 32
rounds, and the result is walked depth first and emitted. Shader code is a tree with a fuel-indexed
meaning; a graph runs one instruction or terminator at a time. A thread is the value every operand has
after every sequence of executed instructions, so the theorems hold for all data, all thread ids and
all loop counts. The state machine the passes implement is written down as functions on values
(`BuilderSpec`, `InlineSpec`); the classes and methods are proved to compute it, and the theorems are
about it. `Compilation.Translate` joins all of it: from the opcode stream to emitted code that ends
or goes on exactly as the structured program does, and `HullTranslation.TranslateHull` does so for
hull shaders.

**Geometry stage** (`GeometryStrips`, `GeometryWarps`). Emit and cut move three counters over a mesh
whose vertices, per-primitive data and indices they write ahead of knowing whether a primitive will be
complete; the mesh they leave is strip assembly as section 13 of the Direct3D 11.3 Functional
Specification describes it. On the input side a draw is split over groups of 32 threads by two tables
that live in different components. The vertex half of a group is taken in lock step up to its barrier.
Bit masks are sets of bit positions below 32.

**Tessellation** (`Tessellation`, `Workloads`, `WorkloadPlaces`, `WorkloadSizes`). Searches over patches
per group and tessellation factor make a payload and a mesh fit that are laid out elsewhere, later; at
run time another program cuts each patch into strips between the corners of its rings and fills them. Factors are real numbers: every float operation of the searches (subtracting one or two
from a factor of at most 64, rounding up, clamping) is exact.

**Binding, tokens, containers, lists** (`RootBinding`, `OperandTokens`, `BlobContainer`, `Signatures`,
`OverrideList`). Root signatures resolve registers to descriptor slots and argument-buffer fields;
operands are parsed recursively; a container of blobs, a signature of up to four streams and a list of
DLL overrides are read in one pass each and compared with an independent definition.

Where the code does not do what it is for on every input, a lemma gives the exact condition:
`Limits` (anything behind a top-level return of the main body or of a function, and a main body
without one before a label), `HullTranslation` (functions in a hull shader), `DeadCalls` (calls behind
a break, continue or ret), `GeometryWarps.SplitsOnceIffDrawable` (draws whose last thread number wraps), `GeometryWarps.AdjacencyLoads` and `GeometryWarps.OneTriangleTooMany`
(triangle-adjacency strips), `Workloads.RoundsApart` (powers of two with a fractional clamp: the compiler
truncates, the run-time library rounds up), `WorkloadSizes.QuadFits`, `WorkloadSizes.TriangleVertices` and
`WorkloadSizes.QuadVertices` (integer partitioning only), `WorkloadPlaces.QuadBorder` (a quad whose edges are
not to be cut and whose inside is a single row is cut along it, edges included), `BlobContainer.BlobInside` and
`BlobContainer.IndexBehind` (the guards compute in 64 bits what is compared in 32), and
`Signatures.UncheckedStream` and `Signatures.WrittenFits` (streams out of order). The payload a tessellation pipeline lays out always fits
(`Tessellation.PipelinePayload`): `Tessellation.UncoveredPayload` says what an odd cap would do, which no
pipeline hands over.

Some comments in the source promise more than the code does, and the model follows the code: the one at
`dxbc_converter_ts.cpp` 155-158, that the returned factor reserves enough space for the output mesh
(see `WorkloadSizes.TriangleVertices`); those at `BlobContainer.cpp` 71 and 75, whose overflow tests
cannot fail where sizes are 64 bits wide (see `BlobContainer.AcceptedOutside`); and the one at
`dxbc_converter_gs.cpp` 441-453, six primitives for 16 vertices, where the masks let seven through
(see `GeometryWarps.OneTriangleTooMany`).

## Model

| member | source | states |
|---|---|---|
| `Structured.CodeStaysInScope` | source/dxmt-adx12/src/airconv/dxbc_converter_cfg.cpp:151-174 | Well-nested code only ends by a break or continue where its scope has a loop or switch for it, for every program, thread and fuel. |
| `BuilderSpec.ProcessAppend` | source/dxmt-adx12/src/airconv/dxbc_converter_cfg.cpp:102-106 | Reading a stream is reading its parts one after the other. |
| `BuilderSpec.StepInBounds` | source/dxmt-adx12/src/airconv/dxbc_converter_cfg.cpp:77-96 | Every opcode keeps all block numbers on all stacks, in the entry table and in the call list within the block list. |
| `BuilderLayout.BuildCode` | source/dxmt-adx12/src/airconv/dxbc_converter_cfg.cpp:102-252 | Whatever state the builder is in, reading well-nested code lays it out from the current position exactly as Layout places it, leaves every stack as it was, records exactly its call sites and changes no older block but the current one. |
| `BuilderLayout.BuildIf` | source/dxmt-adx12/src/airconv/dxbc_converter_cfg.cpp:108-131 | The same for if without else: the pending join block becomes the current one. |
| `BuilderLayout.BuildIfElse` | source/dxmt-adx12/src/airconv/dxbc_converter_cfg.cpp:108-131 | The same for if/else: the old join becomes the alternative and a fresh block the join. |
| `BuilderLayout.BuildLoop` | source/dxmt-adx12/src/airconv/dxbc_converter_cfg.cpp:134-150 | The same for loops: back edge to the entrance, break and continue targets pushed and popped. |
| `BuilderLayout.BuildSwitch` | source/dxmt-adx12/src/airconv/dxbc_converter_cfg.cpp:175-212 | The same for switches: the dispatch terminator ends up with exactly the clauses' blocks although it is filled in through a kept pointer, later. |
| `BuilderLayout.BuildClauses` | source/dxmt-adx12/src/airconv/dxbc_converter_cfg.cpp:186-205 | Clauses are entered from the dispatch and by fall-through from the clause before; duplicate case values keep the first. |
| `Simulation.SimCode` | source/dxmt-adx12/src/airconv/dxbc_converter_cfg.cpp:102-252 | Code laid out in a graph is simulated: a structured run with any fuel is matched by a run of the graph that arrives where the outcome says, with the same trace, or has run at least fuel steps. |
| `Simulation.SimLoop` | source/dxmt-adx12/src/airconv/dxbc_converter_cfg.cpp:134-174 | The same for loops, over any number of iterations. |
| `Simulation.SimClauses` | source/dxmt-adx12/src/airconv/dxbc_converter_cfg.cpp:186-212 | The same for switch clauses with fall-through; continue inside a switch leads to the enclosing loop. |
| `Simulation.DispatchPicks` | source/dxmt-adx12/src/airconv/dxbc_converter_cfg.cpp:193-203 | The dispatch terminator leads to the clause the structured switch enters: first matching case, else last default, else the end. |
| `Simulation.SimCall` | source/dxmt-adx12/src/airconv/dxbc_converter_cfg.cpp:296-313 | A call runs the callee's blocks on a return stack and comes back to the return point. |
| `Programs.CompiledShape` | source/dxmt-adx12/src/airconv/dxbc_converter_cfg.cpp:102-313 | The finished graph holds the main body and every labelled function, its entry table is theirs, and its call list is exactly the call sites. |
| `Programs.FollowMain` | source/dxmt-adx12/src/airconv/dxbc_converter_cfg.cpp:214-232 | A main body laid out over any return block is followed for any fuel, into that block and out of the shader. |
| `Programs.FollowProgram` | source/dxmt-adx12/src/airconv/dxbc_converter_cfg.cpp:102-252 | Any fuel's worth of the structured program is followed by the compiled graph to the same trace. |
| `Programs.CompilationPreservesMeaning` | source/dxmt-adx12/src/airconv/dxbc_converter_cfg.cpp:102-252 | For every well-nested program and thread the graph, run from the entry block, halts with a trace if and only if the structured program ends with it. |
| `Programs.CompilationPreservesDivergence` | source/dxmt-adx12/src/airconv/dxbc_converter_cfg.cpp:102-252 | Programs that do not end are followed for ever: the graph reaches every trace they have, still running. |
| `Programs.CompilationCloses` | source/dxmt-adx12/src/airconv/dxbc_converter_cfg.cpp:75-96 | Every block of the finished graph has a defined terminator that leads to owned blocks only, never to the void block; blocks that end in a call are exactly those on the call list, once each. |
| `Sealing.SealCode` | source/dxmt-adx12/src/airconv/dxbc_converter_cfg.cpp:102-252 | The same for any piece of laid-out code, region by region. |
| `BuilderAccepts.StreamAccepted` | source/dxmt-adx12/src/airconv/dxbc_converter_cfg.cpp:102-313 | Reading a well-nested program never pops an empty stack and never writes through a pointer to a terminator that was replaced meanwhile. |
| `DeadCalls.ReadVoid` | source/dxmt-adx12/src/airconv/dxbc_converter_cfg.cpp:306-313 | For every stream with calls in dead code: the void block is on the call list once for each of them, and ends in a call if and only if a call was the last opcode to give it a terminator. |
| `DeadCalls.DeadCallsDoHarm` | source/dxmt-adx12/src/airconv/dxbc_converter_cfg.cpp:679-691 | The pointer kept into the void block is good when the inliner comes to it if and only if there is no such call, or just one and nothing behind it gives the void block another terminator. |
| `ControlFlow.Builder.Read` | source/dxmt-adx12/src/airconv/dxbc_converter_cfg.cpp:102-658 | One turn of the opcode loop is one step of the specification, on all fields, and keeps all numbers in bounds. |
| `ControlFlow.Builder.ReadStream` | source/dxmt-adx12/src/airconv/dxbc_converter_cfg.cpp:102-671 | The whole loop and the closing of the last block produce the state the theorems above are about. |
| `Limits.TopLevelReturnMustBeLast` | source/dxmt-adx12/src/airconv/dxbc_converter_cfg.cpp:214-232 | A program with anything well-nested behind the rets of its main body and its functions (straight-line code, nested constructs, calls, further rets) is compiled correctly for a thread for which it ends if and only if what stands there adds no instruction and no terminator and the thread does not run off the end of a main body that functions follow without a ret. |
| `Limits.ReturnMustBeLast` | source/dxmt-adx12/src/airconv/dxbc_converter_cfg.cpp:214-232 | Where no such main body lacks its ret, the condition can be read off the program: nothing behind any top-level ret. |
| `Limits.SidesAll` | source/dxmt-adx12/src/airconv/dxbc_converter_cfg.cpp:102-313 | Such a stream never makes the builder pop an empty stack or patch a replaced terminator; the blocks read behind rets belong to the main body, the functions' keep to themselves, and the return block ends the shader only if all that stands behind rets is straight-line code. |
| `Limits.TrailingControlNeverEnds` | source/dxmt-adx12/src/airconv/dxbc_converter_cfg.cpp:660-671 | With any control flow behind any top-level ret no thread ever ends, since the return block's exit is overwritten and none is left outside calls. |
| `Trapping.ReadTidy` | source/dxmt-adx12/src/airconv/dxbc_converter_cfg.cpp:102-252 | Read opcode by opcode, a body's code never leads the main body to a function's block or to the void block, adds no exit, and unless it is straight-line code takes the return block's exit away if it starts there. |
| `Limits.TrailingCodeRuns` | source/dxmt-adx12/src/airconv/dxbc_converter_cfg.cpp:219-225 | Straight-line code behind rets lands in the return block, whichever function's ret it stands behind: a thread ends if and only if the program does, other than off a main body's open end, and has then executed all that code as well. |
| `Limits.MainUnfinished` | source/dxmt-adx12/src/airconv/dxbc_converter_cfg.cpp:296-305 | A main body without a ret leaves its last block without a terminator when a label follows. |
| `InlineSpec.StepRelated` | source/dxmt-adx12/src/airconv/dxbc_converter_cfg.cpp:693-735 | One step of the graph with a return stack and the steps of the graph with one call inlined stay in lockstep, inside and outside the clones. |
| `InlineSpec.InliningPreserves` | source/dxmt-adx12/src/airconv/dxbc_converter_cfg.cpp:679-744 | Inlining one call keeps the behaviour of every run from the entry block of every thread, function bodies included. |
| `InlineSpec.InliningKeepsLayers` | source/dxmt-adx12/src/airconv/dxbc_converter_cfg.cpp:679-744 | Bodies stay closed layers although they are themselves rewritten: a body that held the call absorbs the clones. |
| `InlineSpec.InliningListsCalls` | source/dxmt-adx12/src/airconv/dxbc_converter_cfg.cpp:736-742 | After a call is inlined the blocks that end in calls are exactly the old ones without it and the clones recorded, once each. |
| `InlineSpec.InliningLowersRank` | source/dxmt-adx12/src/airconv/dxbc_converter_cfg.cpp:673-747 | Calls found while cloning go to functions lower in the call graph than the call they replace. |
| `InlineSpec.InliningKeepsShape` | source/dxmt-adx12/src/airconv/dxbc_converter_cfg.cpp:679-744 | Inlining changes no block but the call's own, leaves no edge out of the graph, and no block undefined if none was. |
| `InlineSpec.WalkComplete` | source/dxmt-adx12/src/airconv/dxbc_converter_cfg.cpp:695-743 | When the cloning walk's stack is empty, the clones hold the callee's entry and everything it leads to, each with its code and redirected terminator; every new block is such a clone, and the recorded calls are exactly theirs. |
| `InlineSpec.RoundsDone` | source/dxmt-adx12/src/airconv/dxbc_converter_cfg.cpp:673-675 | When the call list is empty no block ends in a call. |
| `Inlining.Clone` | source/dxmt-adx12/src/airconv/dxbc_converter_cfg.cpp:683-691 | A block is copied once; a second request returns the same clone. |
| `Inlining.WalkOn` | source/dxmt-adx12/src/airconv/dxbc_converter_cfg.cpp:695-743 | One turn of the walk finishes one clone and queues its successors. |
| `Inlining.WalkAll` | source/dxmt-adx12/src/airconv/dxbc_converter_cfg.cpp:695-743 | The walk terminates, since each turn meets a new block of the callee or shortens the work list, and ends with every clone finished and no older block changed. |
| `Inlining.InlineCall` | source/dxmt-adx12/src/airconv/dxbc_converter_cfg.cpp:679-744 | One call is replaced by a clone of its callee; the new graph stands in the relation the preservation theorem needs. |
| `Inlining.InlineRound` | source/dxmt-adx12/src/airconv/dxbc_converter_cfg.cpp:673-747 | One round inlines every listed call; the calls it leaves go to functions of lower rank. |
| `Inlining.InlineCalls` | source/dxmt-adx12/src/airconv/dxbc_converter_cfg.cpp:673-747 | Within 32 rounds no call is left, and every run behaves as before the first. |
| `Traversal.Visit` | source/dxmt-adx12/src/airconv/dxbc_converter_basicblock.cpp:463-508 | The worklist ends on every graph, cyclic or not, and lists exactly the blocks reachable from the entry, once each, entry first, so every successor lookup finds an entry. |
| `Traversal.EmitAll` | source/dxmt-adx12/src/airconv/dxbc_converter_basicblock.cpp:519-622 | Emission fails if and only if a listed block has no terminator or ends in a call, with the error of the first such block; otherwise every block is emitted with its code and renumbered terminator. |
| `Traversal.ConvertBlocks` | source/dxmt-adx12/src/airconv/dxbc_converter_basicblock.cpp:454-626 | It fails if and only if a reachable block has no terminator or ends in a call, each error only if there is a reachable block of its kind; otherwise the emitted code runs step for step as the graph does, on every thread. |
| `Traversal.StepLowered` | source/dxmt-adx12/src/airconv/dxbc_converter_basicblock.cpp:524-617 | One step of the emitted code, terminator by terminator, is one step of the graph. |
| `Compilation.RoundReady` | source/dxmt-adx12/src/airconv/dxbc_converter_cfg.cpp:673-677 | Whatever the builder leaves, unfinished blocks included, meets the inliner's invariant before its first round if its call list is right and its call graph acyclic and at most 32 deep. |
| `Compilation.FirstRound` | source/dxmt-adx12/src/airconv/dxbc_converter_cfg.cpp:673-677 | A compiled program with such a call graph meets it with no unfinished block. |
| `Compilation.Compile` | source/dxmt-adx12/src/airconv/dxbc_converter_cfg.cpp:64-750 | For every well-nested program whose functions can be ranked below 32, reading and inlining end with a graph without calls or open blocks in which a thread halts with a trace if and only if the structured program ends with it. |
| `Compilation.Translate` | source/dxmt-adx12/src/airconv/dxbc_converter_basicblock.cpp:454-626 | On top of that emission never fails: neither of its two errors is reachable; the emitted code halts with a trace if and only if the structured program ends with it, and follows a program that does not end to every trace it has, still running. |
| `Hull.BuildPhases` | source/dxmt-adx12/src/airconv/dxbc_converter_cfg.cpp:254-295 | Phases that end in a top-level ret are laid out one behind the other, each with its guard, body and barrier block. |
| `Hull.FollowHull` | source/dxmt-adx12/src/airconv/dxbc_converter_cfg.cpp:214-242 | Any fuel's worth of the phases is followed by the compiled hull graph. |
| `Hull.HullPreservesMeaning` | source/dxmt-adx12/src/airconv/dxbc_converter_cfg.cpp:254-295 | The hull graph halts with a trace if and only if the phases, run in order with a barrier after each, end with it. |
| `Hull.EveryThreadPassesEveryBarrier` | source/dxmt-adx12/src/airconv/dxbc_converter_cfg.cpp:214-242 | The barriers a thread that reaches the end has executed are exactly the phases' own sync blocks, each once and in order, then the copying epilogue's if there is one, whatever its id, its data, its early returns or the instance counts; each is counted by the barrier instruction executed there. |
| `Hull.HullCopiesOut` | source/dxmt-adx12/src/airconv/dxbc_converter_basicblock.cpp:575-610 | A thread that ends a hull shader with a copying epilogue has executed a barrier last, whatever its id, and right before it the copy of a control point if and only if its id is below their number. |
| `HullTranslation.HullShapeWith` | source/dxmt-adx12/src/airconv/dxbc_converter_cfg.cpp:254-313 | The graph of a hull shader with labelled functions holds the phases, then the functions, calls included, and its call list is exactly their call sites. |
| `HullTranslation.HullCloses` | source/dxmt-adx12/src/airconv/dxbc_converter_cfg.cpp:254-295 | Every block of a hull shader's graph, calls, functions and the writing epilogue of lines 660-671 included, has a terminator that leads to owned blocks only, except the last phase's sync block if functions follow. |
| `HullTranslation.FunctionsOpenHull` | source/dxmt-adx12/src/airconv/dxbc_converter_cfg.cpp:296-305 | A block without a terminator is reachable from the entry, before and after inlining, if and only if labelled functions follow the phases, whether the phases call them or not. |
| `HullTranslation.TranslateHull` | source/dxmt-adx12/src/airconv/dxbc_converter_basicblock.cpp:454-626 | Reading, inlining and emission of a hull shader with functions and calls: emission fails if and only if labelled functions follow the phases, and then for a missing terminator; otherwise the emitted code halts with a trace if and only if the phases, run in order with their barriers, end with it, and follows a thread whose phases do not end to every trace they reach; every thread that halts has passed the barrier behind the copy, and has copied exactly if its id calls for it. |
| `GeometryStrips.FacesAlike` | source/dxmt-adx12/src/airconv/dxbc_converter_gs.cpp:220-254 | The triangles of a strip face the same way: the edge two of them share is passed in opposite directions, and each starts with its leading vertex. |
| `GeometryStrips.Sizes` | source/dxmt-adx12/src/airconv/dxbc_converter_gs.cpp:160-162 | Retained vertices plus open strip, and primitives plus open strip, never exceed the number of emits. |
| `GeometryStrips.EmitTracks` | source/dxmt-adx12/src/airconv/dxbc_converter_gs.cpp:220-254 | An emit keeps the mesh in step with strip assembly, although it writes corners of vertices not yet emitted. |
| `GeometryStrips.CutTracks` | source/dxmt-adx12/src/airconv/dxbc_converter_gs.cpp:255-271 | A cut turns the sketched primitives of a long enough strip into drawn ones and forgets a shorter strip. |
| `GeometryStrips.MeshWriter.constructor` | source/dxmt-adx12/src/airconv/dxbc_converter_gs.cpp:193-198 | The counters start at zero; the mesh has room for the declared vertices and as many primitives. |
| `GeometryStrips.MeshWriter.EmitTriangle` | source/dxmt-adx12/src/airconv/dxbc_converter_gs.cpp:220-254 | Emit on the triangle path, every write in bounds below the declared maximum. |
| `GeometryStrips.MeshWriter.CutTriangle` | source/dxmt-adx12/src/airconv/dxbc_converter_gs.cpp:255-271 | Cut on the triangle path. |
| `GeometryStrips.MeshWriter.EmitLine` | source/dxmt-adx12/src/airconv/dxbc_converter_gs.cpp:273-299 | Emit on the line path, every write in bounds below the declared maximum. |
| `GeometryStrips.MeshWriter.CutLine` | source/dxmt-adx12/src/airconv/dxbc_converter_gs.cpp:300-316 | Cut on the line path. |
| `GeometryStrips.MeshDrawsStrips` | source/dxmt-adx12/src/airconv/dxbc_converter_gs.cpp:219-316 | After any emits and cuts the vertices the indices select are exactly the primitives of the closed strips, each primitive's data is its leading vertex's, and every index is below the number of retained vertices. |
| `GeometryStrips.PrimitiveOrigin` | source/dxmt-adx12/src/airconv/dxbc_converter_gs.cpp:220-253 | Each primitive comes from one strip and leading vertex, with alternating winding, and primitives are numbered strip after strip. |
| `GeometryStrips.Assemble` | source/dxmt-adx12/src/airconv/dxbc_converter_gs.cpp:506-512 | A whole run with its final cut reports the number of primitives of all its strips and draws exactly those. |
| `GeometryWarps.TablesAgree` | source/dxmt-adx12/src/airconv/dxbc_converter_gs.cpp:19-97 | The shader's table, the declared primitive sizes and the draw call's own table agree for every primitive; windows fit 32 threads, lists waste no room, and the triangle strip's stride is even. |
| `GeometryWarps.RestartIsAllOnes` | source/dxmt-adx12/src/airconv/dxbc_converter_gs.cpp:739-759 | Only the all-ones index of either width is taken as a restart; other indices are unchanged. |
| `GeometryWarps.RestartsCut` | source/dxmt-adx12/src/airconv/dxbc_converter_gs.cpp:739-759 | The positions at which the draw of an index buffer is cut are exactly those that hold 0xFFFF or 0xFFFFFFFF, according to its width. |
| `GeometryWarps.VertexMask` | source/dxmt-adx12/src/airconv/dxbc_converter_gs.cpp:704-767 | The vertex half of a group sets exactly the bits of the lanes that have a vertex; in triangle-adjacency strips lanes 1 and 31 are lent out and vertices clamped, in signed 32-bit arithmetic. |
| `GeometryWarps.StripLanes` | source/dxmt-adx12/src/airconv/dxbc_converter_gs.cpp:820-848 | The mask of a strip primitive is exactly the set of lanes the mesh half will load, all four strips. |
| `GeometryWarps.ListLanes` | source/dxmt-adx12/src/airconv/dxbc_converter_gs.cpp:849-854 | The same for lists, accumulated bit by bit. |
| `GeometryWarps.PrimitiveMask` | source/dxmt-adx12/src/airconv/dxbc_converter_gs.cpp:813-865 | A primitive's bit is set exactly if all lanes it will load are valid; the only error is a strip of patches. |
| `GeometryWarps.LoadsItsPrimitive` | source/dxmt-adx12/src/airconv/dxbc_converter_gs.cpp:398-479 | A mesh thread loads exactly the vertices of the primitive its id names in the whole draw, up to the wrapping of 32-bit numbers, with that primitive's winding. |
| `GeometryWarps.ValidIffComplete` | source/dxmt-adx12/src/airconv/dxbc_converter_gs.cpp:813-865 | A mesh thread whose first vertex is numbered without wrapping is marked valid if and only if the primitive its id names is complete. |
| `GeometryWarps.CompleteIffCounted` | source/dxmt-adx12/src/airconv/dxbc_converter_gs.cpp:813-865 | Without restarts the complete primitives are exactly those input assembly counts. |
| `GeometryWarps.DrawableSplitsOnce` | source/dxmt-adx12/src/d3d11/d3d11_context_impl.cpp:1529-1530 | If the last thread's first vertex does not wrap, every valid thread has a complete primitive and no two have the same, with or without restarts. |
| `GeometryWarps.SplitsOnceIffDrawable` | source/dxmt-adx12/src/d3d11/d3d11_context_impl.cpp:1529-1530 | Without restarts that holds exactly for those draws, the empty draw with its unsigned group count included: otherwise the last thread runs on vertices numbered from 0 again. |
| `GeometryWarps.EveryPrimitiveOnce` | source/dxmt-adx12/src/d3d11/d3d11_context_impl.cpp:1529-1530 | Every complete primitive of a draw of any size has a valid (group, thread) pair among the groups the draw dispatches, and only one if the draw is split right. |
| `GeometryWarps.AdjacencyLoads` | source/dxmt-adx12/src/airconv/dxbc_converter_gs.cpp:440-467 | In triangle-adjacency strips a thread is handed all six vertices of the primitive its id names, those behind the draw replaced by the last; the one exception is the first neighbour of the first thread of every group. |
| `GeometryWarps.AdjacencyAlwaysValid` | source/dxmt-adx12/src/airconv/dxbc_converter_gs.cpp:704-724 | Clamping makes every thread of every group valid when no index restarts. |
| `GeometryWarps.OneTriangleTooMany` | source/dxmt-adx12/src/airconv/dxbc_converter_gs.cpp:440-467 | So, by the ids of its threads, a triangle-adjacency strip of at least four vertices draws exactly one non-degenerate triangle more than input assembly counts. |
| `GeometryWarps.ExtraInvocations` | source/dxmt-adx12/src/airconv/dxbc_converter_gs.cpp:813-865 | The geometry shader itself runs on every thread of every group of such a strip, at least two and at most sixteen times more than there are primitives. |
| `GeometryWarps.LargeStripCollapses` | source/dxmt-adx12/src/airconv/dxbc_converter_gs.cpp:704-724 | With more than 2^31 vertices the signed clamp hands groups nothing but the last vertex. |
| `Tessellation.NextPow2Least` | source/dxmt-adx12/src/airconv/dxbc_converter.cpp:93-95 | The result is the least power of two that is not below the argument. |
| `Tessellation.RoundsUp` | source/dxmt-adx12/src/airconv/dxbc_converter_ts.cpp:76-106 | A defined partitioning rounds the clamped factor up to the least number of segments it can make. |
| `Tessellation.FactorMonotone` | source/dxmt-adx12/src/airconv/dxbc_converter_ts.cpp:76-106 | A larger factor never makes fewer segments. |
| `Tessellation.WorkloadsMonotone` | source/dxmt-adx12/src/airconv/dxbc_converter_ts.cpp:108-121 | Fewer segments need no more workloads if and only if the step is not from a multiple of four to one less. |
| `Tessellation.FitPayload` | source/dxmt-adx12/src/airconv/dxbc_converter.cpp:1251-1275 | The search ends; what it finds fits; it keeps the most patches per group that fit the original factor, lowers the factor only for a single patch and only as far as needed, and for a defined partitioning fails if and only if no factor and no group size fits. To fit is said of the struct's elements: each ends within 16384 bytes. |
| `Tessellation.ElementsApart` | source/dxmt-adx12/src/airconv/dxbc_converter_ts.cpp:276-292 | The struct's elements lie one behind the other without overlap: 16 bytes for each register of each control point of each patch, 4 for each constant of each patch, 4 for the first patch id, 56 for each workload of each patch. |
| `Tessellation.RoomIsSize` | source/dxmt-adx12/src/airconv/dxbc_converter_ts.cpp:123-138 | All elements end within 16384 bytes if and only if the estimated size, and the struct's aligned size, do not exceed them: the three computations of the size agree with the layout. |
| `Tessellation.GroupRecomputed` | source/dxmt-adx12/src/airconv/dxbc_converter_ts.cpp:262-263 | Rounding the stored thread count again gives back the patches per group. |
| `Tessellation.FinalFactor` | source/dxmt-adx12/src/airconv/dxbc_converter_ts.cpp:153-175 | The capped search ends with a factor and its segments: the hull's own if the cap allows it, else the most segments within the cap, else the fewest the partitioning has. |
| `Tessellation.PayloadFits` | source/dxmt-adx12/src/airconv/dxbc_converter_ts.cpp:276-292 | The payload laid out for the final factor fits its limit, alignment included, element by element, unless the final segments are one less than a searched multiple of four. |
| `Tessellation.LayOutPayload` | source/dxmt-adx12/src/airconv/dxbc_converter_ts.cpp:262-292 | From search to layout, for any cap: the group is the same, and the payload fits under every cap that is 1 or even, with no cap, and outside integer partitioning; under an odd cap it fits whenever it is covered. |
| `Tessellation.PipelinePayload` | source/dxmt-adx12/src/d3d11/d3d11_pipeline_ts.cpp:46-75 | For the cap a pipeline does hand over, the domain stage's or eight at most on older GPUs, which is the largest whose mesh fits, every payload the search finds to fit still fits when it is laid out, element by element, for every defined partitioning; the segments are the best under that cap. |
| `Tessellation.PipelineCap` | source/dxmt-adx12/src/d3d11/d3d11_pipeline_ts.cpp:52-57 | That cap is 1 or even, and the largest number of segments within its bound whose mesh fits. |
| `Tessellation.DomainCap` | source/dxmt-adx12/src/airconv/dxbc_converter.cpp:1285-1295 | The loop finds the largest number of segments up to 64 whose mesh fits, or one; the result is 1 or even. |
| `Tessellation.CapMesh` | source/dxmt-adx12/src/airconv/dxbc_converter_ts.cpp:809-848 | With the pipeline's cap every declared mesh fits if the one-segment mesh does; for triangles only then. |
| `Workloads.OffsetCount` | source/dxmt-adx12/src/airconv/shaders/air_tessellation.metal:187-190 | Moving inward by rings in fixed point takes two segments per ring, down to the fewest the partitioning allows. |
| `Workloads.SegmentsAtRunTime` | source/dxmt-adx12/src/airconv/shaders/air_tessellation.metal:100-127 | A factor clamped by the hull stage never makes more segments at run time than the sizing expected, powers of two included if dropping the fraction of the clamp does not matter. |
| `Workloads.RoundsApart` | source/dxmt-adx12/src/airconv/dxbc_converter_ts.cpp:87-91 | Otherwise, for powers of two, the clamp itself makes more segments than expected. |
| `Workloads.FactorCuts` | source/dxmt-adx12/src/airconv/shaders/air_tessellation.metal:55-127 | At run time a factor cuts an edge into the least number of segments the partitioning has that it fits into, up to the greatest; fractional factors lose what is below 1/65536. |
| `Workloads.RaisedCuts` | source/dxmt-adx12/src/airconv/shaders/air_tessellation.metal:208-218 | An inside of one segment is raised to the next number, three or two, unless nothing else is cut. |
| `WorkloadPlaces.TriangleWorkloads` | source/dxmt-adx12/src/airconv/shaders/air_tessellation.metal:192-313 | From raw factors: nothing is made exactly if an edge's factor is not positive; otherwise every side of every ring, between the corners it belongs to, is cut exactly once and so is the triangle left in the middle, the outermost sides by the factors of their own edges and the others by the inside less two a ring; inside the patch every line is shared by two strips in as many segments, and every line on its border has its edge's. |
| `WorkloadPlaces.QuadWorkloads` | source/dxmt-adx12/src/airconv/shaders/air_tessellation.metal:388-519 | The same for a quad patch and the row left in its middle; the border is cut as its edges' factors say if and only if it is not the case that, in integer or power-of-two partitioning, no edge's factor and just one inside factor is above one. |
| `WorkloadPlaces.TriangleIsCut` | source/dxmt-adx12/src/airconv/shaders/air_tessellation.metal:228-313 | Though rings are taken from both ends at once, two to a workload, each side of each is taken once. |
| `WorkloadPlaces.QuadIsCut` | source/dxmt-adx12/src/airconv/shaders/air_tessellation.metal:425-524 | The same for quads, where the inner end may lie behind the last ring and is then left out. |
| `WorkloadPlaces.TriangleWatertight` | source/dxmt-adx12/src/airconv/shaders/air_tessellation.metal:228-313 | Every line of a strip inside a triangle patch, along a ring or between two, is one of another strip in the same number of segments. |
| `WorkloadPlaces.QuadWatertight` | source/dxmt-adx12/src/airconv/shaders/air_tessellation.metal:425-524 | The same for a quad patch, up to the last ring being folded to a line or point when both its sides are even. |
| `WorkloadPlaces.TriangleBorder` | source/dxmt-adx12/src/airconv/shaders/air_tessellation.metal:243-301 | Every line on the border of a triangle patch has the segments of that edge's factor. |
| `WorkloadPlaces.QuadBorder` | source/dxmt-adx12/src/airconv/shaders/air_tessellation.metal:445-523 | Every line on the border of a quad patch has, if and only if it is not a single row of more than one segment. |
| `WorkloadPlaces.CrackAlongRow` | source/dxmt-adx12/src/airconv/shaders/air_tessellation.metal:502-523 | That happens: with all edges at one and insides of one and three, two edges are cut in three. |
| `Workloads.TriangleCount` | source/dxmt-adx12/src/airconv/shaders/air_tessellation.metal:225-313 | How many workloads a triangle patch makes, for every inside. |
| `Workloads.QuadCount` | source/dxmt-adx12/src/airconv/shaders/air_tessellation.metal:425-519 | How many workloads a quad patch makes, for every inside. |
| `WorkloadSizes.TriangleFits` | source/dxmt-adx12/src/airconv/dxbc_converter_ts.cpp:108-121 | A triangle patch never makes more workloads than the payload has room for. |
| `WorkloadSizes.TriangleAttained` | source/dxmt-adx12/src/airconv/dxbc_converter_ts.cpp:108-121 | A triangle patch uses up the room made for its segments if and only if they are a multiple of four or one more. |
| `WorkloadSizes.QuadFits` | source/dxmt-adx12/src/airconv/dxbc_converter_ts.cpp:108-121 | A quad patch does if and only if its longer inside has all the expected segments, a multiple of four, and its shorter an odd number at least half as large. |
| `WorkloadSizes.TriangleVertices` | source/dxmt-adx12/src/airconv/shaders/air_tessellation.metal:642-647 | Every workload of a triangle patch has no more vertices than the mesh declares, if and only if it is not the tight case of inside three in an even number of segments. |
| `WorkloadSizes.QuadVertices` | source/dxmt-adx12/src/airconv/shaders/air_tessellation.metal:642-647 | The same for quads, with either pair of adjacent edges. |
| `WorkloadSizes.TrianglePatchFits` | source/dxmt-adx12/src/airconv/dxbc_converter_ts.cpp:276-292 | From raw factors: triangle workloads always have a place in the payload, and their vertices in the mesh outside the tight case; always outside integer partitioning. |
| `WorkloadSizes.QuadPatchFits` | source/dxmt-adx12/src/airconv/dxbc_converter_ts.cpp:276-292 | The same for quads, with the exact exceptions; none outside integer partitioning. |
| `WorkloadSizes.Exceptions` | source/dxmt-adx12/src/airconv/shaders/air_tessellation.metal:388-519 | Both exceptions happen, with concrete factors. |
| `RootBinding.BindingMap.BindTable` | source/dxmt-adx12/src/airconv/dxbc_binding_rootsig.cpp:426-503 | Walking a table binds every resource as the last range that contains it says, at the running or explicit offset. In the fields of both: a resource that does not wrap is bound by the last range of its own kind and space that holds its registers, at that range's slots, and keeps what it had exactly if there is none. |
| `RootBinding.BindingMap.Setup` | source/dxmt-adx12/src/airconv/dxbc_binding_rootsig.cpp:426-610 | After all parameters and static samplers every resource has exactly the binding its last match gives, and every field is at the location of its index, whatever the stage sees. In the fields of both: through the last visible parameter that offers it, read as that parameter's type says, static samplers last. |
| `RootBinding.MatchIsServing` | source/dxmt-adx12/src/airconv/dxbc_binding_rootsig.cpp:443-499 | A range matches a resource if and only if it has its kind and space and holds all its registers. |
| `RootBinding.TableMeans` | source/dxmt-adx12/src/airconv/dxbc_binding_rootsig.cpp:426-503 | So a table makes of a resource what its last serving range says, whatever was bound before. |
| `RootBinding.StartIsFirst` | source/dxmt-adx12/src/airconv/dxbc_binding_rootsig.cpp:436-442 | A range starts at its offset or, if that is left open, right behind the range before it, in 32 bits. |
| `RootBinding.OutcomeReached` | source/dxmt-adx12/src/airconv/dxbc_binding_rootsig.cpp:426-610 | And all parameters and samplers what the last one that offers it says, at its field and with its way of reading. |
| `RootBinding.ConstantsFit` | source/dxmt-adx12/src/airconv/dxbc_binding_rootsig.cpp:504-510 | The eight-byte fields made for root constants hold their four bytes each, and no field is spare but the first. |
| `RootBinding.DefineFields` | source/dxmt-adx12/src/airconv/dxbc_binding_rootsig.cpp:504-510 | Constants take half as many fields rounded up, but at least one; every other parameter takes one. |
| `RootBinding.ArgumentBuffer.DefineBuffer` | source/dxmt-adx12/src/airconv/air_signature.cpp:90-108 | A field's index is the number of fields before it. |
| `RootBinding.OneMoreLaidOut` | source/dxmt-adx12/src/airconv/dxbc_binding_rootsig.cpp:426-575 | The first field of a parameter is the sum of the sizes of those before it, kept parameter by parameter. |
| `RootBinding.ContainedMeaning` | source/dxmt-adx12/src/airconv/dxbc_binding_rootsig.cpp:414-424 | Without overflow a bounded resource is contained in a bounded range if and only if all its registers are. |
| `RootBinding.SlotOfRegister` | source/dxmt-adx12/src/airconv/dxbc_binding_rootsig.cpp:42-68 | A register of a resource bound through any range, bounded or not, resolves to the range's start slot plus its distance from the base register in 32 bits: exactly there and inside the range's slots unless that wraps, and never taken for one of the two reserved offsets below them. |
| `RootBinding.AppendedStarts` | source/dxmt-adx12/src/airconv/dxbc_binding_rootsig.cpp:438-442 | In a table that only appends, a range starts behind the end of every earlier one. |
| `RootBinding.SlotsNotShared` | source/dxmt-adx12/src/airconv/dxbc_binding_rootsig.cpp:436-503 | In a table that only appends and in which only the last range may be unbounded, two registers resolve to the same slot if and only if they are the same register of the same range. |
| `RootBinding.LastRangeWins` | source/dxmt-adx12/src/airconv/dxbc_binding_rootsig.cpp:443-499 | A table binds a resource if and only if some range contains it, through the last such range. |
| `RootBinding.LastParameterWins` | source/dxmt-adx12/src/airconv/dxbc_binding_rootsig.cpp:426-575 | A resource is bound through the last visible parameter that matches, at that parameter's first field. |
| `OperandTokens.HeaderFields` | source/dxmt-adx12/libs/DXBCParser/d3d12tokenizedprogramformat.hpp:752-1020 | Every field of an operand token that was encoded is decoded to the same value, and none disturbs another. |
| `OperandTokens.SwizzleFields` | source/dxmt-adx12/libs/DXBCParser/d3d12tokenizedprogramformat.hpp:820-860 | The four swizzle components are encoded into and decoded from separate bits. |
| `OperandTokens.ExtensionFields` | source/dxmt-adx12/libs/DXBCParser/d3d12tokenizedprogramformat.hpp:1025-1110 | The same for the fields of the extension token. |
| `OperandTokens.ParseOperand` | source/dxmt-adx12/libs/DXBCParser/ShaderBinary.cpp:432-532 | Parsing an operand takes at least one token and stays within the code, so the mutual recursion through relative indices ends. |
| `OperandTokens.Parser.ReadIndex` | source/dxmt-adx12/libs/DXBCParser/ShaderBinary.cpp:390-430 | The cursor-moving index parser computes the parsing function and leaves the cursor where it says. |
| `OperandTokens.Parser.ReadOperand` | source/dxmt-adx12/libs/DXBCParser/ShaderBinary.cpp:432-532 | The same for operands. |
| `OperandTokens.Parser.ReadOperandAt` | source/dxmt-adx12/libs/DXBCParser/ShaderBinary.h:1444-1461 | Parsing elsewhere puts the cursor back. |
| `OperandTokens.RegisterRoundTrip` | source/dxmt-adx12/libs/DXBCParser/ShaderBinary.cpp:405-426 | The register an index is relative to is read back with its type, indices, component and precision. |
| `OperandTokens.OperandRoundTrip` | source/dxmt-adx12/libs/DXBCParser/ShaderBinary.cpp:432-532 | For every operand the encoder can express, wherever its encoding stands, parsing returns it and takes exactly its tokens. |
| `OperandTokens.ListRoundTrip` | source/dxmt-adx12/libs/DXBCParser/ShaderBinary.cpp:432-532 | The same for any number of operands one behind another. |
| `OperandTokens.KnownImmediates` | source/dxmt-adx12/libs/DXBCParser/d3d12tokenizedprogramformat.hpp:752-1020 | The tokens of immediate values as they stand in shaders, 0x4001, 0x4002 and 0x5002, are parsed to their type, component count and values. |
| `OperandTokens.KnownTemporaries` | source/dxmt-adx12/libs/DXBCParser/d3d12tokenizedprogramformat.hpp:752-1130 | So are a masked temporary, 0x100062, and a negated and selected one with its extension, 0x8010002A and 0x24041. |
| `OperandTokens.KnownBuffers` | source/dxmt-adx12/libs/DXBCParser/d3d12tokenizedprogramformat.hpp:820-1000 | So is a swizzled constant buffer with two indices, 0x208E46. |
| `OperandTokens.KnownIndices` | source/dxmt-adx12/libs/DXBCParser/d3d12tokenizedprogramformat.hpp:985-1000 | And three indices of the other kinds: relative with an offset, of 64 bits, relative to an indexable temporary. |
| `OperandTokens.KnownNested` | source/dxmt-adx12/libs/DXBCParser/ShaderBinary.cpp:405-426 | An index relative to a register that is itself indexed relatively, or masked, keeps no index and no component of it. |
| `OverrideList.TrimMeaning` | Direct3D_12(Feature_Level_12_2)/src/frontend/frontend_environment.c:17-33 | Trimming cuts white space only, from both ends, and all of it: space, and the codes 9 to 13. |
| `OverrideList.SplitMeaning` | Direct3D_12(Feature_Level_12_2)/src/frontend/frontend_environment.c:44-63 | The splitting the scanner is compared with is the one that joining undoes and that leaves no separator in a part. |
| `Basics.LowerIdentifies` | Direct3D_12(Feature_Level_12_2)/src/frontend/frontend_environment.c:36-39 | Two characters have the same lower-case form if and only if they are the same or one is a capital letter and the other 32 above it. |
| `OverrideList.EqualRange` | Direct3D_12(Feature_Level_12_2)/src/frontend/frontend_environment.c:17-42 | A range of the string equals a word if and only if after trimming it has the word's length and every character is the word's or its other case, in those terms. |
| `OverrideList.ListContains` | Direct3D_12(Feature_Level_12_2)/src/frontend/frontend_environment.c:44-63 | The scan over a comma list in place finds a DLL if and only if one of the split words is it. |
| `OverrideList.HasExactMode` | Direct3D_12(Feature_Level_12_2)/src/frontend/frontend_environment.c:65-99 | On all strings, null included: true if and only if some entry of the split list names the DLL and every entry that does has one of the two modes. |
| `BlobContainer.Parser.Read` | source/dxmt-adx12/libs/DXBCParser/BlobContainer.cpp:21-78 | A container is taken over exactly if it is accepted, and otherwise the parser keeps what it had; one that is begins with the letters DXBC, version 1.0 and its own size; the index is read behind the container exactly if its truncated end lies inside, its real one does not, and every blob whose entry lies inside passes its checks. |
| `BlobContainer.HeaderBytes` | source/dxmt-adx12/libs/DXBCParser/BlobContainer.cpp:21-48 | A header is accepted if and only if these bytes are in place. |
| `BlobContainer.IndexBehind` | source/dxmt-adx12/libs/DXBCParser/BlobContainer.cpp:49-56 | Concretely, for containers that end before their first entry does: exactly if the index's size wraps 32 bits or is one byte too large. |
| `BlobContainer.AcceptedTiles` | source/dxmt-adx12/libs/DXBCParser/BlobContainer.cpp:57-83 | An accepted container whose offsets do not wrap 32 bits tiles contiguously from the end of its index, and every blob but the last lies inside. |
| `BlobContainer.BlobInside` | source/dxmt-adx12/libs/DXBCParser/BlobContainer.cpp:75-82 | An accepted blob lies in the container if and only if its end neither wraps nor equals the container's size. |
| `BlobContainer.AcceptedOutside` | source/dxmt-adx12/libs/DXBCParser/BlobContainer.cpp:75-82 | Both kinds of blob that stick out are accepted, exactly for these sizes. |
| `BlobContainer.BuildRoundTrip` | source/dxmt-adx12/libs/DXBCParser/BlobContainer.cpp:21-92 | Any list of blobs laid end to end behind header and index is accepted and read back blob for blob. |
| `BlobContainer.Parser.FindNext` | source/dxmt-adx12/libs/DXBCParser/BlobContainer.cpp:109-124 | A search returns the first blob with the tag from its start index on; the blobs with the tag from there on are that one, followed by those a search behind it lists. |
| `BlobContainer.Parser.FindAll` | source/dxmt-adx12/libs/DXBCParser/BlobContainer.cpp:109-124 | Searching again behind each blob found gives exactly the blobs with the tag, by increasing numbers. |
| `BlobContainer.Parser.GetBlob` | source/dxmt-adx12/libs/DXBCParser/BlobContainer.cpp:148-166 | For a blob that lies in the container the returned range holds its data, right behind its tag and size; a number out of range gives nothing. |
| `BlobContainer.FindCode` | source/dxmt-adx12/src/airconv/dxbc_converter.cpp:1004-1020 | From container bytes to the shader's code: in a container built from any blobs the range found holds the data of the first extended shader, else of the first plain one, and nothing is found exactly if there is neither. |
| `BlobContainer.CodeTags` | source/dxmt-adx12/src/airconv/dxbc_converter.cpp:1004-1020 | The tags searched for are the letters SHEX and SHDR. |
| `Signatures.SlicesArePrefix` | source/dxmt-adx12/libs/DXBCParser/DXBCUtils.cpp:917-952 | The streams' slices are always a prefix of the parameter list. |
| `Signatures.SlicesCoverIffOrdered` | source/dxmt-adx12/libs/DXBCParser/DXBCUtils.cpp:917-952 | They make up the whole list if and only if the streams do not decrease. |
| `Signatures.SliceIsStream` | source/dxmt-adx12/libs/DXBCParser/DXBCUtils.cpp:999-1004 | Then slice s holds exactly the parameters of stream s, in order. |
| `Signatures.CountRuns` | source/dxmt-adx12/libs/DXBCParser/DXBCUtils.cpp:917-952 | The counting pass succeeds if and only if every stream's names are terminated and its registers do not decrease, and counts each stream. |
| `Signatures.SignatureParser.Read` | source/dxmt-adx12/libs/DXBCParser/DXBCUtils.cpp:878-1006 | The parser hands each stream its slice, fails exactly for a stream that is not proper, and reads a name behind the blob exactly if all four slices are proper and a name behind the last does not end; the bytes allocated and written are those of the next row. |
| `Signatures.WrittenFits` | source/dxmt-adx12/libs/DXBCParser/DXBCUtils.cpp:917-985 | What is written for a signature fits what is allocated for it if and only if it is less than 2^32 bytes and, when names are copied, the streams do not decrease: only then does the counting pass see every name that is copied. |
| `Signatures.UncheckedStream` | source/dxmt-adx12/libs/DXBCParser/DXBCUtils.cpp:917-952 | One parameter of a stream that does not exist is enough for that. |
| `Signatures.CharSumIgnoresCase` | source/dxmt-adx12/libs/DXBCParser/DXBCUtils.cpp:1177-1189 | Names that differ only in case have the same sum. |
| `Signatures.SignatureParser.FindParameter` | source/dxmt-adx12/libs/DXBCParser/DXBCUtils.cpp:1193-1209 | The filtered lookup returns the first parameter with the index and, without regard to case, the name: the filter never changes the answer. |

## Left out

- Block objects: blocks are numbered, and the builder's block list is a field of type `seq` that its methods reassign; the number stands for the object's identity, and a pointer kept into a terminator is the number of its block. What is not captured is a write through a pointer after its variant changed; `BuilderAccepts.StreamAccepted` shows that it does not happen.
- Conditional call (cfg 314-323): line 318 takes a call out of a terminator that is a conditional branch at that point.
- The return point of a call being inlined is taken by value: line 693 of the cfg file overwrites the variant that line 703 reads it from.
- Recursive call graphs, and call graphs more than 32 deep: the cloning walk may reach its own clones. The number of nested calls the last round drops is not characterised.
- A switch directly in dead code after break, continue or ret: its kept pointer leads into the shared void block. Calls there are left out of the theorems about whole programs; `DeadCalls` says when they do harm.
- Instructions and operands are opaque; declarations, debug names and phase numbers, which do not change the graph, are not part of this model. Conditions carry the operand and the zero test only.
- The order in which a switch's cases are visited: any order gives the same result in the model.
- Hull shaders: whether the control points are copied at the end is a parameter, since reading it off the declarations is not part of this model. Code behind a phase's own top-level ret, which lands in the phase's sync block, is not modelled.
- Point output of the geometry stage: emit advances only the first counter and cut does nothing, while the primitive counter is reported.
- GeometryWarps.AdjacencyLoads: holds for strips of at most 2^31 vertices and groups whose numbers are positive signed words, as do AdjacencyAlwaysValid and OneTriangleTooMany; above that the code hands over the last vertex only (`GeometryWarps.LargeStripCollapses`).
- GeometryWarps.SplitsOnceIffDrawable: the draw call drops draws with more groups than the device allows (line 1532 of d3d11_context_impl.cpp), a test that is not modelled. Restart indices make a primitive incomplete but do not restart the numbering, as in the code.
- Indirect geometry draws, whose group count is computed on the GPU.
- Tessellation.FitPayload: at least one thread per patch is assumed, since rounding zero up to a power of two is an undefined shift; factors that are not numbers are not modelled. Undefined partitioning is modelled in the search but left out of the fit theorems.
- Tessellation.PayloadFits: sizes in bytes are unbounded integers, except the workload part, which is computed in 32 bits.
- Workloads: corners are named by a vertex of the patch and a ring, as the source computes their coordinates from; the coordinates themselves, and those of the points along an edge, are not modelled, nor are factors that are not numbers, the isoline domain, and point and line output, whose declared vertex counts the source marks as unfinished. The test of all factors through a bitwise or is modelled as all of them being one, which is the same for factors of at least one.
- The emission order of workloads between the patches of a group: each patch takes the next free slots of a shared counter.
- RootBinding.SlotsNotShared: assumes that the slots of the two registers end below the two reserved offsets; appending behind an unbounded range, whose size makes the running offset wrap, is excluded. Resource loops over four maps are one loop over a list of resources with distinct kind and id. Unknown range types and malformed blobs end in an assertion in the source and are not part of this model.
- Location indices of sampler fields, which may coincide.
- OperandTokens.OperandRoundTrip: index representation 4 does not fit its two bits and cannot be encoded. Reading behind the end of the code, which the source does not guard, is an outcome of its own.
- BlobContainer: offsets in pointers are 64 bits wide; the hash is carried but not checked, as in the source. Reading behind the container is an outcome of its own, and so is it in Signatures.
- Signatures: masks, system values and component types, which are copied one by one; of the buffer the names are copied into only its size is modelled.
- OverrideList.HasExactMode: characters are compared in the C locale.
- Environment variables, image inspection, the LLVM back end, metadata, the metallib writer and the command-line tool: input, output and foreign calls.
