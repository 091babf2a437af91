# A formal model of the SUPREM workbench

The repository couples a process simulator written in C with a web service written in Python that edits its
meshes, hands devices to a solver and runs jobs. This project models the parts of both where many tables or many
steps have to agree, and proves what they are for.

| files | what they model |
|---|---|
| `Expr*.dfy` | the shift-reduce parser for expressions and its evaluator (`check/reduce.c`, `parse.c`, `eval.c`) |
| `PlaneGeometry`, `CircumCircles`, `Mesh*.dfy` | the edge flip on the mesh database and the Delaunay property it is for (`dbase/flip.c`, `geometry.c`, `clktri.c`, `locate.c`, `list.c`) |
| `BackPedal.dfy` | the time-step cutback (`dbase/grid_upd.c`) |
| `BoundarySegments`, `RegionLoops`, `BoundaryLoops`, `BoundaryEven` | boundary loops of regions (`remesh/geometry.py`) |
| `SegmentDistance`, `DouglasPeucker`, `BoundaryChains`, `SimplifyBoundary`, `BoundaryKinds`, `BoundaryIslands` | boundary simplification (`remesh/simplify.py`) |
| `BoundaryIndexes`, `RemeshElements` | neighbours and boundary codes of a new mesh (`remesh/assemble.py`) |
| `Samplers` | carrying values to a new mesh (`remesh/transfer.py`) |
| `JobQueues` | the job table as a queue (`jobs/queue.py`) |
| `BiasSolver`, `DeviceRun`, `SweepPlans` | the bias sweep of the device solver (`docker/devsim/run.py`, `devsim/spec.py`, `devsim/progress.py`) |
| `ConductorClusters`, `DeviceMesh`, `DeviceMeshReading` | conductors and the flat device mesh (`devsim/electrodes.py`, `devsim/mesh.py`) |
| `StrModel`, `StrText`, `StrFile`, `StrRecords` | the structure file, its reader and its writer (`str_parser`) |
| `RateLimits` | the sliding-window limiter (`api/rate_limit.py`) |
| `Options`, `Plane`, `Reals`, `FiniteSets`, `Folding` | small general helpers |

Code that changes things step by step is modelled by classes and methods with loops (the parser's token array, the
mesh database, the solver, the limiter, the job table, the reader), each proved against functions or predicates on
which the properties are then proved. `dafny verify dfyconfig.toml` checks everything.

## Where the code does not do what is said of it

The model follows the code. Each of these is proved, with the exact condition under which the promise is kept.

- `detect_error()` in `parse.c` is meant to reject bad input early and never does (`ExprMachine.DetectErrorNeverFires`).
- The grammar comments of `reduce.c` and `parse.c` promise functions applied without parentheses, a comma operator and
  two-argument calls of any two expressions. Rejected are: every function without parentheses
  (`ExprComment.BareFunctionIsRejected`), every comma outside a call of two arguments
  (`ExprComment.LooseCommaIsRejected`), and a call whose first argument is a product or sum, or whose second has a
  leading sign (for a product: `ExprComment.ProductAsFirstArgumentIsRejected`). Everything else is accepted
  (`ExprComment.CommentIsKeptExactlyWhen`).
- `simplify_boundary()` promises to hold a point of every closed ring without fixed points. It does so only when there is
  no fixed point anywhere, and then for one ring; every other such ring is dropped whole
  (`BoundaryIslands.LoseSecondRing`; exactly: `BoundaryIslands.PromiseKeptExactlyWhen`).
- `jobs/main.py` promises that the cap on running jobs holds however many loops and processes claim. Overlapping claims
  pass it by one less than their number, and by no more (`JobQueues.CapIsPassed`, `JobQueues.CapPlusClaimsInFlight`).
- `cancel()` promises the job as it was just before. A claim in between makes the report wrong
  (`JobQueues.CancelCanReportTheWrongStatus`; exactly: `JobQueues.CancelReportsRightExactlyWhen`).
- `retry_after()` tells when to try again. With hits recorded regardless of `blocked()` the wait need not be enough
  (`RateLimits.WaitingMayNotHelp`, `RateLimits.WaitingHelpsExactlyWhen`), and a limit of zero raises an index error.
- `writer.py` calls itself the exact inverse of the parser. A record that is indented in the source is lost, so a file
  can come back changed (`StrFile.IndentedRecordIsLost`, `StrFile.RewriteCanChangeTheFile`; exactly:
  `StrFile.RewriteChangesNothing`).

## Model

| member | source | states |
|---|---|---|
| `ExprMachine.Reduce` | SUPREM4GS/upstream/src/check/reduce.c:115-204 | A reduction keeps the stack bottom in place and looks only at slots above it: a well-formed stack stays well-formed. |
| `ExprMachine.ReduceKeepsStackOk` | SUPREM4GS/upstream/src/check/reduce.c:115-204 | Whatever `reduce()` does, the bottom marker stays, no other marker appears, and an end-of-input token stays the input. |
| `ExprMachine.FeedIsReduceAllThenPush` | SUPREM4GS/upstream/src/check/parse.c:131-135 | `while (reduce());` ends, and one turn of the driver is that loop followed by the push. |
| `ExprMachine.RunAppend` | SUPREM4GS/upstream/src/check/parse.c:121-137 | The driver on a concatenation is the driver on the second part started where the first part ended. |
| `ExprMachine.DetectErrorNeverFires` | SUPREM4GS/upstream/src/check/parse.c:60-92 | `detect_error()` never returns TRUE, whatever the stack top and the input: `!` binds tighter than `&`. The documented early rejection does not exist. |
| `ExprSoundness.ReduceSound` | SUPREM4GS/upstream/src/check/reduce.c:115-204 | Each reduction keeps the invariant that the stack is a list of grammar items whose yields, with that of the input token, concatenate to the tokens consumed, and whose trees are those of the stratified grammar. |
| `ExprSoundness.FeedSound` | SUPREM4GS/upstream/src/check/parse.c:121-137 | One turn of the driver extends the consumed tokens by exactly the token fed, keeping that invariant. |
| `ExprSoundness.RunSound` | SUPREM4GS/upstream/src/check/parse.c:121-137 | The invariant holds after every prefix of the input. |
| `ExprSoundness.ParserIsSound` | SUPREM4GS/upstream/src/check/parse.c:107-147 | Every accepted input is the yield of a derivation in the stratified grammar (unary signs, then `^` to the left, then `*` `/`, then `+` `-`), and the returned tree is the tree of that derivation. |
| `ExprCompleteness.ParserIsComplete` | SUPREM4GS/upstream/src/check/reduce.c:115-204 | Every sentence of the stratified grammar, two-argument calls with their restricted arguments included, is accepted with the tree of its derivation. |
| `ExprParser.ParserIsExact` | SUPREM4GS/upstream/src/check/parse.c:107-147 | Accepted if and only if a derivation exists, and then the result is the tree of every such derivation. |
| `ExprParser.GrammarIsUnambiguous` | SUPREM4GS/upstream/src/check/reduce.c:30-47 | The rules the file calls ambiguous give each sentence one tree. |
| `ExprDescent.OneDerivation` | SUPREM4GS/upstream/src/check/reduce.c:30-47 | With everything the grammar comments promise (functions without parentheses, calls of any arguments, the comma as an operator) each sentence still has one derivation. |
| `ExprComment.SameSentences` | SUPREM4GS/upstream/src/check/parse.c:33-41 | The sentences of the ambiguous grammar, as the comments of reduce.c and parse.c write it rule by rule, are exactly those with a derivation by precedence. |
| `ExprComment.CommentIsKeptExactlyWhen` | SUPREM4GS/upstream/src/check/reduce.c:30-47 | However the comments derive a sentence, it is accepted if and only if its derivation is narrow: no function stands without parentheses, no comma outside a call of two arguments, and of these the first has no product or sum outside parentheses and the second no leading sign. |
| `ExprParser.PromisedIsAcceptedExactlyWhen` | SUPREM4GS/upstream/src/check/reduce.c:115-204 | The same of the derivation by precedence. |
| `ExprComment.BareFunctionIsRejected` | SUPREM4GS/upstream/src/check/reduce.c:180-192 | A function before a constant, without parentheses, is a promised sentence and is rejected. |
| `ExprComment.LooseCommaIsRejected` | SUPREM4GS/upstream/src/check/reduce.c:180-187 | So is a comma between two constants outside a call. |
| `ExprComment.ProductAsFirstArgumentIsRejected` | SUPREM4GS/upstream/src/check/reduce.c:180-187 | So is f(1*2,3). |
| `ExprParser.Parser.ReduceOnce` | SUPREM4GS/upstream/src/check/reduce.c:115-204 | The in-place step on the 100-slot array does exactly what the function `Reduce` says, or nothing when that says stop. |
| `ExprParser.Parser.ReduceFully` | SUPREM4GS/upstream/src/check/parse.c:132 | The in-place loop reaches the same stack and token as the repeated function. |
| `ExprParser.Parser.TakeToken` | SUPREM4GS/upstream/src/check/parse.c:121-137 | One in-place turn of the driver equals `Feed`, unless the array is too short, which only happens when `Feed` needs more than 100 slots. |
| `ExprParser.Parser.Drive` | SUPREM4GS/upstream/src/check/parse.c:121-137 | The do/while loop leaves the stack `Run` describes, or stops at the overrun. |
| `ExprParser.Parser.ParseExpr` | SUPREM4GS/upstream/src/check/parse.c:107-147 | `parse_expr` on the array accepts and rejects exactly as the function does; an overrun needs an input that nests too deep. |
| `ExprParser.Parser.HasError` | SUPREM4GS/upstream/src/check/parse.c:60-92 | The test as coded reports no error on any reachable stack. |
| `ExprParser.ShortInputsFit` | SUPREM4GS/upstream/src/check/parse.c:135 | No input of at most 98 tokens can overrun the stack array. |
| `ExprParser.PrintThenParse` | SUPREM4GS/upstream/src/check/reduce.c:61-100 | Printing a tree the parser can return, with parentheses, and parsing it gives the tree back. |
| `ExprParser.AstIsPrintable` | SUPREM4GS/upstream/src/check/reduce.c:61-100 | The tree of every derivation is of the printable shape. |
| `ExprParser.ParsedTreesArePrintable` | SUPREM4GS/upstream/src/check/parse.c:107-147 | The printable trees are exactly the trees some input is parsed to. |
| `ExprDescent.SumReads` | SUPREM4GS/upstream/src/check/eval.c:64-139 | Recursive descent over the tokens of a sum reads exactly that sum and makes of it what the algebra makes of its derivation, so nested operators associate and bind as stated. |
| `ExprEval.EvalMatchesTokens` | SUPREM4GS/upstream/src/check/eval.c:64-139 | On every accepted input, `eval_real` on the returned tree equals an evaluator that reads the tokens by recursive descent and gives each form of sentence its meaning from the meanings of its parts, errors included, for any arithmetic. |
| `ExprEval.SumsMean` | SUPREM4GS/upstream/src/check/eval.c:87-90 | If two accepted token sequences have values v and w, the first, a plus and the second have the sum of v and w, and with a minus the difference, wherever the second is no sum itself. |
| `ExprEval.ProductsMean` | SUPREM4GS/upstream/src/check/eval.c:92-95 | The same of `*` and `/`, between what binds at least as tight. |
| `ExprEval.PowersMean` | SUPREM4GS/upstream/src/check/eval.c:96-98 | The same of `^`. |
| `ExprEval.PrefixMeans` | SUPREM4GS/upstream/src/check/eval.c:83-86 | A constant has its own value, parentheses change nothing, a leading plus nothing, and a leading minus negates. |
| `ExprEval.CallMeans` | SUPREM4GS/upstream/src/check/eval.c:99-126 | A function of one argument is called by its number with the value of the argument, but 6 is the absolute value and 8 the sign. |
| `ExprEval.CallOfTwoMeans` | SUPREM4GS/upstream/src/check/eval.c:117-125 | x, y and z read the solution at the point the two arguments name, in order; other functions ignore the first. |
| `ExprEval.ErrorsMean` | SUPREM4GS/upstream/src/check/eval.c:117-136 | A solution value, a vector function, a string, and x, y or z of one argument give their errors. |
| `ExprEval.ParsedIsDefined` | SUPREM4GS/upstream/src/check/eval.c:64-139 | On the tree of an accepted input `eval_real` never uses the value of an operand that is not there. |
| `PlaneGeometry.QuadArea` | SUPREM4GS/upstream/src/dbase/flip.c:102-180 | The two triangles of either diagonal of a quadrilateral have the same total area. |
| `PlaneGeometry.CkSignIsOppositeSides` | SUPREM4GS/upstream/src/dbase/flip.c:187-234 | The number `ck_flip` tests, in its three cases of vertical, horizontal and sloped lines, is negative exactly if the two points lie strictly on opposite sides of the line. |
| `PlaneGeometry.CkSignIsConvexity` | SUPREM4GS/upstream/src/dbase/flip.c:187-234 | For two positively oriented triangles on a shared edge, that number is negative exactly if both new triangles are positively oriented; their apexes differ. |
| `MeshFlip.CkFlipIsConvexity` | SUPREM4GS/upstream/src/dbase/flip.c:187-234 | On a sound mesh the test of `ck_flip` is the convexity of the quadrilateral around the edge. |
| `MeshFlipSound.AfterIsSound` | SUPREM4GS/upstream/src/dbase/flip.c:102-180 | After a flip in a convex quadrilateral all six tables agree again, the two outer neighbours included, and all triangles are positively oriented. |
| `MeshFlipTheorems.FlipIsSoundExactlyWhenChecked` | SUPREM4GS/upstream/src/dbase/flip.c:72-78 | On a sound mesh (what `mtest2` at check.c:187-336 checks, and positive orientation) `tri_flip` leaves a sound mesh if and only if `ck_flip` returns 1. |
| `MeshFlipTheorems.FlipPreserves` | SUPREM4GS/upstream/src/dbase/flip.c:102-180 | A checked flip within one region keeps the mesh sound, the number of triangles, edges and nodes, every triangle's region and the total area of every region. |
| `MeshDb.IntList.AddList` | SUPREM4GS/upstream/src/dbase/list.c:28-47 | The growing list gets the item at its end, whether or not it had to be reallocated. |
| `MeshDb.IntList.SubList` | SUPREM4GS/upstream/src/dbase/list.c:71-85 | The first occurrence is removed and the rest moves up in order. |
| `MeshDb.Database.Which` | SUPREM4GS/upstream/src/dbase/locate.c:29-55 | The slot searches return the first slot that holds the wanted number. |
| `MeshDb.Database.SclkTri` | SUPREM4GS/upstream/src/dbase/clktri.c:46-104 | A clockwise triangle gets slots 1 and 2 of its three tables swapped together, another one stays. |
| `MeshFlipSound.ClockwiseMakes` | SUPREM4GS/upstream/src/dbase/clktri.c:46-104 | Of a rewritten triangle that swap makes one that turns the right way with the same corners, each with its own edge and neighbour still opposite. |
| `MeshDb.Database.CheckFlip` | SUPREM4GS/upstream/src/dbase/flip.c:187-234 | The in-place reading of the tables returns 1 exactly when `CkFlip` holds. |
| `MeshDb.Database.TriFlip` | SUPREM4GS/upstream/src/dbase/flip.c:102-180 | The sequence of in-place updates (edge, triangles, list back pointers, neighbours, orientation) leaves exactly the tables of `Flip`. |
| `MeshDb.Database.GimmeEhed` | SUPREM4GS/upstream/src/dbase/geometry.c:101-114 | The coupling of an edge is summed over its triangles; on a sound mesh the panics of `tri_geom` do not happen. |
| `MeshDelaunay.EhedIsHalfCot` | SUPREM4GS/upstream/src/dbase/geometry.c:178-226 | The three coupling numbers of a triangle are half the cotangents of its angles. |
| `CircumCircles.InsideTheCircle` | SUPREM4GS/upstream/src/dbase/flip.c:29-31 | For two triangles on an edge, the far corner of one lies strictly inside the circle around the other exactly if the two opposite cotangents sum to less than zero (cleared of denominators). |
| `CircumCircles.VolumeChange` | SUPREM4GS/upstream/src/dbase/flip.c:102-180 | Turning a diagonal changes the surface lifted onto a paraboloid by exactly that number. |
| `MeshDelaunay.CkFlipNeverRefuses` | SUPREM4GS/upstream/src/dbase/flip.c:72-73 | Where the coupling is negative the quadrilateral is strictly convex, so `ck_flip` never refuses what `flip()` asks it. |
| `MeshDelaunay.WantedIsNotDelaunay` | SUPREM4GS/upstream/src/dbase/flip.c:29-72 | An edge inside a region has a negative coupling exactly if one of its two triangles has the other's apex strictly inside its circumscribed circle. |
| `MeshDelaunay.FlipLowers` | SUPREM4GS/upstream/src/dbase/flip.c:72-77 | Every flip strictly lowers the lifted surface of the whole mesh, so no arrangement of the triangles ever comes back. |
| `MeshFlipRuns.FlipTouchesOnlyNear` | SUPREM4GS/upstream/src/dbase/flip.c:79-84 | A flip leaves an edge, its triangles and their corners alone unless the edge has an end on the turned edge: marking the edges at its two new ends is enough. |
| `MeshFlipRuns.StillUnwanted` | SUPREM4GS/upstream/src/dbase/flip.c:79-84 | An edge that need not be flipped and is not marked by a flip still need not be flipped after it. |
| `MeshFlipRuns.ClearedNext` | SUPREM4GS/upstream/src/dbase/flip.c:57-86 | Each turn of the loop keeps the invariant that every edge passed and not marked is Delaunay. |
| `MeshDb.Database.FlipEdge` | SUPREM4GS/upstream/src/dbase/flip.c:62-84 | An edge with two triangles is flipped exactly if they share a region and the coupling is negative; then the tables are those of `Flip`, and otherwise unchanged. |
| `MeshDb.Database.Pass` | SUPREM4GS/upstream/src/dbase/flip.c:56-86 | The in-place pass leaves the tables, the marks and the number of flips that `PassOf` says of the tables and marks before it. |
| `MeshFlipPasses.PassDecides` | SUPREM4GS/upstream/src/dbase/flip.c:56-86 | A pass flips nothing if and only if the mesh is Delaunay at every edge inside a region, although it only looks at the marked edges; afterwards again only marked edges can be wanted; the mesh stays sound, its regions keep their areas, and the lifted surface gets lower if anything was flipped. |
| `MeshFlipPasses.MarkedIsTouched` | SUPREM4GS/upstream/src/dbase/flip.c:79-84 | An edge left marked by a pass was unmarked when the pass began and has an end on an edge this pass flipped, as it lay after its flip. |
| `MeshDb.Database.FlipAll` | SUPREM4GS/upstream/src/dbase/flip.c:33-94 | In one dimension nothing happens; otherwise the tables and the number returned are those of `FlipRun`, the passes from all edges marked until one flips nothing, at most 30, and `Ended` holds of it (next row). |
| `MeshFlipPasses.FlipRunEnds` | SUPREM4GS/upstream/src/dbase/flip.c:29-94 | Every pass but the last flipped something; the mesh is sound, with the same triangle count, regions and region areas, and a lower lifted surface if anything was flipped; nothing is flipped exactly if the mesh is Delaunay already; and the result is Delaunay at every edge inside a region, as the header promises, or all of 30 passes flipped something. |
| `MeshFlipPasses.FlipRunIsDelaunay` | SUPREM4GS/upstream/src/dbase/flip.c:79-87 | Then, too, it is Delaunay if and only if none of the edges the last pass left marked is wanted. |
| `MeshFlipRuns.MarksDecide` | SUPREM4GS/upstream/src/dbase/flip.c:79-86 | Where only marked edges can be wanted, the mesh is Delaunay if and only if none of them is. |
| `MeshWalks.NoneInside` | SUPREM4GS/upstream/src/dbase/flip.c:29-31 | From edge to edge: in a mesh that is Delaunay at every edge, a corner that can be walked to, each step going towards it inside one region, is not inside the circle around the triangle where the walk starts. |
| `BoundarySegments.ConstrainedSegments` | backend/app/remesh/geometry.py:47-81 | The segments are those of the constrained sides, each undirected side once, taken from the first element that offers it; fails exactly when the structure is not two-dimensional. |
| `BoundarySegments.FirstsAreTaken` | backend/app/remesh/geometry.py:61-80 | The half-sides they are taken from are exactly those that no constrained half-side of the same side precedes. |
| `BoundarySegments.SegmentSays` | backend/app/remesh/geometry.py:64-80 | Read off the structure: ends and left region from the element; a negative slot is the code, and there is no right region; otherwise the code is 0 and the right region that of the element the slot names, another one. |
| `BoundarySegments.ElementAtMeans` | backend/app/remesh/geometry.py:84-97 | A slot names the element whose id is one more, if any has it. |
| `BoundarySegments.OuterSideComesOut` | backend/app/remesh/geometry.py:72-74 | Every outer side comes out, with its two ends, and with the slot code and region of one of its half-sides. |
| `RegionLoops.StepCounts` | backend/app/remesh/geometry.py:135-144 | Popping an entry and removing its counterpart takes one side off the graph, at both ends, and leaves it undirected. |
| `RegionLoops.Walk` | backend/app/remesh/geometry.py:129-149 | A walk ends; it closes, or else some point has odd degree. |
| `RegionLoops.Loops` | backend/app/remesh/geometry.py:119-153 | `_loops` succeeds if and only if every point has even degree, and then its closed loops use every side exactly as often as it is there. |
| `BoundaryLoops.Incident` | backend/app/remesh/geometry.py:107-114 | The adjacency built for a region is its boundary graph; regions without a boundary are absent. |
| `BoundaryLoops.BoundaryGraphHas` | backend/app/remesh/geometry.py:100-116 | In the graph of a region two points are joined exactly if a segment with the region on one of its sides joins them. |
| `BoundaryLoops.RegionLoopsOf` | backend/app/remesh/geometry.py:97-116 | `region_loops` answers exactly when every region's boundary graph is even, and then for each region with loops that use each of its sides once. |
| `BoundaryEven.PairedSetsAreEven` | backend/app/remesh/geometry.py:97-116 | A finite set with a fixed-point free involution has even size: the double counting behind the next rows. |
| `BoundaryEven.ValidMeshesHaveEvenBoundaries` | backend/app/remesh/geometry.py:97-116 | On a mesh with reciprocal neighbour slots every region's boundary has even degree at every point. |
| `BoundaryEven.RegionLoopsOfMesh` | backend/app/remesh/geometry.py:97-116 | So `region_loops` never raises on such a mesh, and its loops cover each region's boundary exactly. |
| `SegmentDistance.Offset2IsTheDistance` | backend/app/remesh/simplify.py:115-123 | The clamped projection of `_offset` gives the least distance from the point to any point of the segment. |
| `DouglasPeucker.Thin` | backend/app/remesh/simplify.py:89-112 | The work-stack loop ends; ends are kept, every dropped point is within tolerance of the segment between the kept points next to it, and every other kept point is the farthest from some such segment and beyond tolerance. |
| `BoundaryChains.WalkChain` | backend/app/remesh/simplify.py:72-83 | A walk from a fixed point ends at a fixed point, passes free points only, never turns back and meets no point twice; the test for another neighbour count never stops it. |
| `BoundaryChains.ChainsRepeatNoSide` | backend/app/remesh/simplify.py:68-85 | No side lies twice on a chain, in either direction. |
| `BoundaryChains.Chains` | backend/app/remesh/simplify.py:55-86 | Both loops end; the chains found share no inner point, and everything next to a fixed point or on a chain is fixed or on a chain. |
| `SimplifyBoundary.DroppedIsSupported` | backend/app/remesh/simplify.py:48-50 | A point dropped from a chain lies on a stretch of boundary with kept ends and dropped inner points, all within tolerance of the segment between the ends. |
| `SimplifyBoundary.OutcomeIsSimplified` | backend/app/remesh/simplify.py:24-52 | Chains and thinning together: no fixed point is dropped, a dropped point is supported exactly if the boundary leads from it to an anchor, no unreachable point is kept, and every kept point is an anchor or needed. |
| `SimplifyBoundary.Simplify` | backend/app/remesh/simplify.py:45-52 | The loop over the chains achieves that outcome. |
| `SimplifyBoundary.FixedExactlyWhen` | backend/app/remesh/simplify.py:46 | Read off the structure: a boundary point is fixed if and only if not exactly two points are joined to it by constrained sides, or two of its sides differ in code, in the region they come from or in the region across. |
| `SimplifyBoundary.Run` | backend/app/remesh/simplify.py:25-52 | For tolerance 0 every boundary point is kept; otherwise the outcome is `Simplified` for the sides and fixed points of the structure; for every tolerance the points where different sides meet stay. |
| `BoundaryKinds.ChangesStay` | backend/app/remesh/simplify.py:10-11 | On a mesh with reciprocal slots a point stays where two constrained sides have different codes, or one is outer and the other is not, or they separate different pairs of regions. |
| `SimplifyBoundary.DroppedIsNear` | backend/app/remesh/simplify.py:13-14 | A dropped point on the way to a fixed one is within the tolerance of some point of a segment between two kept points. |
| `BoundaryIslands.IslandVanishesExactlyWhen` | backend/app/remesh/simplify.py:58-66 | A part of the boundary that no side leaves keeps a point if and only if it has an anchor. |
| `BoundaryIslands.PromiseKeptExactlyWhen` | backend/app/remesh/simplify.py:58-66 | Of a part without fixed points, of which one point is to be held, a point is kept if and only if there is no fixed point anywhere and the part holds the least boundary point, which must not lead back to itself. |
| `BoundaryIslands.LoseSecondRing` | backend/app/remesh/simplify.py:24-66 | The concrete structure: of two triangles of one region that do not touch, the whole boundary of the second is dropped, whatever the tolerance. |
| `BoundaryIndexes.FillBuckets` | backend/app/remesh/assemble.py:131-135 | Every segment is entered in all cells its box, grown by the reach, touches. |
| `BoundaryIndexes.InItsCell` | backend/app/remesh/assemble.py:140-149 | A point within reach of a segment lies in a cell the segment is entered in. |
| `BoundaryIndexes.BoundaryIndex.CodeAt` | backend/app/remesh/assemble.py:140-154 | Fails exactly when no old segment is within reach; otherwise the code is that of a segment within reach at least distance among all of them. |
| `RemeshElements.Register` | backend/app/remesh/assemble.py:70-75 | The owners of a side are exactly the triangle slots that face it. |
| `RemeshElements.FirstOther` | backend/app/remesh/assemble.py:88-92 | The neighbour taken is the first other triangle on the side; none exactly when the side has one owner. |
| `RemeshElements.Elements` | backend/app/remesh/assemble.py:67-109 | Fails exactly when some outer side is out of reach of the old boundary; otherwise each triangle becomes one element whose slots name the first other triangle on a shared side, and carry, on a side it owns alone, the code of an old segment nearest to its midpoint. |
| `RemeshElements.Rebuild` | backend/app/remesh/assemble.py:67-109 | The same from the old structure: its outer segments with their codes are the old boundary; fails also off two dimensions. |
| `RemeshElements.RebuiltSays` | backend/app/remesh/assemble.py:77-108 | The new elements count from one, keep corners and region, and end in -1 -1. |
| `RemeshElements.SlotSays` | backend/app/remesh/assemble.py:85-97 | Slot i names the first other triangle that has both corners opposite corner i; it holds a code exactly if there is none. |
| `RemeshElements.CodeIsInherited` | backend/app/remesh/assemble.py:60-97 | From structure to structure: a lone new side whose midpoint lies on an old outer side, and on none whose slot has another code, gets the code in the slot of that old side. |
| `RemeshElements.OuterSidesInherit` | backend/app/remesh/assemble.py:5-7 | A new outer side inherits the code of a nearest old outer side; on an old boundary with one code there, exactly that code. |
| `RemeshElements.ElementsAreReciprocal` | backend/app/remesh/assemble.py:83-92 | The rebuilt neighbour slots are reciprocal if and only if no side has more than two owners. |
| `RemeshElements.ConstrainedOfRebuilt` | backend/app/remesh/geometry.py:47-81 | On the rebuilt structure the constrained sides are exactly the sides with one owner and the sides where the region changes; codes are negative exactly on the former. |
| `Samplers.WeightsAreUnique` | backend/app/remesh/transfer.py:150-166 | The weights computed for a point of a triangle that is not flat are the only ones that balance its corners. |
| `Samplers.WeightsBalance` | backend/app/remesh/transfer.py:150-166 | The weights the code returns sum to one and balance the point. |
| `Samplers.CellOfContained` | backend/app/remesh/transfer.py:58-68 | The cell of a point, clamped at the rim, is among the cells of every triangle that contains it. |
| `Samplers.AnswersStayNear` | backend/app/remesh/transfer.py:123-141 | Every blended value lies between the three corner values when the point is inside, and within the slack of the inside test otherwise. |
| `Samplers.LinearFieldsAreKept` | backend/app/remesh/transfer.py:120-141 | Every linear field is reproduced: if the values of a species are k + m x + n y at the points of the material, every answer at p is k + m p.x + n p.y. |
| `Samplers.CornersKeepTheirValues` | backend/app/remesh/transfer.py:120-141 | At a corner of the answering triangle the answer is that corner's own value. |
| `Samplers.AnswersAreOfTheMaterial` | backend/app/remesh/transfer.py:62-68 | Only a triangle answers whose region, by its last row, has the material asked for. |
| `Samplers.RowsAre` | backend/app/remesh/transfer.py:39-42 | A point has the values of its last row for the material. |
| `Samplers.Sampler.At` | backend/app/remesh/transfer.py:70-95 | A value is found whenever some triangle of the material, not flat and with all three values, contains the point; any value found is the blend of one triangle of that material whose inside test holds. |
| `BackPedal.SizeSays` | SUPREM4GS/upstream/src/dbase/grid_upd.c:96-120 | In coordinates the size is twice the area of the moved triangle, signed by its turn, or the way between its two points. |
| `BackPedal.LinearLoss` | SUPREM4GS/upstream/src/dbase/grid_upd.c:126-133 | In the linear case the margin is first lost exactly at the root. |
| `BackPedal.NoRoots` | SUPREM4GS/upstream/src/dbase/grid_upd.c:138-139 | Without a positive discriminant no margin is ever lost. |
| `BackPedal.TwoRoots` | SUPREM4GS/upstream/src/dbase/grid_upd.c:138-146 | With two roots the margin is first lost exactly at the smallest positive root inside the step, for either sign of the leading coefficient. |
| `BackPedal.TriangleMargin` | SUPREM4GS/upstream/src/dbase/grid_upd.c:103-124 | The polynomial the code forms is the doubled area of the moved triangle less its share, at every part of the step. |
| `BackPedal.TriangleCut` | SUPREM4GS/upstream/src/dbase/grid_upd.c:96-146 | The cut of one triangle is the largest safe part of the step; the assertion fails exactly if the area is not positive. |
| `BackPedal.LengthCut` | SUPREM4GS/upstream/src/dbase/grid_upd.c:155-178 | The same for one element in one dimension. |
| `BackPedal.Run` | SUPREM4GS/upstream/src/dbase/grid_upd.c:78-195 | The step is cut to the largest part over which every element keeps at least 5% of its size all along, and no larger part would do; it fails exactly if some element has no positive size. |
| `BackPedal.NothingTurnsOver` | SUPREM4GS/upstream/src/dbase/grid_upd.c:73-77 | At no time of the cut step is an element inverted or flat. |
| `JobQueues.JobQueue.Candidate` | backend/app/jobs/queue.py:77-84 | The oldest queued job by creation time, then id; none exactly if nothing is queued. |
| `JobQueues.JobQueue.ClaimNext` | backend/app/jobs/queue.py:66-101 | Uninterrupted, a claim starts the oldest queued job, changes nothing else and keeps the cap; it gives up exactly at the cap or on an empty queue. |
| `JobQueues.JobQueue.MarkFinished` | backend/app/jobs/queue.py:103-131 | A running job gets the status, log, exit code and time, and nothing else changes; no other job changes, nor does one that is not running; QUEUED and RUNNING are refused as results. |
| `JobQueues.RowAfter` | backend/app/jobs/queue.py:30-187 | Whatever the event, the row of a job changes only by a claim, a result, a cancel or a put-back that hits it, and then in exactly the fields named. |
| `JobQueues.EnqueuedOnce` | backend/app/jobs/queue.py:30-58 | In every run each job was enqueued by exactly one event and still has its owner, directory and time of creation. |
| `JobQueues.EndedOnce` | backend/app/jobs/queue.py:103-168 | A job that has ended was ended by exactly one event, a result or a cancel, and has the status, log, exit code and time of that event, or is cancelled with log and exit code as before. |
| `JobQueues.RunningSince` | backend/app/jobs/queue.py:94-100 | A running job was started by the claim whose time it carries and has been running since. |
| `JobQueues.PutBackExactlyWhen` | backend/app/jobs/queue.py:170-187 | A running job is put back if and only if it was started before the cutoff. |
| `JobQueues.JobQueue.Cancel` | backend/app/jobs/queue.py:133-168 | Uninterrupted, cancels exactly queued and running jobs and returns the job as it was. |
| `JobQueues.JobQueue.RequeueStale` | backend/app/jobs/queue.py:170-187 | Puts back exactly the running jobs started before the cutoff, and counts them. |
| `JobQueues.TerminalForever` | backend/app/jobs/queue.py:118-131 | Over every interleaving: once a job has ended its row, with status, log and exit code, never changes again. |
| `JobQueues.ClaimInOneGo` | backend/app/jobs/queue.py:66-101 | The statements of one claim, back to back, do nothing at the cap or with no job queued, and otherwise start the first job. |
| `JobQueues.OneClaimerPerStart` | backend/app/jobs/queue.py:86-101 | A job begins to run exactly by one successful claim, of one claimer. |
| `JobQueues.StartedOnce` | backend/app/jobs/queue.py:94-98 | Between two starts of a job lies a requeue of it as stale. |
| `JobQueues.CapPlusClaimsInFlight` | backend/app/jobs/queue.py:73-93 | With at most W claims in flight at any time, at most max_concurrent + W - 1 jobs run; without overlap the cap holds. |
| `JobQueues.CapIsPassed` | backend/app/jobs/main.py:9-11 | For every cap and every W that bound is reached, so the stated promise that the cap holds for any number of loops and processes is false as soon as two claims overlap. |
| `JobQueues.CancelCanReportTheWrongStatus` | backend/app/jobs/queue.py:139-142 | A claim between the two statements of a cancel makes it report a queued job that was running when it was cancelled. |
| `JobQueues.CancelReportsRightExactlyWhen` | backend/app/jobs/queue.py:139-168 | What a cancel read stays with it; its answer is the job just before its UPDATE if and only if the job has ended in between or was started and put back an even number of times in all. |
| `BiasSolver.ClimbStaysBetween` | docker/devsim/run.py:429-440 | Along a walk the position never leaves the way from start to target and never goes back. |
| `BiasSolver.Solver.Solve` | docker/devsim/run.py:357-373 | One strict call, and one relaxed call only if it failed; a rescue is counted exactly when the relaxed call succeeded. |
| `BiasSolver.Solver.Try` | docker/devsim/run.py:397-408 | The step counts as taken exactly if the simulator converged in the strict call or in the relaxed one, one or two calls in all; a refused step is undone at every contact; parameters equal `applied` either way. |
| `BiasSolver.Solver.Reached` | docker/devsim/run.py:410-440 | Against any simulator: each attempt is the one due after those before it (a quarter of a volt halved at every refusal, never past the target) with the answer the simulator gave to its numbered call; the walk ends within 1e-12 of the target or after four refusals, with at most ceil(32 |target - start|) + 4 attempts of one or two calls each; all parameters equal `applied`. |
| `BiasSolver.AttemptSays` | docker/devsim/run.py:429-440 | In numbers: after f refusals an attempt goes 0.25 V halved f times towards the target, or onto it if that is nearer, and it succeeds exactly if one of its two calls converged. |
| `BiasSolver.FewAttempts` | docker/devsim/run.py:410-440 | In numbers: fewer than 32 |target - start| + 5 attempts. |
| `BiasSolver.EndsOnce` | docker/devsim/run.py:410-440 | The answers of the simulator decide the walk: no other list of attempts meets that description. |
| `BiasSolver.AlwaysArrives` | docker/devsim/run.py:410-456 | If no attempt would be refused, every target is reached. |
| `BiasSolver.Solver.RampTo` | docker/devsim/run.py:442-456 | Succeeds exactly if that walk arrives, and then stays there; fails only at an unknown bias or after four refused attempts, and then leaves `applied` and the parameters as on entry. |
| `BiasSolver.Solver.ResetTo` | docker/devsim/run.py:458-462 | All parameters and `applied` equal the saved voltages. |
| `DeviceRun.WalkIsAPermutation` | docker/devsim/run.py:546-552 | The walk visits every sweep value as often as it is listed. |
| `DeviceRun.WalkClimbsThenDescends` | docker/devsim/run.py:549-552 | It rises from the warm value and, after the turn, falls away from it. |
| `DeviceRun.VisitedRecorded` | docker/devsim/run.py:632-669 | Each point of a curve ends as one row, read at its own voltages, or as one failure where the walk stuck short of it. |
| `DeviceRun.StuckWhereTheWalkEnds` | docker/devsim/run.py:648-669 | A point fails exactly if the walk is not within 1e-12 of it after four refusals; the failure says where the walk stands, between its start and the point; otherwise the row has the voltages the walk ended with. |
| `DeviceRun.LegStarts` | docker/devsim/run.py:632-648 | Each point is walked to from where the one before it ended, the first after the turn from where the curve began. |
| `DeviceRun.CurveBegins` | docker/devsim/run.py:606-618 | A curve begins at the voltages kept from the start of the one before, if any, and its biases are set in order as long as each is reached. |
| `DeviceRun.CurveEnds` | docker/devsim/run.py:619-630 | A curve that cannot be started loses all its points and leaves the solver at the baseline; one that can leaves its start for the next. |
| `DeviceRun.WalkCurve` | docker/devsim/run.py:632-669 | The loop over a curve logs what the answers of the simulator, point by point, make of it (`Visited`). |
| `DeviceRun.CurvesRecorded` | docker/devsim/run.py:597-669 | Whatever the simulator does, every (step combination, sweep value) is recorded once, as a row or a failure, in the lists and in the stream alike. |
| `DeviceRun.NothingLost` | docker/devsim/run.py:597-669 | If no attempt would be refused and the plan names known biases, nothing is recorded as a failure. |
| `DeviceRun.Run` | docker/devsim/run.py:546-671 | The run logs exactly what the answers of the simulator make of the plan (`Curves`), with every point once; rows + failures = sweep values times combinations. |
| `DeviceRun.Scan` | backend/app/devsim/progress.py:55-83 | The count is the number of whole point lines; moving, empty and cut lines are passed over, and the latest whole line is described. |
| `DeviceRun.CountIs` | backend/app/devsim/progress.py:55-83 | The count is the number of whole lines that are points. |
| `DeviceRun.LatestIs` | backend/app/devsim/progress.py:66-83 | The last whole line is described: a move, a point solved or a point skipped. |
| `DeviceRun.ProgressIsTrue` | backend/app/devsim/progress.py:32-83 | Whenever the stream is read, in the middle of a line too, the count is at most the total, and at the end it is the total. |
| `SweepPlans.SweepHasBothEnds` | backend/app/devsim/spec.py:274-286 | The requested number of values, both ends included, strictly one way in between. |
| `SweepPlans.SweepIsEven` | backend/app/devsim/spec.py:286 | The gaps are equal: value i is i parts of the whole way, times points - 1. |
| `SweepPlans.ShortSweeps` | backend/app/devsim/spec.py:281-284 | No points, no values; one point or no way to go, and the start is all. |
| `SweepPlans.ProductIsAllChoices` | backend/app/devsim/spec.py:212-220 | The combinations are exactly the choices of one value per stepped bias; their number is the product. |
| `SweepPlans.ProductOrder` | backend/app/devsim/spec.py:212-220 | The first list varies slowest and the last fastest. |
| `SweepPlans.ProductNoRepeats` | backend/app/devsim/spec.py:212-220 | No combination comes up twice if no list repeats a value. |
| `SweepPlans.TotalIsAProduct` | backend/app/devsim/spec.py:289-291 | The total is the number of sweep values times the product of the list lengths; without stepped biases, the sweep alone. |
| `ConductorClusters.Flood` | backend/app/devsim/electrodes.py:159-169 | The queue empties; the group holds `start`, only conductors reached from it that were not marked before, and every conductor next to the group is in it or was marked before. |
| `ConductorClusters.Clusters` | backend/app/devsim/electrodes.py:139-171 | Each conductor is in exactly one cluster, nothing else in any; if neighbours list each other no link leads out of a cluster. |
| `ConductorClusters.TogetherMeansJoined` | backend/app/devsim/electrodes.py:142-147 | Then two conductors share a cluster if and only if a conductor path joins them. |
| `ConductorClusters.LinkedMeans` | backend/app/devsim/electrodes.py:124-165 | An element conducts exactly if the last row of its region has a metal as material; it is linked to the conductors its slots name. |
| `DeviceMesh.IterElements` | backend/app/devsim/mesh.py:94-108 | The index loop reads exactly the records of the flat array, and fails where a record is cut off after its first entry. |
| `DeviceMesh.DecodeSays` | backend/app/devsim/mesh.py:94-108 | A record of kind 1 has two nodes, any other three; one that is cut short has the nodes that are left. |
| `DeviceMesh.RoundTrip` | backend/app/devsim/mesh.py:94-108 | Reading the flat form of a list of records gives the list back. |
| `DeviceMesh.DecodedEncodes` | backend/app/devsim/mesh.py:94-108 | A flat array that reads back into complete records is their flat form. |
| `DeviceMesh.NumberPoints` | backend/app/devsim/mesh.py:210-215 | The corners of the kept elements are numbered 0 to n - 1, each number once. |
| `DeviceMesh.PlacePoints` | backend/app/devsim/mesh.py:217-223 | Every numbered point is at its own three entries, scaled, with y turned. |
| `DeviceMesh.PhysicalNames.Physical` | backend/app/devsim/mesh.py:225-232 | A name gets one index for good, and indices given before stay good. |
| `DeviceMesh.Build` | backend/app/devsim/mesh.py:192-292 | The flat array reads back into one triangle per kept element with its own corners, non-negative area after the turn of y and its region's name, then one edge per inner segment and per contact edge, in order; fails exactly without regions or off two dimensions. |
| `DeviceMeshReading.PointSays` | backend/app/devsim/mesh.py:217-223 | A point is at its number with x times 1e-4, minus y times 1e-4, and 0. |
| `DeviceMeshReading.TriangleSays` | backend/app/devsim/mesh.py:239-245 | A triangle record is of kind 2, has the three corners of its element, turns left, and is named after its region. |
| `DeviceMeshReading.InterfacesAreThere` | backend/app/devsim/mesh.py:247-272 | Read back, there is an edge of kind 1 for every segment between two kept regions, with its ends in order and the name of the pair, smaller number first. |
| `DeviceMeshReading.OnlyInterfacesAreThere` | backend/app/devsim/mesh.py:247-272 | And every edge in that part is one of these. |
| `DeviceMeshReading.PairsOnce` | backend/app/devsim/mesh.py:247-262 | The interfaces are the pairs of kept regions that some segment separates, each once, smaller number first. |
| `DeviceMeshReading.ContactsAreThere` | backend/app/devsim/mesh.py:274-290 | There is an edge for every contact edge of a kept region, under the name of its contact. |
| `DeviceMesh.ReadBackInRange` | backend/app/devsim/mesh.py:192-292 | Every node and physical index read back is in range. |
| `StrText.LineRead` | backend/app/str_parser/parser.py:53-75 | A line made of a tag, words after gaps of blanks, and blanks at the end is stripped, partitioned and split into that tag and those words. |
| `StrFile.ParseStructure` | backend/app/str_parser/parser.py:44-66 | The loop over the lines with its mutable accumulator computes the fold of the line handlers. |
| `StrRecords.DimensionRecord` | backend/app/str_parser/parser.py:82-90 | The first three numbers of a D record are the dimension and the two counts. |
| `StrRecords.TemperatureRecord` | backend/app/str_parser/parser.py:158-159 | The second number of an M record is the temperature. |
| `StrRecords.SpeciesRecord` | backend/app/str_parser/parser.py:162-174 | An s record holds as many codes as it declares, or is refused. |
| `StrRecords.OtherHeadRecords` | backend/app/str_parser/parser.py:78-79 | The version is the words of a v record; of an I record nothing is kept. |
| `StrRecords.RegionRecord` | backend/app/str_parser/parser.py:112-124 | The first two numbers of an r record are id and material. |
| `StrRecords.CoordinateRecord` | backend/app/str_parser/parser.py:93-109 | A c record of three words is a point with y = 0, of four a point with both; others are refused. |
| `StrRecords.ElementRecord` | backend/app/str_parser/parser.py:127-155 | The numbers of a t record become an element: corners less one, positive neighbours less one, codes as they are; it is refused if the D record asks for another count. |
| `StrRecords.NodeRecord` | backend/app/str_parser/parser.py:177-195 | An n record has one value for each declared species, or is refused. |
| `StrFile.WriteStructure` | backend/app/str_parser/writer.py:37-56 | The written lines are the copied records and the made ones in the order v D c r t M s n I. |
| `StrRecords.ElementIsWritten` | backend/app/str_parser/writer.py:81-91 | The words of a written element: corners plus one, element neighbours plus one, codes as they are. |
| `StrRecords.CoordinateIsWritten` | backend/app/str_parser/writer.py:71-78 | A coordinate is written with as many axes as there are dimensions. |
| `StrFile.ReadsCoordinate` | backend/app/str_parser/writer.py:71-78 | A written coordinate is read back, y being lost only in one dimension. |
| `StrFile.ElementComesBack` | backend/app/str_parser/writer.py:81-91 | Vertices come back 0-based and neighbours with their boundary codes exactly if the counts are those of the D record. |
| `StrFile.ReadsNode` | backend/app/str_parser/writer.py:94-101 | A written node row is read back exactly if it has one value per declared species; otherwise it is refused. |
| `StrFile.WriteThenParse` | backend/app/str_parser/writer.py:37-56 | Parsing what was written gives the mesh and its values back if and only if the copied records can be read, declare the species and go with the structure; the head is what those records say. |
| `StrFile.HeadSurvivesExactlyWhen` | backend/app/str_parser/writer.py:27-34 | The written file has the head of the source, kind by kind of record, if and only if the last record the parser sees and the last one the writer copies say the same. |
| `StrFile.HeadSurvives` | backend/app/str_parser/writer.py:27-34 | In particular if the copying loop and the parser see the same tag on every line. |
| `StrFile.RewriteChangesNothing` | backend/app/str_parser/writer.py:1-14 | For every file that can be read: writing it and reading it again changes nothing if and only if the copied records say what the last ones of their kind say, and its records go with each other. |
| `StrFile.IndentedRecordIsLost` | backend/app/str_parser/writer.py:30-33 | A line whose tag is off the margin, wherever it stands, leaves no trace in the written file, although the parser reads it. |
| `StrFile.RewriteCanChangeTheFile` | backend/app/str_parser/writer.py:1-3 | A concrete file that is read without complaint and comes back with other species. |
| `RateLimits.RateLimiter.Prune` | backend/app/api/rate_limit.py:73-78 | What is left for a key is exactly the last window of the whole log. |
| `RateLimits.RateLimiter.Blocked` | backend/app/api/rate_limit.py:47-52 | Blocked exactly if at least `limit` recorded hits lie in the last window of the whole log: pruning and sweeping never change the answer. |
| `RateLimits.RateLimiter.Record` | backend/app/api/rate_limit.py:54-60 | The whole log gains one hit, and no key stays in memory whose last hit has left the window. |
| `RateLimits.RateLimiter.Allow` | backend/app/api/rate_limit.py:40-45 | A hit is recorded exactly if fewer than `limit` were in the window. |
| `RateLimits.RateLimiter.RetryAfter` | backend/app/api/rate_limit.py:62-71 | Zero exactly if not blocked, otherwise the time until the first live hit leaves; an index error exactly for a limit of at most 0 without hits. |
| `RateLimits.WindowHoldsLimit` | backend/app/api/rate_limit.py:19-24 | Of a key driven only by allow(), no window, wherever it lies, holds more than `limit` hits. |
| `RateLimits.WaitingHelpsExactlyWhen` | backend/app/api/rate_limit.py:62-71 | Who waits as told is let through if and only if the live hits, less those no later than the first of them, are fewer than `limit`. |
| `RateLimits.WaitingHelpsAllowed` | backend/app/api/rate_limit.py:62-71 | So waiting always helps for a key driven only by allow(). |
| `RateLimits.WaitingMayNotHelp` | backend/app/api/rate_limit.py:62-66 | For hits recorded regardless it may not: a concrete log. |

## Left out

General:

- Rounding: floats are reals throughout. Distances are compared by their squares, which orders them alike.
- I/O and libraries: database sessions, gmsh, the solver's physics, files and HTTP. The solver is an arbitrary function from
  call number to outcome, the job table is a map changed by one guarded update at a time, clocks are parameters.
- `lexical.c`, `split.c`, `eval_vec`, `nxtel`, `kill_node`, `new_layer.c`, `grid_loop.c`, the rate, quota and session
  policies, plotting and the user interface: they rest on tables and headers not modelled, or would only add easy members.

By member:

- ExprParser.Parser.ParseExpr: the token array has 100 slots and the code does not check them; a push past the end is the result `Overrun`, and nothing is said about what the C program does then.
- ExprEval.EvalMatchesTokens: arithmetic and library functions are parameters; reading the solution at a point is one of them.
- ExprMachine.DetectErrorNeverFires: unknown strings are refused by `lexical()`, which is not part of this model; the model starts from tokens.
- MeshFlipPasses.FlipRunEnds: `flip()` stops after 30 passes. Whether a mesh exists that still is not Delaunay then is left open; Delaunay is proved for runs of fewer passes, and for those whose last pass flips nothing.
- MeshDb.Database.FlipAll: `do_geom` beyond the couplings, the flags (`geom()` clears `CHPFIX` before it calls `flip()`) and the failure of an allocation are not modelled.
- MeshWalks.NoneInside: that in a region without holes or dents a straight walk to every corner exists is not part of this model, which knows the mesh by its tables only.
- MeshDb.Database.TriFlip: the lists inside the tables are sequences; that the C list behind them behaves like one is proved for `MeshDb.IntList`.
- RegionLoops.Loops: `next(iter(remaining))` picks an arbitrary point, so the order of the loops is not fixed.
- RemeshElements.Rebuild: vertex numbers of the old structure must name coordinates.
- BoundaryIndexes.BoundaryIndex.CodeAt: the cell size, taken from the median length, may be any positive number.
- Samplers.Sampler.At: only the case without reach; `_nearest` looks at adjacent cells by design and is not complete. The side count, taken from a square root, may be any positive number.
- BackPedal.Run: the square root is a parameter assumed to be one on positive numbers; `fixup_t1d` is not modelled, and `abs` is taken as the absolute value of a real.
- SimplifyBoundary.Run: vertex numbers must name coordinates; Python's negative indices are not modelled.
- JobQueues.JobQueue.ClaimNext: deletions of job rows elsewhere in the service are not modelled; a late result of a worker whose job was requeued is accepted, as in the code.
- BiasSolver.Solver.Reached: restoring the field solution is not modelled, only voltages and counters.
- DeviceRun.Run: starts after the warm-up and the constants; reading currents and voltages is taken not to raise; the iteration counts in rows and failures are not modelled.
- ConductorClusters.Clusters: materials are numbers instead of names.
- DeviceMesh.Build: which regions are kept (`_select_regions`) and the names of contacts and interfaces are parameters; `_contact_specs` is not modelled.
- StrFile.WriteThenParse: numbers are assumed to survive printing and reading one by one; the text is a list of lines, warnings and the lookup tables for materials and species are not modelled, dimensions are one or two, and negative counts in a D record are refused. A neighbour code 0, which no written file holds, is read as 0 like the code 1.
