# Difference service: a verified model

The difference service compares two versions of a file and stores what it finds. This
project models the four parts of it that carry the weight and proves what each is for.

- **The page matcher** (`PdfParse`, `PdfMatch`, `Lcs`, `PagePairing`, `PathSvg`,
  `PageRender`). A content stream is walked into objects; two pages' objects are aligned
  by a majority vote on a common offset, a longest common subsequence over draw order and
  a nearest-neighbour residue; every object gets a verdict; paths are compiled to SVG
  commands; and the three layers of the page are drawn.
- **The model matcher** (`Model3D`, `GreedyMatching`, `GeometryMatch`, `VerdictOrder`).
  Elements of equal shape are paired nearest first. The pairing is characterised without
  the algorithm, as the one that is stable and leaves nothing free that could be paired,
  and everything promised of it is derived from that.
- **The merged file** (`Bytes`, `GlbContainer`, `MergedGlb`, `Gltf`, `MetaModel`). One
  side writes a binary glTF file (container layout as in section 4.4 of the Khronos
  glTF 2.0 specification); the other reads accessors, composes transforms and walks the
  scene. They are shown to undo each other.
- **Stored results** (`Naming`, `Renditions`, `Pipeline`, `CommitProtocol`, `JobQueues`).
  Content children first and the manifest last, under crashes, failed listings and many
  runners; content-addressed names; pruning; and the coalescing job queue, whose methods
  are steps of an interleaved one.

Beside each part stand modules that say what its functions mean without naming their
bodies: what an operator of a content stream does (`ContentStream`), which objects are
paired and what is reported of them (`PageMatching`, `PdfVerdicts`, `ReportOrder`), which
pages are compared (`PagePartners`), what is drawn (`PageStates`), what equal shape keys
say (`ShapeKeys`), what a rotation does (`Quaternions`), how bytes and chunks read
(`AccessorMeaning`, `GlbChunks`, `LoaderReports`, `SceneRoots`), what the object tree
shows (`MetaParts`), what a run of the pipeline comes to (`PipelineOutcomes`) and what the
queue answers (`QueueAnswers`).

What the source does step by step is a method proved against a specification function or
predicate; the theorems are lemmas about those. Objects the source updates in place are
classes (`SceneBuilder`, `FileEngine`, `Plugin`, `JobQueue`). Every lemma switches
automatic induction off, so each proof is the one written down.

Assumptions appear as parameters and preconditions: a digest that tells texts apart and
writes no dots (`Faithful`); JSON text that reads back as the value written, trailing
spaces or not (`ReadsBack`), asked only of the documents at hand; coordinates that a
32-bit word holds exactly (`Exact`). Arithmetic is over the reals, distances are compared
squared, and Python's `round` is rounding half to even.

Seven findings differ from what the sources' own comments suggest. Each comes with inputs
that show it and with the exact condition under which it happens.

- A curve that takes the current point as its first control point is drawn wrongly after
  a close, exactly when the close moved the current point (`PathMeansTheSame`,
  `CloseThenCurve`, `CloseThenCurveExample`; `plugins/pdf_svg.py:130-131`).
- Pairing by shape can follow file order, exactly when a pair lost to one of its own
  distance and to no nearer one; the verdicts can, exactly when the two were within the
  tolerance and not copies of each other (`OrderIsIgnoredExactly`,
  `VerdictsIgnoreOrderExactly`, `TiesFollowFileOrder`; `plugins/model3d.py:321`).
- The correction of Z-up models does not take (x, y, z) to (x, z, -y) as its comment
  says: the quaternion's decimal literal leaves a tilt below 3e-16, so only points on the
  axis of rotation land exactly there (`ZUpTurnsVertices`; `plugins/xkt.py:160-170`).
- The glTF loader is documented never to raise; as far as numbers are finite, it does
  exactly on an accessor in use that names a missing buffer view (`LoaderStopsExactly`,
  `ViewlessStops`; `plugins/gltf_objects.py:167`, `:185`).
- Page correspondence loses its order, exactly with more than 1000001 new pages and a
  deletion (`CorrespondenceShape`; `plugins/pdf_match.py:339-340`).
- A comparison shares its key with another exactly when a field of it has a bar
  (`KeysAreSharedExactly`; `manifest.py:60-62`).
- A child left empty by a crash is taken as written by the next run, which then commits a
  manifest over it (`WriteFillsExactly`, `UnfilledChildIsCommitted`;
  `renditions.py:146-147`). And a runner that writes children can have them
  pruned while it writes, exactly when another runs a later version of the plugin on its
  pair; other keys are safe beside it (`SafeExactly`, `OvertakenIsBroken`).

## Model

| member | source | states |
|---|---|---|
| Rounding.SnapHalfShift | src/difference_service/plugins/pdf_objects.py:47-71 | snapping to the half-unit grid commutes with shifts by whole units, although ties round to even |
| Rounding.TiesGoToEven | src/difference_service/plugins/pdf_objects.py:70-71 | a value halfway between two integers rounds to the even one |
| Lcs.LcsPairs | src/difference_service/plugins/pdf_match.py:140-173 | the table filled in place and walked returns the specified pairs, and none above the cell cap |
| Lcs.Walk | src/difference_service/plugins/pdf_match.py:160-173 | the walk's pairs ascend on both sides, join equal items, and number what the table promises |
| Lcs.AlignedIsLongest | src/difference_service/plugins/pdf_match.py:140-173 | at or below the cap no common subsequence is longer than the one returned |
| Lcs.AlignedIsEarliest | src/difference_service/plugins/pdf_match.py:160-173 | and of the longest it is the one whose positions on the new side are, one by one, the earliest |
| Lcs.AlignedOnEqualInputs | src/difference_service/plugins/pdf_match.py:140-173 | equal inputs pair each item with itself, or nothing above the cap |
| PdfMatch.DominantOffset | src/difference_service/plugins/pdf_match.py:102-135 | the offset returned holds more than half of the votes, or is the origin and no cell does |
| PdfMatch.DominantIsUnique | src/difference_service/plugins/pdf_match.py:125-135 | at most one offset is dominant, so the outcome does not depend on the order of counting |
| PdfMatch.MajorityWins | src/difference_service/plugins/pdf_match.py:125-135 | a cell with more than half of the votes is the offset, and any offset but none has them |
| PdfMatch.GreedyResidual | src/difference_service/plugins/pdf_match.py:176-198 | the residue pairs each leftover, in order, with the nearest free one of its signature within an inch |
| PdfMatch.MatchPage | src/difference_service/plugins/pdf_match.py:221-269 | the delta's offset is the dominant one, its deltas are the verdicts over the matching, and counts and confidence follow |
| PdfMatch.MatchingIsValid | src/difference_service/plugins/pdf_match.py:221-245 | the matching joins equal signatures and uses no object twice on either side |
| PdfMatch.UnmatchedAreFarApart | src/difference_service/plugins/pdf_match.py:176-198 | two unmatched objects of one signature are at least 72 units apart after alignment |
| PageMatching.MatchingAligns | src/difference_service/plugins/pdf_match.py:221-245 | at or below the cap the first pairs are a longest common subsequence of the draw orders, earliest on the new page; every other pair is of objects less than an inch apart |
| PageMatching.NearestIsTaken | src/difference_service/plugins/pdf_match.py:176-198 | an object paired outside the alignment has the nearest of its signature the alignment left, the first of equals, but for those that went to objects before it |
| PageMatching.LosesOut | src/difference_service/plugins/pdf_match.py:176-198 | an object left unmatched saw every one of its signature less than an inch away, that the alignment left, go to one before it |
| PdfVerdicts.ReportedExactly | src/difference_service/plugins/pdf_match.py:201-269 | the deltas are exactly these: for a matched pair at most 72 units apart one two-sided delta, modified just when it moved more than 0.75 or changed style, and saying which; for a farther pair a deletion and an addition marked relocated; for an unmatched object a deletion or an addition with no reason |
| ReportOrder.ReportedInOrder | src/difference_service/plugins/pdf_match.py:245-264 | matched objects are reported first, by their places on the old page, each beside its partner; then the deleted, then the added, each in draw order |
| PdfMatchTheorems.EveryObjectOnce | src/difference_service/plugins/pdf_match.py:221-269 | every old object is the old side of exactly one delta, every new object the new side of exactly one |
| PdfMatchTheorems.EveryDeltaWellFormed | src/difference_service/plugins/pdf_match.py:201-269 | one-sided deltas are additions and deletions; two-sided ones join equal signatures, and are unchanged exactly when near enough and of one style |
| PdfMatchTheorems.ConfidenceIsAShare | src/difference_service/plugins/pdf_match.py:272-302 | confidence lies between 0 and 1 |
| Scoring.ScoreMeans | src/difference_service/plugins/pdf_match.py:272-302 | the score is, to half of the fourth decimal, the matched share of the smaller side where that is the less, and otherwise one over one more than the number of unknown operators |
| PdfVerdicts.TrustedPage | src/difference_service/plugins/pdf_match.py:94-97 | a page is trusted exactly when neither side held an unknown operator and 0.59995 of the smaller page were matched |
| Scoring.TrustworthyExactly | src/difference_service/plugins/pdf_match.py:94-97 | a score passes the threshold exactly when nothing was left uncomprehended and the matched share, before rounding, is at least 0.59995 |
| DiffExactness.CellIsClose | src/difference_service/plugins/pdf_match.py:47-58 | voting on whole units leaves an object at most sqrt(1/2) from its place, within the move tolerance |
| DiffExactness.DiffIsExact | src/difference_service/plugins/pdf_match.py:102-269 | with signatures distinct on each side and shared objects moved by one real vector, exactly the shared are unchanged, the rest deleted or added, and matched counts the shared, whatever the draw order and on both sides of the cap |
| PageShift.ShiftIsInvisibleExactly | src/difference_service/plugins/pdf_match.py:102-269 | a page shifted by whole units is wholly unchanged exactly when some signature occurs once on it, or the shift is none |
| PagePairing.PairPages | src/difference_service/plugins/pdf_match.py:307-341 | the loops compute the specified correspondence of pages |
| PagePartners.PartnersExactly | src/difference_service/plugins/pdf_match.py:307-341 | two pages are compared exactly when they are aligned, or neither is and as many unaligned pages come before the one as before the other |
| PagePartners.DeletedExactly | src/difference_service/plugins/pdf_match.py:329-338 | an old page is deleted exactly when it is unaligned and as many unaligned pages come before it as the new document has in all |
| PagePairing.CorrespondenceShape | src/difference_service/plugins/pdf_match.py:307-341 | exactly when there are at most 1000001 new pages or none is deleted: as many entries as the longer side has pages, each page once, entry j is new page j, deleted pages follow ascending, deletions and additions never both |
| PagePairing.ShapeFailsBeyond | src/difference_service/plugins/pdf_match.py:339-340 | from 1000002 new pages on, with deletions besides, entry 1000001 is not its page: the stand-in key sorts among real ones |
| GreedyMatching.Accept | src/difference_service/plugins/model3d.py:321-330 | sorting candidates and taking each whose ends are free yields a pairing in which whatever is left out lost to an earlier accepted one |
| GreedyMatching.GreedyIsUnique | src/difference_service/plugins/model3d.py:321-330 | that property determines the pairing |
| GreedyMatching.MaximalIsMaximum | src/difference_service/plugins/model3d.py:316-337 | a pairing within classes that leaves no two of a class free pairs, in every class, as many as the scarcer side has |
| GeometryMatch.MatchByGeometry | src/difference_service/plugins/model3d.py:302-349 | the pairing is greedy for all same-shape pairs by distance, and the deltas and the matched count follow from it |
| GeometryTheorems.PairingIsUnique | src/difference_service/plugins/model3d.py:312-337 | two models have exactly one such pairing |
| GeometryTheorems.PairingIsStable | src/difference_service/plugins/model3d.py:321-330 | of an unpaired same-shape pair, one end is paired nearer, or as near with one earlier in its file |
| GeometryTheorems.MatchedIsMaximum | src/difference_service/plugins/model3d.py:312-337 | matched is the sum over shapes of the lesser count |
| GeometryTheorems.StayedPut | src/difference_service/plugins/model3d.py:312-349 | in every class of one shape and centroid, as many stay in place as both sides have |
| GeometryTheorems.SupersetIsExact | src/difference_service/plugins/model3d.py:312-349 | a new model holding at least the old one's elements: every old one unchanged and one addition for each extra |
| GeometryTheorems.ReorderedIsUnchanged | src/difference_service/plugins/model3d.py:302-349 | a reordered model is wholly unchanged, duplicates included |
| GeometryTheorems.ConfidenceIsAShare | src/difference_service/plugins/model3d.py:352-365 | confidence lies between 0 and 1 |
| Model3D.ShapeIgnoresPlace | src/difference_service/plugins/model3d.py:110-131 | moving a mesh keeps its shape key |
| ShapeKeys.CentroidBalances | src/difference_service/plugins/model3d.py:110-117 | the offsets of the vertices from the centroid add up to nothing on each axis |
| ShapeKeys.BalanceIsUnique | src/difference_service/plugins/model3d.py:110-117 | and from no other point do they |
| ShapeKeys.EqualKeysAreTranslates | src/difference_service/plugins/model3d.py:119-131 | equal keys mean as many vertices and, if any, the same faces, each coordinate within 0.0001 of the other's about the centroids |
| ShapeKeys.ExactTranslatesHaveEqualKeys | src/difference_service/plugins/model3d.py:119-131 | meshes with the same faces, or without vertices, that lie exactly alike about their centroids have equal keys |
| ShapeKeys.PairsAreTranslates | src/difference_service/plugins/model3d.py:316-330 | whatever the matcher pairs are such translates |
| ShapeKeys.UnchangedIsTranslate | src/difference_service/plugins/model3d.py:332-349 | whatever it reports unchanged are, their centroids no farther apart than the tolerance |
| ShapeKeys.ToleranceOfDiagonals | src/difference_service/plugins/model3d.py:312-314 | the tolerance is two hundredths of the larger model's diagonal, or of one unit where both are points |
| OrderIndependence.OrderIsIgnoredExactly | src/difference_service/plugins/model3d.py:302-349 | no relisting of either model changes the pairing, exactly when the models admit a one-to-one pairing within shapes in which every pair left out shares an element with a strictly nearer member |
| OrderIndependence.NoTiesDecide | src/difference_service/plugins/model3d.py:321-330 | that holds whenever no two pairs that share an element are equally far apart, whatever else ties |
| VerdictOrder.VerdictsIgnoreOrderExactly | src/difference_service/plugins/model3d.py:302-349 | no relisting changes the collection of verdicts, exactly when every same-shape pair within the tolerance that was left out lost to an accepted one that shares an element and is strictly nearer or joins the same two elements |
| VerdictOrder.DecidedIsSettled | src/difference_service/plugins/model3d.py:321-330 | that holds wherever no tie had a say in the pairing |
| CoupleCounts.SameUpTo | src/difference_service/plugins/model3d.py:321-337 | where ties up to a distance are only between copies, each two elements are paired equally often in every listing |
| ModelConservation.EveryElementOnce | src/difference_service/plugins/model3d.py:326-349 | every old element is the old side of exactly one delta and every new element the new side of exactly one |
| ModelConservation.LayersAreWholeModels | src/difference_service/plugins/xkt.py:128-145 | the old layer of the merged file is every mesh of the old model, the new layer every mesh of the new one |
| PdfParse.ParsePage | src/difference_service/plugins/pdf_objects.py:254-394 | the loop over operators, its graphics-state stack and path in progress computes the specified walk |
| ContentStream.BracketRestores | src/difference_service/plugins/pdf_objects.py:287-290 | between a q and its Q anything may be done: afterwards the graphics state and the stack are what they were |
| ContentStream.StrayRestore | src/difference_service/plugins/pdf_objects.py:289-290 | a Q with nothing saved goes back to the state of a fresh page |
| ContentStream.MulComposes | src/difference_service/plugins/pdf_objects.py:57-67 | a product of matrices applies its first factor first |
| ContentStream.MatrixImages | src/difference_service/plugins/pdf_objects.py:65-67 | where a matrix puts the origin and the unit points |
| ContentStream.StateStepMeans | src/difference_service/plugins/pdf_objects.py:286-319 | an operator of the state changes that and nothing else the walk holds |
| ContentStream.CmMeans | src/difference_service/plugins/pdf_objects.py:291-292 | cm changes the matrix alone, which then takes a point through the operand's matrix first |
| ContentStream.WidthMeans | src/difference_service/plugins/pdf_objects.py:293-294 | w sets the line width alone, to one where its operand is no number |
| ContentStream.FillMeans | src/difference_service/plugins/pdf_objects.py:295-296 | g, rg and k set the fill, in thousandths, and nothing else |
| ContentStream.StrokeMeans | src/difference_service/plugins/pdf_objects.py:297-298 | G, RG and K set the stroke, and nothing else |
| ContentStream.BeginTextMeans | src/difference_service/plugins/pdf_objects.py:301-302 | text starts over where user space begins |
| ContentStream.TextMatrixMeans | src/difference_service/plugins/pdf_objects.py:315-316 | Tm sets the text and line matrices to the operand's |
| ContentStream.OffsetMeans | src/difference_service/plugins/pdf_objects.py:309-314 | Td and TD start the next line at an offset from where the last one did, TD setting the leading |
| ContentStream.NextLineMeans | src/difference_service/plugins/pdf_objects.py:317-319 | and T* at the leading below it |
| ContentStream.LeadingMeans | src/difference_service/plugins/pdf_objects.py:307-308 | TL sets the leading alone |
| ContentStream.FontMeans | src/difference_service/plugins/pdf_objects.py:303-306 | Tf sets the size and the face behind the resource, without its slashes |
| ContentStream.FaceMeans | src/difference_service/plugins/pdf_objects.py:126-140 | a subset's six-letter tag says nothing about the face |
| ContentStream.UntaggedFace | src/difference_service/plugins/pdf_objects.py:131-140 | and a name without such a tag is left as it is |
| ContentStream.TextMeans | src/difference_service/plugins/pdf_objects.py:321-337 | a showing operator adds one object for a non-empty string, in its face and size, where text space begins on the page; the quote operators then start a line |
| ContentStream.BuildMeans | src/difference_service/plugins/pdf_objects.py:339-356 | a construction operator adds its points, taken through the matrix of the moment |
| ContentStream.PointsMean | src/difference_service/plugins/pdf_objects.py:345-356 | the points of moves, lines and curves are the operands two by two, and a close has none |
| ContentStream.RectangleMeans | src/difference_service/plugins/pdf_objects.py:340-344 | a rectangle's are its four corners, counter-clockwise |
| ContentStream.PaintMeans | src/difference_service/plugins/pdf_objects.py:358-371 | a painting operator makes what was gathered one object, in the style of the moment, or nothing of no points, and starts over |
| ContentStream.EqualPathKeys | src/difference_service/plugins/pdf_objects.py:160-170 | paths of equal keys have the same operators, and points that lie alike about the first to within half a unit |
| ContentStream.ImageMeans | src/difference_service/plugins/pdf_objects.py:373-389 | an image adds an object at the origin and marks the page as raster |
| ContentStream.PageNotes | src/difference_service/plugins/pdf_objects.py:391-394 | a page reports exactly its operations outside the vocabulary, and its moves, lines and rectangles short of operands, in order; and it is marked as raster exactly when it draws an image |
| PageTranslation.ShiftedParse | src/difference_service/plugins/pdf_objects.py:254-394 | a stream that never pops an empty stack, prefixed with a whole-unit translation, yields the same objects shifted, images in place, the same unknown operators and raster flag |
| PageTranslation.ShiftedPageIsUnchanged | src/difference_service/plugins/pdf_match.py:221-269 | such a page without images compares as wholly unchanged exactly when a signature occurs once, or the shift is none |
| PathSvg.PathD | src/difference_service/plugins/pdf_svg.py:74-132 | the loop emits the specified commands, consuming points in step with operators, or the polyline when they do not tally |
| PathMeaning.PathMeansTheSame | src/difference_service/plugins/pdf_svg.py:74-132 | the commands denote the PDF operators' subpaths, lines and cubics exactly when, at every v that follows an h, the last point drawn is the start of its subpath |
| PathMeaning.PathMeansTheSameWithoutClose | src/difference_service/plugins/pdf_svg.py:74-132 | without a v directly after an h they always do |
| PathMeaning.CloseThenCurve | src/difference_service/plugins/pdf_svg.py:122-131 | for one, after any path a line away from the subpath's start, a close and a v are drawn wrongly |
| PathMeaning.ParsedPathsTally | src/difference_service/plugins/pdf_objects.py:339-371 | with well-formed operands every parsed path passes the accounting test, so the lossy fallback is not taken |
| PageStates.FallbackMeans | src/difference_service/plugins/pdf_svg.py:63-71 | where operators and two points or more do not tally, the drawing is every point joined in turn, closed if the path held a rectangle or a close |
| PageRender.RenderPage | src/difference_service/plugins/pdf_svg.py:183-213 | the loop over deltas fills the three layers, or gives up when an object cannot be drawn |
| PageRender.LayersAreWhole | src/difference_service/plugins/pdf_svg.py:193-206 | the old layer draws every object of the old page once, the new layer every object of the new one |
| PageStates.DrawnStates | src/difference_service/plugins/pdf_svg.py:193-212 | each object is drawn in the state of its delta in the layer of its page, and of what differs the newest side in the layer of changes |
| PageStates.DrawnAs | src/difference_service/plugins/pdf_svg.py:149-176 | text is drawn by its outlines, an image as a marker, a path by its commands, filled or stroked at its width |
| PageStates.PaintedFill | src/difference_service/plugins/pdf_svg.py:135-136 | a painted path is filled exactly when the operator that painted it fills |
| PageRender.RenderedExactly | src/difference_service/plugins/pdf_svg.py:149-213 | a compared page is rendered exactly when every object of both versions can be drawn |
| Bytes.Pad | src/difference_service/plugins/xkt.py:189-193 | padding appends the fill up to a multiple of four and nothing to what already is one |
| GlbContainer.PackGlb | src/difference_service/plugins/xkt.py:187-199 | the file is the header and the two padded chunks in the layout of the specification |
| GlbContainer.SplitGlb | src/difference_service/plugins/gltf_objects.py:101-120 | the loop over chunks computes the specified split: later chunks of a kind win, unreadable JSON spoils the file |
| GlbContainer.SplitUndoesPack | src/difference_service/plugins/gltf_objects.py:101-120 | splitting what was packed gives back the document and the padded buffer |
| GlbChunks.ContainerRead | src/difference_service/plugins/gltf_objects.py:101-120 | whatever its chunks, its version and what comes after its stated length, a container reads as its last JSON chunk and its last binary one, and as nothing if a JSON chunk cannot be read |
| LoaderReports.PlainReadsAsContainer | src/difference_service/plugins/gltf_objects.py:123-130 | a plain document reads as the container that holds it alone |
| LoaderReports.ComplaintsExactly | src/difference_service/plugins/gltf_objects.py:184-253 | the loader complains exactly when it found no element, and of an unreadable file exactly when no document is in it and it is none |
| Transforms.Multiply | src/difference_service/plugins/gltf_objects.py:63-69 | the nested loops compute the column-major product |
| Transforms.ApplyComposes | src/difference_service/plugins/gltf_objects.py:63-96 | a product with an affine second factor applies that factor first |
| Transforms.TrsMeaning | src/difference_service/plugins/gltf_objects.py:72-90 | a composed local transform scales, then rotates, then translates |
| Transforms.TrsIsAffine | src/difference_service/plugins/gltf_objects.py:72-90 | a composed local transform is affine whatever its parts, as the walk's theorems ask |
| Quaternions.HamiltonsRules | src/difference_service/plugins/gltf_objects.py:81-87 | the quaternion product defined here is Hamilton's |
| Quaternions.RotationTurns | src/difference_service/plugins/gltf_objects.py:81-87 | for every quaternion the matrix takes v to q v q*, and a multiple of v for what the length falls short of one |
| Quaternions.TurnsExactly | src/difference_service/plugins/gltf_objects.py:81-87 | it is q v q* for all points exactly when the length is one |
| Quaternions.ScalingScales | src/difference_service/plugins/gltf_objects.py:88 | scaling multiplies coordinate by coordinate |
| Quaternions.TranslationMoves | src/difference_service/plugins/gltf_objects.py:89 | translation adds |
| Quaternions.LocalMeaning | src/difference_service/plugins/gltf_objects.py:72-90 | a composed transform takes v to t + q (s v) q* for a quaternion of length one |
| Quaternions.ExplicitMeaning | src/difference_service/plugins/gltf_objects.py:74-75 | a matrix given outright has the images of the axes and of the origin in its columns |
| Gltf.ReadValues | src/difference_service/plugins/gltf_objects.py:152-179 | the reading loop honours offset and stride and stops at the first element past the buffer |
| AccessorMeaning.ComponentMeans | src/difference_service/plugins/gltf_objects.py:48-52 | each component type reads its bytes as little-endian, signed, unsigned or floating |
| AccessorMeaning.KindMeans | src/difference_service/plugins/gltf_objects.py:54-56 | how many components an element of each kind has, and that any other kind has none |
| AccessorMeaning.ViewMeans | src/difference_service/plugins/gltf_objects.py:164-179 | element by element, component by component, an accessor reads at the offsets of view and accessor and the view's stride, for as long as whole elements are there |
| AccessorMeaning.ViewlessMeans | src/difference_service/plugins/gltf_objects.py:152-166 | an accessor without a view reads as zeros, and one of unknown type or empty as nothing |
| AccessorMeaning.BufferMeans | src/difference_service/plugins/gltf_objects.py:133-149 | a buffer is the binary chunk, or what is given in line, or empty |
| Gltf.ParseGltf | src/difference_service/plugins/gltf_objects.py:184-253 | the stack loop visits nodes, composes transforms and collects meshes as specified, and terminates on every node graph |
| LoaderFailure.LoaderStopsExactly | src/difference_service/plugins/gltf_objects.py:152-253 | the loader raises exactly when the document reads and a node the scene reaches has a mesh with a primitive one of whose accessors, non-empty and of known types, names a missing buffer view |
| LoaderFailure.ViewlessStops | src/difference_service/plugins/gltf_objects.py:164-167 | for one, a document of one node whose position accessor names a view and that has no views |
| SceneWalk.WalkIsExact | src/difference_service/plugins/gltf_objects.py:203-217 | on any graph, cycles included, the walk visits exactly the reachable nodes, each once, with a world transform of some chain of ancestors |
| SceneWalk.ChainWorldApplies | src/difference_service/plugins/gltf_objects.py:203-217 | a chain's world transform applies the nodes' local transforms innermost first |
| SceneElements.ForestElements | src/difference_service/plugins/gltf_objects.py:203-253 | where every node is the child of at most one and roots of none, each element parsed is a node's mesh, vertex by vertex under the transforms of its one chain of ancestors, innermost first |
| SceneElements.ReachedMeshIsYielded | src/difference_service/plugins/gltf_objects.py:203-253 | on any graph, a node the scene reaches whose mesh has a vertex yields an element |
| AccessorMeaning.IndicesAreWhole | src/difference_service/plugins/gltf_objects.py:233 | an index read as a fraction is cut off towards zero |
| AccessorMeaning.FacesAreRaised | src/difference_service/plugins/gltf_objects.py:220-235 | a mesh's faces are its primitives', each raised by the vertices before it |
| AccessorMeaning.FacesNameTheirVertices | src/difference_service/plugins/gltf_objects.py:231-235 | so a face of any primitive names, in the mesh, the very vertex it named in its own |
| SceneRoots.RootsOfScene | src/difference_service/plugins/gltf_objects.py:198-201 | the walk starts from the roots of the chosen scene, where it lists any |
| SceneRoots.NoSceneVisitsAll | src/difference_service/plugins/gltf_objects.py:198-201 | and otherwise visits every node |
| MergedGlb.SceneBuilder.AddMesh | src/difference_service/plugins/xkt.py:92-126 | appends one mesh's buffers, views, accessors with their bounds, and node, or nothing for an element without a vertex, and returns the node's number |
| MergedGlb.BuildMergedGltf | src/difference_service/plugins/xkt.py:77-184 | the loop over deltas writes the specified document and buffer, or nothing when no mesh was placed |
| SceneStore.SceneHolds | src/difference_service/plugins/xkt.py:92-126 | every mesh written stays readable under its number while more are added |
| AccessorRead.NodeRead | src/difference_service/plugins/gltf_objects.py:152-253 | reading a written node back gives its whole vertices through the transform and its faces, or consecutive ones if it had none |
| AccessorRead.BoundsAreTight | src/difference_service/plugins/xkt.py:105-110 | a position accessor's least and greatest coordinates bound the positions read through it, and are reached |
| MergedLayers.PlannedShows | src/difference_service/plugins/xkt.py:128-145 | the old group shows every old mesh, the new group every new one, the difference group every visible change, and no mesh is in two groups |
| GlbRoundTrip.ParseUndoesBuild | src/difference_service/plugins/xkt.py:77-199 | parsing what was built yields, last first, exactly every old, new and visibly changed mesh under its name; nothing is built exactly when there is nothing to place |
| GlbRoundTrip.YUpSeenAsPlaced | src/difference_service/plugins/gltf_objects.py:218-253 | for a Y-up model the vertices and faces come back as they were |
| GlbRoundTrip.ZUpTurnsVertices | src/difference_service/plugins/xkt.py:153-172 | for a Z-up model a vertex (x, y, z) comes back at (x, z, -y) plus the tilt times (0, z - y, -y - z), exactly there only on the axis |
| GlbRoundTrip.TiltIsTiny | src/difference_service/plugins/xkt.py:169-170 | the tilt is positive and below 3e-16 |
| GlbLayout.MergedIsWellFormed | src/difference_service/plugins/xkt.py:92-183 | views are word-aligned, in bounds, apart and in order; accessors fill their views; every reference is in range; children precede parents |
| MetaModel.BuildMetamodel | src/difference_service/plugins/xkt.py:211-258 | the loop appends the project, the three layers and an object for each appearance of an element, and the summary counts deltas by state and by change |
| MetaParts.IdentityMeans | src/difference_service/plugins/xkt.py:202-208 | a delta goes by its element's lasting id, else its id in the file, else its number |
| MetaParts.VisibleMeans | src/difference_service/plugins/xkt.py:140-145 | visible changes are additions, deletions and changes of geometry, shown by the newest side |
| MetaParts.PartsDescribe | src/difference_service/plugins/xkt.py:224-242 | a delta has an object in the old layer for its old side, one in the new for its new side and one in the differences if visible, with its name, type, state and change, and no other |
| MetaParts.HeadsDescribe | src/difference_service/plugins/xkt.py:211-222 | the tree begins with the project and its three layers |
| MetaParts.SummaryCounts | src/difference_service/plugins/xkt.py:244-257 | each number of the summary is that of the deltas in its state, or of its kind of change |
| ModelConservation.SummaryAddsUp | src/difference_service/plugins/xkt.py:248-257 | after matching by shape, unchanged and deleted number the old model's elements, unchanged and added the new one's |
| MetaModel.MetamodelAgrees | src/difference_service/plugins/xkt.py:211-242 | mesh by mesh the merged file's names and groups are the metamodel's ids and parents, exactly when everything to be shown has geometry |
| Naming.SplitUndoesJoin | src/difference_service/manifest.py:60-62 | fields free of the separator can be read back from the joined text |
| Naming.KeysAreSharedExactly | src/difference_service/manifest.py:53-62 | a comparison shares its key with another exactly when one of its fields has a bar |
| Naming.KeyDigestsIdentity | src/difference_service/manifest.py:53-62 | the key digests file, versions, plugin and plugin version, between bars |
| Naming.KeyOfOurNames | src/difference_service/renditions.py:49-60 | a dot-free key is read back from the names of its children and of its manifest |
| Naming.ChildIsNotManifest | src/difference_service/manifest.py:65-72 | no content child is named like a manifest, whatever its kind |
| Naming.ChildNamesTellApart | src/difference_service/manifest.py:65-67 | children of one result are told apart by kind, number and extension |
| Renditions.WriteResult | src/difference_service/renditions.py:128-171 | the store afterwards: missing children made and filled in order of number, then the marker filled where it stands or made |
| PipelineOutcomes.ManifestDescribes | src/difference_service/manifest.py:74-117 | a manifest names its pair, status and mode, and its children by ascending number, each under its name with its mode and kind |
| PipelineOutcomes.NameWritten | src/difference_service/manifest.py:65-72 | how names of children and of the marker are spelt, the number in at least three digits |
| Renditions.PruneKeys | src/difference_service/renditions.py:195-216 | exactly our children of the named keys go, less those whose removal fails, and their names are returned |
| Pipeline.RunPipeline | src/difference_service/pipeline.py:85-156 | the store, the report and the calls of the plugin after a run, on every path through it |
| PipelineOutcomes.HitExactly | src/difference_service/pipeline.py:112-116 | the store holds a hit exactly when the key's first marker is filled and reads as a manifest all of whose names are children's |
| PipelineOutcomes.AsksExactly | src/difference_service/pipeline.py:85-156 | the plugin is asked exactly when the request names two versions it handles, both can be read, and force holds or no such result is stored |
| PipelineOutcomes.OutcomeExactly | src/difference_service/pipeline.py:85-156 | which outcome each run reports; without asking, the store is left alone and only a hit has a manifest |
| PipelineOutcomes.ResultIsThere | src/difference_service/pipeline.py:112-156 | after computed, failed or cached the key's marker reads as the manifest reported and every child it promises is there |
| PipelineTheorems.RunSettles | src/difference_service/pipeline.py:85-156 | whatever the store held, once a run has committed or hit the cache the same request hits it with the same manifest, changes nothing and asks no plugin |
| PipelineTheorems.CommitKeepsOthers | src/difference_service/pipeline.py:181-212 | outside its own key a committing run changes and adds no child, and removes only superseded ones |
| PipelineTheorems.OnlyEarlierVersions | src/difference_service/pipeline.py:181-212 | a child of another comparison is superseded exactly when that is the same pair under an earlier version of the plugin |
| PipelineTheorems.WriteFillsExactly | src/difference_service/renditions.py:128-171 | after a write every promised child is full exactly when those already there were |
| CommitProtocol.CommitSafety | src/difference_service/renditions.py:128-171 | key by key, over all interleavings of runners, stopping anywhere and with listings failing: a manifest that reads is complete, under any key no later version of the plugin overtakes or no runner writes a child under, whatever becomes of other keys |
| CommitProtocol.CommitSafetyInFull | src/difference_service/renditions.py:146-162 | if children are made and filled in one step, each child it promises also holds all the bytes some runner had for it, or those it held at the start, though plugins may have answered differently |
| CommitProtocol.AgreedInFull | src/difference_service/renditions.py:146-162 | where there was only one answer for a child, it holds that |
| CommitLimits.SafeExactly | src/difference_service/pipeline.py:181-212 | for any runners and any start, a key's manifest is safe in all histories exactly when the key is not overtaken or no runner writes a child under it |
| CommitLimits.OvertakenIsBroken | src/difference_service/pipeline.py:181-212 | an overtaken runner that writes a child can be pruned between its last child and its marker: its manifest then reads and promises a child that is gone |
| CommitProtocol.OvertakenByVersion | src/difference_service/pipeline.py:181-212 | with bar-free fields, a key is overtaken exactly when a runner has its pair under a later version of the plugin |
| CommitLimits.UnfilledChildIsCommitted | src/difference_service/renditions.py:146-158 | a child made but not filled by a stopped runner is committed empty by the next |
| CommitRefinement.UninterruptedWrite | src/difference_service/renditions.py:128-171 | left alone, a runner's steps take the store to what the write routine makes of it |
| CommitRefinement.UninterruptedPrune | src/difference_service/renditions.py:195-216 | and from there, child by child, to what the prune routine leaves |
| JobQueues.JobQueue.Submit | src/difference_service/jobs.py:81-104 | a whole submission is a run of the interleaved queue's steps: accepted exactly when admitted and the executor open, and otherwise undone |
| JobQueues.JobQueue.RunNext | src/difference_service/jobs.py:106-120 | a task's whole run is the interleaved queue's start, finish and release of the task that waited longest |
| JobQueues.QueueIsCoalesced | src/difference_service/jobs.py:81-174 | so between calls the keys taken are exactly those of the waiting tasks, no two share one, and requested pairs stay within the bound |
| JobQueues.DrainedQueue | src/difference_service/jobs.py:81-174 | and once nothing waits the queue is empty and what it accepted has run exactly once |
| QueueAnswers.AnsweredExactly | src/difference_service/jobs.py:81-97 | between calls a task is admitted exactly when none waiting goes by its key and, unless it is a sweep, fewer than the bound are waiting |
| QueueAnswers.TakenExactly | src/difference_service/jobs.py:81-97 | and under any interleaving exactly when no live task goes by its key and, unless it is a sweep, fewer than the bound are live |
| QueueAnswers.LastRunIsRemembered | src/difference_service/jobs.py:106-120 | what is remembered of a key is how its last run ended: an error if it raised, that it swept for a sweep, else the outcome |
| QueueAnswers.NothingToRemember | src/difference_service/jobs.py:106-137 | and nothing of a key that never ran |
| JobInterleavings.AlwaysKept | src/difference_service/jobs.py:81-174 | under every interleaving the keys taken are those of the live tasks, no key has two, requested pairs stay within the bound, and nothing runs unaccepted or twice |
| JobInterleavings.QuietQueue | src/difference_service/jobs.py:81-174 | a quiet queue is empty, and every submission answered True has run exactly once |
| JobInterleavings.StepsRunOut | src/difference_service/jobs.py:106-120 | every step of the queue's own brings it closer to quiet |
| JobInterleavings.NeverStuck | src/difference_service/jobs.py:106-120 | while a task is live some step is possible |
| JobInterleavings.OnlySweepsOverflow | src/difference_service/jobs.py:139-174 | only sweeps can take the queue over its bound, one place each |

## Left out

- PathMeansTheSame: the closing done by the painting operators s, b and b* is dropped by the source and is no part of the drawing compared here; a close after a close is taken as nothing.
- ParseUndoesBuild: total size below 2^32, indices that fit 32 bits and coordinates a 32-bit word holds exactly; node numbers in the elements' local ids are compared only as part of AccessorRead.NodeRead.
- MatchByGeometry: elements of whole vertices, as every loader produces; the source fails on others.
- BuildMergedGltf: faces must be indices that fit 32 bits and the file must stay below 2^32 bytes; the source raises otherwise.
- MergedIsWellFormed: for elements of whole vertices, which every loader produces; a trailing part of a vertex would be stored and never read.
- LoaderStopsExactly: documents whose fields have the types the format gives them, and numbers that are finite: an infinity or NaN read as a vertex index makes the loader raise too, and reals have neither.
- RunSettles: supposes the store can be listed when the result is looked up; a listing that fails reads as empty, which CommitSafety does allow for.
- CommitSafety: no cascade deletion, and a put fills a child in one step; if the key is overtaken, its marker is supposed to promise nothing at the start, since a prune takes what it promises one by one.
- CommitSafetyInFull: supposes that at the start no child of the key but its marker is empty; UnfilledChildIsCommitted shows what becomes of one that is.
- LayersAreWhole: the SVG text around the layers, glyph outlines and raster pages are not modelled.
- StepsRunOut: the executor's order and its number of workers are not modelled; any waiting task may start next.
- Signatures and shape keys are the values the source hashes, so two are equal when the hashed parts are; collisions are not modelled.
- Floating point: coordinates are reals; the font size's hypotenuse is a parameter.
- Text decoding, fonts, image bytes and the tokenising of content streams: operators arrive with their operands read.
- Image objects sit at the origin whatever the transform, as in the source.
- A page's fingerprint in page pairing is an abstract value with equality.
- A JSON document that is an empty object counts as unreadable, as in the source; external buffers read as empty.
- Matching by stable ids, and the choice between the tiers: look-ups by id that would add only easy members.
- The resolution of versions and media types, size limits and the reading of sources: inputs of a run.
- Temporary files of results, logging, metrics, permissions, network and storage services.
- Cascade deletion, and the keep-list form of pruning it uses.
