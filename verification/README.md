# MegEngine: a verified model

Dafny models of six parts of MegEngine, with proofs about them.

| part | files |
|---|---|
| tensor layouts: what a layout means, collapsing, reshaping, broadcasting, slicing, overlap, extent in memory | `Arith`, `Layout`, `Canonical`, `Reshape`, `TensorLayout`, `Broadcast`, `SubTensor`, `Overlap`, `OverlapCheck` |
| `TensorIter`, the odometer over a layout | `TensorIter` |
| lazy binding of wrapped libraries, under any interleaving of threads | `LazyBind` |
| lite tensors: reshape, the cached layout, tensors that share implementations, concatenation | `SafeMultiply`, `LiteReshape`, `LiteTensor`, `LiteTensors`, `LiteConcat` |
| lite networks: life cycle and weight sharing over whole runs | `LiteNetwork`, `LiteRuntime` |
| the operator-parameter compiler, and quantised data types | `ParamEnum`, `ParamPack`, `ParamConvert`, `Quantize` |

`dafny verify dfyconfig.toml` checks everything.

## What is proved

**Layouts.** A layout is a list of axes with an extent and a signed stride. Its meaning is the sequence of
offsets its elements have in row-major order (`Offsets`). `collapse_contiguous` keeps that sequence and
produces a canonical form, and two canonical layouts mean the same exactly when they are equal. `try_reshape`
is sound and complete: it succeeds exactly when *some* strides for the new shape visit the same offsets.
`is_physical_contiguous` holds exactly when element `k` is at offset `k`. A slice selects what Python selects.
The iterator visits `Offsets` in order, each multi-index once, and never carries past the outermost axis.

**Lazy binding.** For any number of threads, any table length and any interleaving: every slot changes at most
once, to the symbol of its own name or to its own error stub; a call of a slot ends in that slot's final value and
goes through a thunk at most once; the library is looked up at most once; the mutex cannot deadlock; and the calls
under way end within a bounded number of steps whatever the schedule.

**Lite.** `reshape` accepts exactly the requests that have an answer, and the answer is unique. `concat` puts
every input element where it belongs; positions are hit exactly once. For tensors and networks, what
holds after every call of every run is stated together with the exact calls that break it, and for each call
exactly when it returns. In every run each setting of each network holds what the last call that writes it wrote.

**Parameters.** The Python packer and the C++ structure agree on every offset and byte; the flatbuffers
converters are inverse; well-ordered constants resolve to what C++ evaluates; combined enums round-trip.
Quantising picks the nearest code.

## Where the code and its documentation differ

The model follows the code.

- `is_non_overlapping_strong` is documented to return true only for layouts without overlap
  (dnn/include/megdnn/basic_types.h:387-396). It accepts overlapping layouts whose strides have opposite signs
  (`AcceptsOverlap`). For given strides the promise holds for all extents exactly when no two strides have opposite
  signs (`PromiseIffOneDirection`).
- `is_abs_monotonous_allow_brdcst` is documented with a definition over neighbouring axes. The code passes over axes that
  do not move, so it accepts more (`AcceptsUndocumented`): exactly the layouts that meet the definition once those axes
  are left out (`MonotonousIsDocumentedOnMoving`).
- `broadcast` is documented to broadcast axes of extent one. It also re-broadcasts axes of stride zero, whatever
  their extent (`CanBroadcast`, `TakesRepeatingAxis`).
- `Slice` is documented to index as in Python. It throws on ends further out than the axis on the near side, and on
  negative steps over an empty axis (`InBounds`, `ThrowsWherePythonSelects`); where it does not throw it agrees.
- An iterator made at the end shows offset zero; one that walked there still shows its last element (`Traverse`).
  Comparing iterators by logical offset is sound before the end (`EqualIteratorsAgree`).
- `Tensor::reshape` multiplies in `size_t`. Without a `-1` the product may wrap, so that the checks let an empty tensor
  pass with `{65536, 65536, 65536, 65536}` (`WrapAccepted`); the element count is kept exactly when the product stays
  below the limit (`SizeKeptIff`). Past the limit the tensor takes over the new layout, whose reported byte size is that
  of the old one (`ReshapeKeepsBytes`), and the call then throws, because the implementation multiplies with an overflow
  check (`ReshapeConverts`, `WrappedReshapeDesyncs`). An empty request on a one-element tensor leaves zero bytes.
- A lite tensor's cached layout goes out of step with its implementation when a call throws half way: setting a layout
  the implementation cannot take, a wrapping reshape, and copying another layout into contiguous memory that has no room
  for it and may not grow, or from a source whose storage is shorter than its layout or overlaps (`Desyncs`, with a witness
  each). The constructors that take a
  backend, or a device id with a layout without dimensions, can start out of step (`WithBackend`, `OnDevice`). Copies of a
  tensor object share the implementation, so a call that changes its layout leaves the others stale (`AgreementRun`).
- `concat` throws on inputs without elements that have storage, such as empty slices, if they extend along the axis
  (`EmptySlicesThrow`).
- The padding of a parameter is documented to be cleared by its constructor (dnn/scripts/gen_param_defs.py:711-723). A
  definition without fields gets none, so its one byte is left as it was (`EmptyDefinitionDiffers`).
- `reset` is given a length to check, which it compares with the bytes of the layout. On a tensor that is not contiguous
  the elements reach further (`StridedResetFallsShort`); on contiguous memory the check is exact (`ResetMemorySuffices`).
- `fill_zero` on a tensor with dimensions but no elements recurses into itself on a tensor of the same kind
  (`FillZeroRecursesOnEmpty`).
- A network keeps the loader of the first model it parsed: loading another model builds the first one again
  (`LoadKeepsFirstModel`, `SecondModelIgnored`). A failed load can leave a loader behind; a network that is then given weights by sharing
  passes its own loader on, so a third network may run a model no load of which completed (`UncompletedRoot`,
  `RootsRun`). Sharing needs the source's own loader, so chains of shares have length one.
- The memory allocator is documented to be set before loading, but it belongs to a memory manager that networks may
  share, so setting it on an unloaded network can replace that of a loaded one (`AllocatorReplaced`, `AllocatorRun`).
- `disable_configure_by_model_info` is documented to switch off all configuration in the model; the separately kept
  settings still apply, unless they ask for what the network has (`DisabledInfoStillApplies`). Setting the number of threads overwrites the stream id, which
  shares its storage (`ThreadsReplaceStream`).

## Model

| member | source | states |
|---|---|---|
| Layout.AtIsDotOfDigits | dnn/include/megdnn/basic_types.h:124-126 | the offset of element `k` is the sum of stride times index over its row-major multi-index |
| Layout.DigitsAreIndex | dnn/include/megdnn/basic_types.h:124-126 | every position below the element count has a multi-index inside the shape |
| Layout.RankOfDigits | dnn/include/megdnn/basic_types.h:124-126 | the multi-index of position `k` has row-major rank `k` |
| Layout.DigitsOfRank | dnn/include/megdnn/basic_types.h:124-126 | every multi-index of the shape is that of exactly its own rank, which is in range |
| Layout.RankOrderIsLexicographic | dnn/include/megdnn/tensor_iter.h:110-126 | positions are ordered as their multi-indices are lexicographically |
| Layout.Append | dnn/include/megdnn/basic_types.h:124-126 | the offset in a concatenation of axes splits into an outer and an inner part, for all strides |
| Layout.MergeAxes | dnn/src/common/tensor_format.cpp:105-144 | two axes whose strides continue may be merged anywhere in a layout without moving an element |
| Layout.UnitAxis | dnn/src/common/tensor_format.cpp:105-144 | an axis of extent one may be dropped anywhere without moving an element |
| Canonical.CollapsedUnique | dnn/src/common/tensor_format.cpp:105-144 | collapsed layouts with at least two elements and the same offsets are equal |
| Canonical.CanonicalIffSameOffsets | dnn/src/common/tensor_format.cpp:105-144 | two canonical layouts visit the same offsets if and only if they are equal, so collapsing decides equal meaning |
| Canonical.BoundaryExists | dnn/src/common/basic_types.cpp:483-538 | a layout with the offsets of a collapsed one has an axis boundary at each of its axis boundaries |
| Reshape.JumpExcludesStrides | dnn/src/common/basic_types.cpp:483-538 | a shape whose prefix products jump over a boundary of the collapsed layout has no strides that visit its offsets |
| Reshape.GroupingJumps | dnn/src/common/basic_types.cpp:516-522 | where the greedy grouping gives up, no strides exist at all |
| Reshape.GroupingCloses | dnn/src/common/basic_types.cpp:523-535 | a group that reaches the next collapsed axis closes it, and both lists end together |
| TensorLayouts.TensorLayout.RemoveAxisInplace | dnn/src/common/basic_types.cpp:251-258 | removes exactly that axis, or changes nothing when the assertion fails |
| TensorLayouts.TensorLayout.AddAxisInplace | dnn/src/common/basic_types.cpp:260-272 | inserts exactly that axis, or changes nothing when the assertion fails |
| TensorLayouts.TensorLayout.AddAxisContInplace | dnn/include/megdnn/basic_types.h:274-289 | inserts an axis of extent one with the contiguous stride, leaves the visited offsets unchanged, and keeps a contiguous layout contiguous |
| TensorLayouts.StepWalksOn | dnn/include/megdnn/basic_types.h:274-289 | with the contiguous stride, an axis of any extent in front of another one walks on where that one ends |
| TensorLayouts.TensorLayout.InitContiguousStride | dnn/src/common/tensor_format.cpp:86-98 | keeps the extents, returns the element count, and puts element `k` at offset `k` |
| TensorLayouts.TensorLayout.IsPhysicalContiguous | dnn/src/common/basic_types.cpp:283-292 | true if and only if the tensor is not empty and element `k` is at offset `k` |
| TensorLayouts.DenseIsIdentity | dnn/src/common/basic_types.cpp:283-292 | on non-empty tensors the stride pattern the code checks is the only one that stores element `k` at `k` |
| TensorLayouts.TensorLayout.CollapseContiguous | dnn/src/common/tensor_format.cpp:105-144 | returns a canonical layout with the same offsets; throws exactly without axes |
| TensorLayouts.TensorLayout.DropUnitAxes | dnn/src/common/tensor_format.cpp:111-131 | the first loop keeps the offsets and leaves only axes wider than one, or reports an empty tensor |
| TensorLayouts.TensorLayout.MergeAdjacentAxes | dnn/src/common/tensor_format.cpp:133-142 | the second loop keeps the offsets and leaves no neighbours whose strides continue |
| TensorLayouts.TensorLayout.FillGroup | dnn/src/common/basic_types.cpp:525-529 | the strides of a group scan as one axis does; axes before it are untouched |
| TensorLayouts.TensorLayout.GroupAxes | dnn/src/common/basic_types.cpp:516-535 | the greedy loop finds strides with the collapsed layout's offsets, or none exist |
| TensorLayouts.TensorLayout.TryReshape | dnn/src/common/basic_types.cpp:483-538 | succeeds if and only if some strides for the target shape visit the same offsets, and then returns such strides; fails exactly on empty shapes and different totals; also in place |
| TensorLayouts.ScansIsOneAxis | dnn/src/common/basic_types.cpp:525-529 | a group with contiguous strides over a base visits what one axis with that stride visits |
| TensorLayouts.TensorLayout.TotalNrElems | dnn/src/common/basic_types.cpp:129-133 | the product of the extents, zero without axes |
| Broadcast.Broadcast | dnn/src/common/basic_types.cpp:438-481 | accepted exactly when every aligned axis keeps its extent, has extent one or has stride zero; the result has the target shape and each index has the offset of the source index behind it |
| Broadcast.TakenIffOnlyRepeatsChange | dnn/src/common/basic_types.cpp:438-481 | a shape is taken if and only if it has as many axes and none changes its extent unless all its indices are one element |
| Broadcast.SameElements | dnn/src/common/basic_types.cpp:438-481 | the result has exactly the elements of the source: none is lost and none added |
| Broadcast.ProjectsInside | dnn/src/common/basic_types.cpp:438-481 | the source index behind an index of the result is one of a non-empty source |
| Broadcast.TakesRepeatingAxis | dnn/include/megdnn/basic_types.h:334-339 | a layout broadcast along an axis of extent three and stride zero, and refused with another stride |
| SubTensor.Window | src/core/impl/tensor.cpp:114-162 | passes exactly the slices in bounds, and then selects exactly the positions Python selects |
| SubTensor.SelectsWhatItNames | src/core/impl/tensor.cpp:114-162 | the positions selected are those not before the begin and before the end, negative ones counted from behind, a whole number of steps from the begin or the nearest position inside the axis |
| SubTensor.InBoundsIff | src/core/impl/tensor.cpp:114-162 | the bound check passes if and only if the step is not zero, positive on an empty axis, and no given end lies before the axis |
| SubTensor.ApplySlice | src/core/impl/tensor.cpp:98-188 | every index of the sub-tensor is the element of the source that the Python slice selects there, for all strides and both directions; throws exactly on a bad axis or bounds |
| SubTensor.Tighten | src/core/impl/tensor.cpp:166-182 | no element moves; exactly the run of extent-one axes that ends at the sliced axis, or at the one outside it, gets the contiguous stride |
| SubTensor.SelectedInside | src/core/include/megbrain/tensor.h:67-72 | what a Python slice selects lies inside the axis |
| SubTensor.ThrowsWherePythonSelects | src/core/include/megbrain/tensor.h:67-72 | a slice on which the code throws although Python selects elements |
| Overlap.IsAbsMonotonousAllowBrdcst | dnn/src/common/basic_types.cpp:294-309 | decides the condition of the code; on non-empty layouts it accepts, elements overlap if and only if an axis is broadcast |
| Overlap.MonotonousIsDocumentedOnMoving | dnn/src/common/basic_types.cpp:294-309 | the check accepts exactly the layouts that meet the documented definition once the axes that do not move are left out |
| Overlap.DocumentedIsAccepted | dnn/include/megdnn/basic_types.h:372-377 | the documented definition implies the check |
| Overlap.DocumentedDoesNotOverlap | dnn/include/megdnn/basic_types.h:372-377 | the documented definition with a non-zero innermost stride means that no two elements share an offset, whatever the signs |
| Overlap.AcceptsUndocumented | dnn/include/megdnn/basic_types.h:372-377 | a layout the check accepts that does not meet the documented definition |
| Overlap.MonotonousInjective | dnn/include/megdnn/basic_types.h:372-377 | a monotonous layout without broadcast gives different multi-indices different offsets, whatever the signs |
| Overlap.BroadcastOverlaps | dnn/include/megdnn/basic_types.h:372-377 | a broadcast axis of a non-empty layout makes two elements share an offset |
| Overlap.DotInjectiveIsNonOverlapping | dnn/include/megdnn/basic_types.h:387-396 | no two positions share an offset if and only if no two multi-indices do |
| Overlap.Span | dnn/src/common/tensor_format.cpp:146-175 | the bounds contain every offset and both are attained; zero for an empty tensor |
| OverlapCheck.IsNonOverlappingStrong | dnn/src/common/basic_types.cpp:338-364 | accepts if and only if every extent is positive and the stride of each wide axis exceeds what the other wide axes of its direction with no larger strides cover together; fails only on an empty extent, and on every one with spaced strides; what it accepts has no overlap when all moving strides have one sign |
| OverlapCheck.AcceptedIffSpaced | dnn/src/common/basic_types.cpp:338-364 | the same of the sorted scan, for all layouts, in terms of the axes as they come |
| OverlapCheck.AcceptedIsSound | dnn/src/common/basic_types.cpp:338-364 | acceptance means no overlap, for strides of one sign |
| OverlapCheck.NestedIsAccepted | dnn/src/common/basic_types.cpp:338-364 | every forward layout in which of any two wide axes one steps over the other is accepted, in whatever order the axes come |
| OverlapCheck.AcceptsOverlap | dnn/include/megdnn/basic_types.h:387-396 | a layout it accepts in which two elements share an offset |
| OverlapCheck.PromiseIffOneDirection | dnn/include/megdnn/basic_types.h:387-396 | for given strides the documented promise holds for all extents if and only if no two strides have opposite signs |
| OverlapCheck.ReorderInjective | dnn/src/common/basic_types.cpp:338-364 | reordering axes, as the sort does, neither makes nor removes overlap |
| OverlapCheck.SortAxesSorts | dnn/src/common/basic_types.cpp:338-364 | the axes are visited by growing magnitude of stride |
| TensorIters.Iter.Make | dnn/src/common/tensor_iter.cpp:33-60 | an iterator at the given logical offset, over the layout or one with the same offsets; throws exactly without axes or past the end |
| TensorIters.Iter.AtLogical | dnn/src/common/tensor_iter.cpp:33-60 | digits and physical offset are those of the start position |
| TensorIters.Iter.Increment | dnn/include/megdnn/tensor_iter.h:110-126 | keeps digits and offset those of the row-major position after one more step; at the end nothing but the position moves |
| TensorIters.CarryMoves | dnn/include/megdnn/tensor_iter.h:110-126 | a wrap before the end is never at the outermost axis, and undoes exactly that axis's offset |
| TensorIters.CarryStops | dnn/include/megdnn/tensor_iter.h:110-126 | where the carry stops, digits and offset are those of the next position |
| TensorIters.Traverse | dnn/include/megdnn/tensor_iter.h:151-164 | a loop from begin to end visits the offsets of the layout, all of them, in order, and, where indices may be asked for, every multi-index exactly once in lexicographic order; at the end the two iterators show different offsets |
| TensorIters.DigitsEachOnceInOrder | dnn/include/megdnn/tensor_iter.h:110-126 | the multi-indices of the positions below the element count are all of them, each once, in lexicographic order |
| TensorIters.EqualIteratorsAgree | dnn/include/megdnn/tensor_iter.h:151-153 | before the end, iterators that compare equal have the same multi-index and offset |
| TensorIters.ContiguousOffsetIsLogical | dnn/include/megdnn/tensor_iter.h:110-126 | over a contiguous layout physical and logical offset are equal at every element |
| LazyBind.InvNext | dnn/cuda-stub/src/libnvrtc-wrap.h:238-260 | every step of any thread keeps the invariant: one holder of the mutex, slots below the loop index bound and the rest thunks, nothing bound before the loop, all bound once done |
| LazyBind.RunKeepsInv | dnn/cuda-stub/src/libnvrtc-wrap.h:238-260 | the invariant holds in every state of every interleaving |
| LazyBind.SlotChangesOnce | dnn/cuda-stub/src/libnvrtc-wrap.h:190-260 | over any run a slot goes at most once from its thunk to its final value and stays there |
| LazyBind.CallsReachTheirTarget | dnn/cuda-stub/src/libnvrtc-wrap.h:49-53 | no call passes a thunk twice, finds the table bound after its thunk, and jumps to the final value of the slot it is at; the library is looked up at most once |
| LazyBind.CallsEndWhereTheyStarted | dnn/cuda-stub/src/libnvrtc-wrap.h:49-53 | in every run, until a thread calls again it is at the slot it called, and where it ends it has called the final value of that slot |
| LazyBind.AnyEntryCanBeCalled | dnn/cuda-stub/src/libnvrtc-wrap.h:190-236 | a thread that is not in a call may call any slot, and is then in a call of it |
| LazyBind.FinalIsOwnSymbol | dnn/cuda-stub/src/libnvrtc-wrap.h:246-258 | the final value is the symbol of the slot's own name, or its own error stub exactly without a handle or symbol |
| LazyBind.SomeThreadCanStep | dnn/cuda-stub/src/libnvrtc-wrap.h:238-241 | unless every call has ended some thread can step: no deadlock |
| LazyBind.CallsEnd | dnn/cuda-stub/src/libnvrtc-wrap.h:238-267 | calls under way end within a bounded number of steps under every schedule |
| LazyBind.Wrapper.Perform | dnn/cuda-stub/src/libnvrtc-wrap.h:238-267 | the in-place step is the step of the state machine whose runs `CallsEndWhereTheyStarted` is about, and a blocked thread changes nothing |
| LazyBind.Wrapper.Execute | dnn/cuda-stub/src/libnvrtc-wrap.h:238-267 | any schedule keeps the invariant and every bound slot |
| SafeMultiply.Multiply | dnn/src/common/utils.h:471-485 | the checked product throws if and only if the product does not fit, and is the product otherwise, although every step wraps |
| LiteReshape.InferShape | lite/src/tensor.cpp:124-163 | accepts exactly the requests characterised by `Accepted`; the shape keeps the fixed entries and its product is the element count, modulo the size limit only without a `-1` |
| LiteReshape.InferLeft | lite/src/tensor.cpp:144-156 | dividing entry by entry succeeds if and only if the product of the entries divides the positive total, and leaves the cofactor |
| LiteReshape.WrappedProduct | lite/src/tensor.cpp:158-161 | the product of the extents modulo the size limit |
| LiteReshape.AcceptedIffAnswerable | lite/src/tensor.cpp:124-163 | a non-empty tensor accepts a request if and only if some shape answers it with the same element count, the product not wrapping |
| LiteReshape.AcceptedIffFilledIn | lite/src/tensor.cpp:124-163 | for every tensor, a request is accepted if and only if it has at most one `-1` and some positive shape fills it in with as many elements, as `size_t` counts them |
| LiteReshape.AnswerUnique | lite/src/tensor.cpp:144-156 | at most one shape answers a request with a given element count |
| LiteReshape.NoProductOnTheWayExceeds | lite/src/tensor.cpp:158-161 | with an inferred dimension no partial product exceeds the element count |
| LiteReshape.SizeKeptIff | lite/src/tensor.cpp:158-163 | without a `-1` the element count is kept if and only if the product stays below the size limit |
| LiteReshape.WrapAccepted | lite/src/tensor.cpp:158-163 | the checks let an empty tensor pass with a non-empty shape whose product wraps to zero; what the call then does is `WrappedReshapeDesyncs` |
| LiteTensor.ToImplLayout | lite/src/mge/common.cpp:63-101 | converts exactly the layouts with few enough dimensions, contiguous strides that fit and a known type, and gives them contiguous axes |
| LiteTensor.ReshapeKeepsBytes | lite/src/tensor.cpp:124-176 | a reshape that passes its checks keeps the reported byte size, wrapping included; an empty request leaves zero |
| LiteTensor.Tensor.TotalSizeInByte | lite/src/tensor.cpp:167-176 | the wrapped byte size, zero without dimensions |
| LiteTensor.ContiguousIsIdentity | lite/src/mge/common.cpp:63-72 | the strides given to a converted layout store element `k` at `k` |
| LiteTensor.MirrorStep | lite/src/tensor.cpp:124-264 | from agreement, a call ends in agreement with the implementation if and only if it is not one of the listed ones; a call that returns always does; which calls change the implementation's layout; a reshape that its checks reject changes nothing |
| LiteTensor.MirrorRun | lite/src/tensor.cpp:124-264 | in every run the agreement holds after each call if and only if no call is one of those |
| LiteTensor.ReturnsIff | lite/src/tensor.cpp:124-264 | for each call, exactly when it returns, by the caller's data and the tensor, and what it then leaves: layout, axes, size and place of the storage |
| LiteTensor.CopyReturns | lite/src/mge/tensor_impl.cpp:341-427 | a copy returns if and only if the types agree, contiguous memory has room and a source that can be read, other memory has the shape of the source and spaced strides; it leaves the layout of the source |
| LiteTensor.ContiguousCopyReturns | lite/src/mge/tensor_impl.cpp:341-427 | the same of the implementation, for contiguous memory |
| LiteTensor.ReshapeReturns | lite/src/tensor.cpp:124-165 | a reshape returns if and only if its checks pass, its product does not wrap and there is room; it answers the request, and keeps type and element count |
| LiteTensor.SpanFitsMeans | src/core/include/megbrain/tensor.h:130-134 | the extent fits the storage if and only if every element lies in it, before and behind the first one |
| LiteTensor.SpanIsExtent | lite/src/mge/tensor_impl.cpp:296-326 | the storage `reset` makes holds just the bytes from the lowest element to behind the highest one |
| LiteTensor.SliceSharesStorage | lite/src/mge/tensor_impl.cpp:194-240 | a slice is over the storage behind its first element, up to the same end, and cannot grow |
| LiteTensor.SliceMadeIff | lite/src/mge/tensor_impl.cpp:194-240 | a slice with elements is made if and only if it is no longer along any axis and all its elements lie in the storage, one that starts right behind it apart; one without elements need only start there |
| LiteTensor.UnitsConvertIff | lite/src/mge/common.cpp:63-101 | a layout of units converts if and only if it has fewer than seven dimensions and a type the implementation knows |
| LiteTensor.ElemSizeIsWidth | lite/src/tensor.cpp:15-39 | the bytes of an element are the width its type is named by |
| LiteTensor.ResetMemorySuffices | lite/src/tensor.cpp:224-232 | on contiguous memory `reset` returns if and only if what it is given holds every element |
| LiteTensor.StridedResetFallsShort | lite/src/tensor.cpp:224-232 | on other memory it can return with less |
| LiteTensor.ReshapeConverts | lite/src/tensor.cpp:158-164 | an accepted reshape can be converted if and only if it has a `-1` or its product does not wrap |
| LiteTensor.WrappedReshapeDesyncs | lite/src/tensor.cpp:158-164 | the wrapping reshape of an empty tensor leaves layout and implementation apart |
| LiteTensor.HugeLayoutDesyncs | lite/src/tensor.cpp:217-222 | setting a layout whose strides do not fit leaves them apart |
| LiteTensor.SliceCopyDesyncs | lite/src/tensor.cpp:247-255 | copying more elements into a contiguous slice than its storage holds leaves them apart |
| LiteTensor.ShortSourceDesyncs | lite/src/tensor.cpp:247-255 | copying from a contiguous tensor whose storage is shorter than its layout, as a failed `set_layout` on a slice leaves it, leaves them apart although there is room |
| LiteTensor.ContiguousAccepted | src/core/impl/tensor.cpp:672-690 | the layout a copy gives to contiguous memory passes the overlap check |
| LiteTensor.FillZeroRecursesOnEmpty | lite/src/mge/tensor_impl.cpp:242-254 | the temporary tensor `fill_zero` recurses into is contiguous if and only if there are elements, so without any it never returns |
| LiteTensor.SliceOk | lite/src/mge/tensor_impl.cpp:194-240 | a slice of a proper tensor is a proper tensor |
| LiteTensor.Tensor.constructor | lite/src/tensor.cpp:53-59 | an empty tensor in agreement |
| LiteTensor.Tensor.WithLayout | lite/src/tensor.cpp:70-79 | in agreement for every layout that converts |
| LiteTensor.MadeFromLayout | lite/src/tensor.cpp:70-79 | a tensor made from a layout holds it contiguously in storage of its own, and can be given any other layout that converts |
| LiteTensor.UntypedKeepsShape | src/core/impl/tensor.cpp:481-486 | an implementation without a type refuses every shape, without a change |
| LiteTensor.Tensor.OnDevice | lite/src/tensor.cpp:81-93 | in agreement if and only if there are dimensions or the type is the default one |
| LiteTensor.Tensor.WithBackend | lite/src/tensor.cpp:107-122 | does not keep the layout: in agreement if and only if it has no dimensions |
| LiteTensor.Tensor.SetLayout | lite/src/tensor.cpp:217-222 | the step `SetLayout`, with the layout changed even where the implementation throws |
| LiteTensor.Tensor.ResetWithLayout | lite/src/tensor.cpp:234-239 | the step `ResetWithLayout` |
| LiteTensor.Tensor.Reset | lite/src/tensor.cpp:224-232 | rejects an empty layout or too little memory; otherwise the storage is of just the size needed and may grow again, and the layout stays |
| LiteTensor.Tensor.Reshape | lite/src/tensor.cpp:124-165 | the step `DoReshape`: checks first, then layout and implementation |
| LiteTensor.Tensor.CopyFrom | lite/src/tensor.cpp:247-255 | the step `CopyFrom`, the source possibly sharing the implementation; by `ReturnsIff` it returns exactly where the types allow it, there is room and the source can be read, and then has the layout of the source |
| LiteTensor.Tensor.ShareMemoryWith | lite/src/tensor.cpp:209-215 | the step `ShareMemoryWith` |
| LiteTensor.Tensor.UpdateFromImplement | lite/src/tensor.cpp:257-264 | the layout becomes the implementation's |
| LiteTensor.Impl.CopyFrom | lite/src/mge/tensor_impl.cpp:341-427 | contiguous memory takes over the source's shape and type before it is known to have room and to read all of a contiguous source; other memory must match already and pass the overlap check, unless the source has no storage; by `ContiguousCopyReturns` and `CopyReturns` a copy that returns leaves the layout of the source |
| LiteTensor.Impl.SetLayout | lite/src/mge/tensor_impl.cpp:274-284 | refuses a layout it cannot convert without a change; otherwise sets it before it makes room |
| LiteTensor.Impl.EnsureSize | src/core/impl/tensor.cpp:231-240 | throws exactly when the storage must grow and may not; otherwise it has just the size of the layout |
| LiteTensor.Impl.Reset | lite/src/mge/tensor_impl.cpp:296-326 | new storage of the extent of the layout, which may grow; throws exactly when elements lie before the first one |
| LiteTensor.Tensor.FillZero | lite/src/tensor.cpp:201-207 | returns exactly on a tensor with elements that is contiguous or passes the overlap check, and changes no layout |
| LiteTensor.Tensor.Slice | lite/src/tensor.cpp:191-199 | a tensor in agreement over part of the storage, which may not grow |
| LiteTensors.ReshapeBehindCopy | lite/src/tensor.cpp:124-165 | after an accepted reshape of a tensor with copies, all tensors agree with their implementations if and only if the shape is what it was |
| LiteTensors.StepAgrees | lite/src/tensor.cpp:124-264 | among any number of tensors that may share implementations, a call keeps them all in agreement if and only if it neither leaves its own apart nor changes the layout of a shared implementation |
| LiteTensors.AgreementRun | lite/src/tensor.cpp:124-264 | in every run over any number of tensors, all agree throughout if and only if no call is such a one |
| LiteTensors.Tensors.Perform | lite/src/tensor.cpp:124-264 | calls on the tensor objects, sharing implementation objects, are the steps of those runs |
| LiteConcat.Concat | lite/src/tensor.cpp:291-346 | accepted exactly when types and all other extents agree, the result converts, strides fitting `size_t` included, and no input that extends along the axis has storage but no elements; every element of every input is at its place in the result; no inputs give an empty tensor |
| LiteConcat.JoinableIff | lite/src/tensor.cpp:304-325 | inputs are accepted if and only if any two have one type and differ at most along the axis, the result converts, and each has elements, no storage, or no extent along the axis |
| LiteConcat.EmptySlicesThrow | src/core/impl/tensor.cpp:672-690 | slices without elements over non-empty storage are refused |
| LiteConcat.SliceAccepted | lite/src/tensor.cpp:333-345 | the slice of the result for an input with elements always passes the overlap check of the copy |
| LiteConcat.SumInDim | lite/src/tensor.cpp:304-325 | the checks pass exactly on agreeing inputs, and the sum is the extent of all of them |
| LiteConcat.SliceAlong | lite/src/mge/tensor_impl.cpp:194-240 | the slice is the result shifted along one axis, with full extent before it |
| LiteConcat.CopyInto | lite/src/tensor.cpp:333-345 | writes every element of one input to its place and moves no element of another |
| LiteConcat.PosIsPlaced | lite/src/tensor.cpp:333-345 | the multi-index at an element's position is its own, shifted along the axis by the inputs before it |
| LiteConcat.PosInjective | lite/src/tensor.cpp:333-345 | the slices are disjoint: no two input elements share a position |
| LiteConcat.PosCovers | lite/src/tensor.cpp:333-345 | the slices tile the result: every position receives an element |
| LiteConcat.PlacedDetermines | lite/src/tensor.cpp:333-345 | having all inputs in place determines every element of the result |
| LiteConcat.Conserved | lite/src/tensor.cpp:304-327 | the result has as many elements as the inputs together |
| LiteNetwork.StepKeeps | lite/src/network.cpp:78-541 | every call on any network keeps: loaded networks have weights, weights come from the loader of their source; no network becomes unloaded and no loader changes |
| LiteNetwork.ReturnsIff | lite/src/network.cpp:78-541 | exactly which calls return, by the networks they are about; no call changes another network, and a refused setting changes nothing |
| LiteNetwork.SettingSets | lite/src/mge/network_impl.cpp:142-205 | for each setting, the fields it writes and with what; all others stay |
| LiteNetwork.LoadSets | lite/src/mge/network_impl.cpp:544-582 | for each field, what a load writes to it, wherever the load ends: separate settings over the configuration that comes with the model, over what was there |
| LiteNetwork.ShareSets | lite/src/mge/network_impl.cpp:44-64 | sharing weights writes the kind of node, and the device where none was set |
| LiteNetwork.LoadEnds | lite/src/network.cpp:78-102 | when a load makes a loader, builds the graph, and returns, and what it then leaves |
| LiteNetwork.ShareEnds | lite/src/network.cpp:508-527 | when sharing builds the graph and returns; the loader stays |
| LiteNetwork.WrittenStep | lite/src/network.cpp:78-541 | every call writes to each field of each network just what it is to write, and leaves the rest |
| LiteNetwork.LastWriter | lite/src/network.cpp:191-207 | in every run, each field of each network holds what the last call that writes it wrote |
| LiteNetwork.SomeWriter | lite/src/network.cpp:24-36 | in every run there is such a call for each field of each network |
| LiteNetwork.StreamStays | lite/src/mge/network_impl.cpp:198-200 | in every run the stream id a network was given stays until its stream or thread count is set or a model that brings one is loaded |
| LiteNetwork.OnlySharingMoves | lite/src/network.cpp:313-323 | who manages a network's memory changes only by sharing it, and whether models configure it only by saying so |
| LiteNetwork.AllocatorsStep | lite/src/network.cpp:448-462 | only setting an allocator on an unloaded network changes one: that of its memory manager |
| LiteNetwork.RunKeeps | lite/src/network.cpp:78-102 | over any run a loaded network stays loaded and the model of its loader stays |
| LiteNetwork.WeightsComeFromALoader | lite/src/mge/network_impl.cpp:44-51 | in every run a loaded network's weights are those of one network's own loader: no chain of shares is longer than one |
| LiteNetwork.LoadKeepsFirstModel | lite/src/mge/network_impl.cpp:544-582 | in every run a load that returns builds the model of the first loader; it builds the model it was given if and only if there was no loader or one of that model |
| LiteNetwork.SecondModelIgnored | lite/src/mge/network_impl.cpp:544-582 | a run in which the second load returns and the network still runs the first model |
| LiteNetwork.RootsStep | lite/src/network.cpp:508-527 | a call keeps weights coming from completed loads if and only if it does not take them from a network without one |
| LiteNetwork.RootsRun | lite/src/network.cpp:508-527 | over every run weights always come from completed loads if and only if no call takes them from elsewhere |
| LiteNetwork.UncompletedRoot | lite/src/network.cpp:508-527 | a run after which a network runs a model no load of which completed |
| LiteNetwork.ShareAgrees | lite/src/mge/network_impl.cpp:44-51 | a sharer gets the source's loader's model; that is what the source runs if and only if the source runs its own loader's model |
| LiteNetwork.Frozen | lite/src/network.cpp:191-207 | over every run the settings of a loaded network stay until it is loaded again or given weights |
| LiteNetwork.FrozenStep | lite/src/network.cpp:110-119 | no other call changes the settings or the memory manager of a loaded network |
| LiteNetwork.AllocatorRun | lite/src/network.cpp:448-480 | over every run the allocator of a loaded network stays if and only if no unloaded network with the same memory manager sets another |
| LiteNetwork.AllocatorReplaced | lite/src/network.cpp:448-480 | a run in which the allocator of a loaded network is replaced |
| LiteNetwork.DisabledInfoStillApplies | lite/src/network.cpp:78-98 | with configuration by the model disabled, a load that returns leaves the network its own configuration if and only if the model's separate settings ask for nothing else |
| LiteNetwork.SeparateChangesIff | lite/src/mge/network_impl.cpp:558-577 | the separate settings change nothing if and only if device, threads, in-place mode and TensorRT are as they ask |
| LiteNetwork.DisabledInfoMovesDevice | lite/include/lite/network.h:137-144 | a model with a device id moves a network that has its configuration disabled |
| LiteNetwork.ThreadsReplaceStream | lite/src/mge/network_impl.cpp:159-174 | setting the thread count keeps the stream id if and only if it asks for one thread or for as many as the id |
| LiteNetwork.Network.constructor | lite/src/network.cpp:24-36 | a new network is not loaded and has its own memory manager |
| LiteNetwork.Network.Set | lite/src/mge/network_impl.cpp:193-205 | the guarded settings, refused once loaded; thread count and in-place mode only on CPU; by `SettingSets` each writes its own fields and no others |
| LiteNetwork.Network.SetAllocator | lite/src/network.cpp:448-462 | sets the allocator of the memory manager, shared or not, unless this network is loaded |
| LiteNetwork.Network.ShareRuntimeMemoryWith | lite/src/network.cpp:464-480 | takes over the other's memory manager unless loaded or compiled |
| LiteNetwork.Network.ExtraConfigure | lite/src/network.cpp:313-323 | only switching the model's configuration back on is refused once loaded |
| LiteNetwork.Network.Load | lite/src/network.cpp:78-102 | the state after loading, for every point at which loading may throw |
| LiteNetwork.Network.SharedWeightWith | lite/src/network.cpp:508-527 | the state after sharing, for every point at which it may throw |
| LiteRuntime.Networks.Create | lite/src/network.cpp:24-36 | a new object is the step that adds a network and its memory manager |
| LiteRuntime.Networks.Perform | lite/src/network.cpp:78-541 | calls on network objects, sharing memory managers, are the steps of the runs above |
| ParamEnum.Decompose | dnn/scripts/gen_param_defs.py:155-166 | terminates with strictly increasing indexes that compose to the integer; none for a negative one |
| ParamEnum.DecomposeCompose | dnn/scripts/gen_param_defs.py:155-172 | decomposing a composed tuple gives it back if and only if it is strictly increasing |
| ParamEnum.ComposeInjective | dnn/scripts/gen_param_defs.py:168-172 | strictly increasing tuples that compose to the same integer are equal |
| ParamEnum.Normalize | dnn/scripts/gen_param_defs.py:135-153 | an integer becomes its bits, a tuple its indexes, a name the first member so called; fails exactly on an unknown name |
| ParamEnum.NormalizeAgrees | dnn/scripts/gen_param_defs.py:71-84 | a default given as names or as indexes normalises alike, and as an integer exactly if the indexes are increasing |
| ParamEnum.ComposedIsDeclaredIff | dnn/scripts/gen_param_defs.py:71-84 | the composed default equals the sum of the declared members for all tuples if and only if member `i` is declared as bit `i` |
| ParamPack.Pack | dnn/scripts/gen_param_defs.py:505-517 | the packed bytes have a C++ structure's offsets and size, hold every field at its offset, and are zero elsewhere |
| ParamPack.FormatIsType | dnn/scripts/gen_param_defs.py:18-26 | each type's format character reads the bytes as the C++ type does, in size, sign and kind; two types share one if and only if they read alike |
| ParamPack.Construct | dnn/scripts/gen_param_defs.py:711-739 | with fields, the constructed object holds every field at its offset and zero in the padding; without any, its byte is what memory held |
| ParamPack.StructUnique | dnn/scripts/gen_param_defs.py:724-732 | the layout rules leave one choice of offsets and size |
| ParamPack.StructHoldsFields | dnn/scripts/gen_param_defs.py:724-732 | the first field is at the start, each next one aligned, behind the one before and as close as alignment allows, and all lie in the structure |
| ParamPack.SameBytesIffSameFields | dnn/scripts/gen_param_defs.py:711-723 | two parameters have equal bytes if and only if all fields have equal bytes |
| ParamConvert.PyWriter.Process | dnn/scripts/gen_param_defs.py:497-651 | slots are the non-constant members, in order, and each format character has the size of the C++ type |
| ParamConvert.PackedIsObject | dnn/scripts/gen_param_defs.py:505-517 | for every definition, what Python packs equals the C++ object byte for byte, at the one layout C++ has, if and only if all fields are equal and there are any, or memory held zero |
| ParamConvert.EmptyDefinitionDiffers | dnn/scripts/gen_param_defs.py:733-739 | without fields no constructor clears the object, which then differs from what Python packs |
| ParamConvert.ResolveConst | dnn/scripts/gen_flatbuffers_schema.py:112-115 | returns where following definitions ends, whenever it ends |
| ParamConvert.OrderedEnds | dnn/scripts/gen_flatbuffers_schema.py:112-129 | with each constant a literal or an earlier distinct one, following definitions ends, at the literal C++ finds, which is no constant's name |
| ParamConvert.ResolvedAsInCpp | dnn/scripts/gen_param_defs.py:799-816 | the resolved text is the literal behind the chain of C++ constants |
| ParamConvert.SelfNeverEnds | dnn/scripts/gen_flatbuffers_schema.py:112-115 | a constant defined as itself is never resolved |
| ParamConvert.CppWriter.Process | dnn/scripts/gen_param_defs.py:699-797 | constructor parameters and declared members are the non-constant members, in order, with their C++ sizes |
| ParamConvert.ConverterWriter.Process | dnn/scripts/gen_flatbuffers_converter.py:33-108 | both term lists read the non-constant members, in order, converting exactly the data types |
| ParamConvert.FlatBuffersWriter.Process | dnn/scripts/gen_flatbuffers_schema.py:84-143 | for every member list whose defaults can be written, the table has the non-constant members, in order; with well-ordered constants, none named by an earlier field, and distinct names, its defaults are those of C++ |
| ParamConvert.Generate | dnn/scripts/gen_param_defs.py:314-326 | all generated lists enumerate the same fields in the same order, for every member list whose defaults can be written at all |
| ParamConvert.OrderedIsResolvable | dnn/scripts/gen_flatbuffers_schema.py:112-129 | with well-ordered constants every default can be written |
| ParamConvert.EnumDefaultsAgree | dnn/scripts/gen_flatbuffers_schema.py:96-110 | with names distinct in both, the enum default of C++ and that of the schema with its scrambled names are both the declared value of the default member |
| ParamConvert.AliasDefault | dnn/scripts/gen_param_defs.py:219-224 | the default of an alias is, in C++ and in the schema, the declared value of the source's member it names, or of the source's default member if it names none |
| ParamConvert.ScrambledDistinctIff | dnn/scripts/gen_flatbuffers_schema.py:27-36 | scrambling keeps distinct names distinct if and only if no enum has both `MIN` and `MIN_`, or `MAX` and `MAX_` |
| ParamConvert.ConvertRoundTrip | dnn/scripts/gen_flatbuffers_converter.py:43-64 | converting any parameter to its table and back gives it back |
| ParamConvert.GeneratedRoundTrip | dnn/scripts/gen_flatbuffers_converter.py:43-64 | every parameter of every member list whose defaults can be written survives the generated converters |
| ParamConvert.DefaultStoresNothing | dnn/scripts/gen_flatbuffers_schema.py:96-143 | a table stores nothing if and only if every field has its C++ default |
| Quantize.Quantize | dnn/include/megdnn/dtype.h:784-790 | the code is one the type has, in the range `RangeIsWidth` derives from its width |
| Quantize.RangeIsWidth | dnn/include/megdnn/dtype.h:688-699 | the clamp range is that of a signed or unsigned number of the type's width, except at the upper end of 32 bits, where it ends at the greatest multiple of 128 |
| Quantize.StepIsScale | dnn/include/megdnn/dtype.h:791-793 | the zero point stands for zero, and neighbouring codes for numbers one scale apart |
| Quantize.NearestCode | dnn/include/megdnn/dtype.h:784-793 | no code of the type dequantises closer to the input, and one just as close is nearer to the zero point |
| Quantize.Monotone | dnn/include/megdnn/dtype.h:806-815 | a larger input never gets a smaller code |
| Quantize.CodeRoundTrip | dnn/include/megdnn/dtype.h:849-858 | dequantising and quantising gives an integer back if and only if it is a code in the clamp range, which for 32 bits ends at 2147483520 |
| Quantize.ErrorIff | dnn/include/megdnn/dtype.h:897-924 | the error is at most half a step if and only if the input is at most half a step outside the codes |

## Left out

- Memory ordering weaker than sequential consistency in the wrap headers.
- Opening libraries and resolving symbols: both are functions of the number of the lookup and of the name.
- Overflow of `ptrdiff_t` and `size_t` in the layout code and in the summed extent of `concat`; `Tensor::reshape`, byte sizes and the conversion of lite layouts are modelled on `size_t`.
- Layout formats other than the default one (image and low-bit formats), and the alignment they need.
- `Slice::apply` on the flattened layout, and scalar indices.
- `concat` with a negative axis, which the code does not check before indexing; and inputs whose storage is shorter than their layout.
- Device memory: tensors are modelled on host memory, and `copy_from` between devices, pinned memory and device ids of tensors are not modelled. Whether source and destination overlap in memory, and whether memory can be allocated, is an input.
- LiteTensor.Tensor.CopyFrom: models the layouts, not the bytes copied; `LiteConcat` models the bytes for host memory.
- Parsing, decryption and file reading of models, graph compilation and execution: a load is given the point at which it throws, if any.
- LiteNetwork.Network.Set: one method for the seven guarded settings; callbacks, profiling and dumping are left out.
- IEEE rounding, NaN and infinities in quantisation: arithmetic is exact.
- The text the code writers emit, and the mapping of literal text to values, which is an uninterpreted function shared by C++ and flatbuffers; data type renumbering is assumed to be undone by its counterpart.
- ParamConvert.FlatBuffersWriter.Process: requires that following constants ends, without which the generator does not, and that the default member of an enum exists, without which it raises; the values of the defaults are compared with those of C++ only for constants in order, none named by an earlier field, and names that both compilers take.
- `alignas` and sizes on platforms where an 8-byte type is not 8-byte aligned.
- Registries, kernel generators and the parameter tables themselves.
