# Phy-Engine wiring, sampling and placement: a Dafny model

This project models the parts of Phy-Engine that decide *what is connected to what* and *what ends up where*, and
proves what they promise.

* **Wiring.** `NetlistBuilder` (Python) collects pins on nets and keeps them in two indices. Its `build` squeezes out
  deleted elements and lays every net out as a star of wires. `build_netlist_from_wires` (C++) turns the flat wire table
  back into nodes with an in-place, path-compressing union-find that keeps ground as a root. The end result is one
  theorem, for every sequence of builder calls whose numbers fit a C int: the engine's nodes are exactly what the calls
  have joined (`NodesAreWhatCallsJoined`).
* **Property stream and sampling.** One flat array of numbers is written element by element in Python and consumed by
  element code in C++; flat sample buffers are laid out by prefix sums in C++ and sliced back in Python.
* **`call_once`.** The control-word protocol, for any number of calls, one atomic operation per step. `SpinLockWait` and
  the futex are modelled from their own sources.
* **`c_sample`.** The selection-sampling loop and the count behind its uniformity.
* **`verilog2plsav`.** Grid-step refinement under the cell cap, top-module selection, port grouping and placement.
* **Text.** The wrapping decimal parsers and the printing they undo.

Files, in dependency order: `Prelude`, `Parts`, `Chains` (chains of links, the reference meaning of "joined"),
`UnionFind`, `Netlist`, `Builder` (what each builder call does), `NetlistBuilderObject` (the object), `BuilderHistory`
(whole runs, names taken with their lives), `Placements` and `NameChains` (whole runs, names taken as they stand:
exactly when the nets are the chains of calls), `ConnectChains` (of connect calls alone), `CurrentNames` (a guard on the
calls that is enough), `KeptReferences` (and why it is needed), `Assembly` (`build`), `CallMeaning` (what each call
stores and returns, and what stays), `PropertyStream`, `SampleLayout`, `Attachment` (wiring in terms of components),
`Pipeline` (end to end), `CallOnce`, `SelectionSampling`, `GridRefinement`, `TopModule`, `Decimal`, `PortPlacement`.

`dafny verify dfyconfig.toml` checks everything.

## How the model reads

* A builder call is a function on the builder's state (`Builder.Step`), including what a call leaves behind when it
  raises; the class `NetlistBuilder` performs the same call in place and is proved equal to that function.
* Arrays that the C++ code rewrites (`parent`, `visited`, pin counts, offsets, sample buffers) are arrays. Ghost
  sequences carry the root table and a depth that falls towards the root; `RootsUnique` shows the parent array alone
  determines the roots.
* The engine's models are reduced to their pin counts, with `None` for a model the engine cannot find. `create_node`
  yields the next number, `add_to_node` updates a pin-to-node map.
* `double` is `real`: there is no rounding, infinity or NaN, so the finiteness guards always pass. `size_t` arithmetic
  is taken modulo 2^64 where the text parsers and the port placer can reach it, and the wire table modulo 2^32
  (`TableArrives`); element codes are taken to fit a C int, and elsewhere integers are unbounded.
* Node information is a C++ union of an analog and a digital part; the model gives a node both parts as plain fields.
* `call_once` steps are sequentially consistent.
* Ports are placed twice by the same formulas, by the element placer and by `reposition_io_elements`
  (src/verilog2plsav.cpp:274-341); the model has them once.

## Findings

* `PROPERTY_ARITY` asks for 14 properties of codes 55 and 56, the engine reads 13. From the first such element on, every
  later element reads one position too early per BSIM element before it (`ReaderDrift`, `ReadsOwnSlice`,
  `DriftIsVisible`).
* A `BuilderPinRef` kept across `delete_model`, and a node index kept across a merge, silently name a new pin or a new
  empty net, so that a chain of calls can join two pins that are on different nets (`KeptPinReferenceIsNew`,
  `KeptNodeReferenceIsNew`, and `KeptPinHappens`, `KeptNodeHappens` on concrete runs). `NetsAreWhatCallsJoined` is
  therefore stated over names with lives and holds for every run. In plain names, "two pins in use are on one net iff a
  chain of calls joins them" holds all along a run exactly when every call is safe (`ChainsExactly`): the pins in use
  that chains of earlier calls reach from the two things it names all end up on one node. For `connect` that means they
  are on the node of one of its two pins; only pins in use are counted, so a kept reference into a net that has been
  emptied does no harm. `ConnectsExactly` is the same for chains of `connect` calls alone. A guard that is enough, and
  that needs no chains: no call names a pin that was in use when its element was deleted, or a node that has been merged
  away (`NetsAreNameChains`, `CurrentIsSafe`, `CurrentConnectsSafe`).
* `add_element` and `create_node` with a name already taken raise, and yet leave an unnamed element or node behind.
* The wire table reaches the engine as C ints, modulo 2^32: pin p + 2^32 arrives as pin p. `TableArrives` is the exact
  condition for the wires to arrive as they are, and the end-to-end theorems are about a table that does.
* If the first live endpoint of a net names a pin its component does not have, the engine drops every wire of that net,
  also between pins that exist (`BadHeadDropsNet`). `NodesAreNets` and `NodesAreWhatCallsJoined` cover this: the head is
  part of the exact condition for a pin to be attached.
* The grid cap can be exceeded when the minimum step is tiny, 1e-9 for example (`RefinedCanOverflow`); `RefinedFitsIff`
  is the exact condition.
* A port index of 2^64 - 1 gets a group width that does not cover it (`BitBelowWidth`), and `a[0]` and
  `a[18446744073709551615]` land on one spot (`LastWordCollides`); `PositionsShared` is the exact condition for two
  ports to share a spot.

## Model

| member | source | states |
|---|---|---|
| `UnionFind.Find` | src/dll_main.cpp:1522-1527 | the recursive `find` ends, returns the root, marks only the point asked for, and path compression rewires points to their own root only, keeping every root and the acyclic forest |
| `UnionFind.RootsUnique` | src/dll_main.cpp:1522-1527 | the parent array alone determines every point's root |
| `UnionFind.CompressKeepsForest` | src/dll_main.cpp:1524-1524 | pointing a node at its root keeps the forest acyclic with the same root table |
| `UnionFind.HangKeepsForest` | src/dll_main.cpp:1626-1641 | hanging one root below another keeps the forest acyclic |
| `UnionFind.Unite` | src/dll_main.cpp:1624-1641 | one wire joins exactly the trees of its two ends and the ground slot stays its own root |
| `Netlist.ScanPins` | src/dll_main.cpp:1550-1570 | per-element pin counts (none for ground or a missing model) and their prefix sums |
| `Netlist.SlotInjective` | src/dll_main.cpp:1572-1575 | different pins get different slots, and only ground has the extra one |
| `Netlist.JoinWires` | src/dll_main.cpp:1589-1642 | after all wires, two points have one root iff a chain of accepted wires joins them, and a slot is marked iff its point is an end of an accepted wire |
| `Netlist.CreateNodes` | src/dll_main.cpp:1644-1666 | one fresh node per marked root other than ground, numbered without gaps; the connected-to-ground branch is never taken |
| `Netlist.AttachPins` | src/dll_main.cpp:1671-1699 | every marked pin is attached to its root's node, which the table always holds; nothing else changes |
| `Netlist.BuildFromWires` | src/dll_main.cpp:1530-1705 | exactly the pins touched by accepted wires are attached; two share a node iff a chain of wires joins them; the ground node goes exactly to those joined to a code-0 element; every node made is in use |
| `Netlist.WireOrderIrrelevant` | src/dll_main.cpp:1591-1642 | reordering, flipping or repeating wires changes nothing but node numbers: the same pins are attached, share nodes and sit on ground, and as many nodes are made |
| `Attachment.ComponentsInOrder` | src/dll_main.cpp:2550-2578 | one component per element that is not ground, in element order |
| `Attachment.PinsOnOwnComponents` | src/dll_main.cpp:1671-1699 | pin p of component c is attached iff its model has it and an accepted wire touches pin p of the element c was made for; attached pins share a node iff a chain of wires joins those pins, and are on ground iff a chain joins them to it |
| `Attachment.PinsOfComponent` | src/dll_main.cpp:1550-1570 | an element has the pins of its own component's model |
| `Attachment.LinksAreRows` | src/dll_main.cpp:1591-1622 | the wires that count are the rows whose two ends both name ground or an existing pin |
| `Builder.StepValid` | python/phy_engine/builder.py:38-139 | every public call, raising or not, keeps the node lists and the endpoint index in agreement, without repeats |
| `Builder.AbsorbDual` | python/phy_engine/builder.py:207-218 | merging one node into another keeps the two indices in agreement |
| `Builder.DropDual` | python/phy_engine/builder.py:127-137 | deleting an element keeps the two indices in agreement |
| `NetlistBuilderObject.NetlistBuilder.constructor` | python/phy_engine/builder.py:31-36 | starts empty and consistent |
| `NetlistBuilderObject.NetlistBuilder.AddElement` | python/phy_engine/builder.py:38-60 | new state and outcome of add_element; a duplicate name raises after the element was appended |
| `NetlistBuilderObject.NetlistBuilder.CreateNode` | python/phy_engine/builder.py:64-71 | new state and outcome of create_node; a duplicate name raises after the node was appended |
| `NetlistBuilderObject.NetlistBuilder.AddToNode` | python/phy_engine/builder.py:73-85 | new state and outcome of add_to_node, merging the endpoint's previous node into the named one |
| `NetlistBuilderObject.NetlistBuilder.Connect` | python/phy_engine/builder.py:99-122 | new state and outcome of connect by element (and of connect_pins) |
| `NetlistBuilderObject.NetlistBuilder.ConnectRefs` | python/phy_engine/builder.py:94-98 | new state and outcome of connect on two pin references, which are not checked for life |
| `NetlistBuilderObject.NetlistBuilder.ConnectEndpoints` | python/phy_engine/builder.py:104-119 | the four cases of connect, and the node it returns |
| `NetlistBuilderObject.NetlistBuilder.MergeNodes` | python/phy_engine/builder.py:124-125 | new state and outcome of merge_nodes |
| `NetlistBuilderObject.NetlistBuilder.DeleteModel` | python/phy_engine/builder.py:127-137 | the element and all its endpoints go, lists keep their order |
| `NetlistBuilderObject.NetlistBuilder.MergeNodeIndices` | python/phy_engine/builder.py:207-218 | the merge loop moves exactly the source list to the end of the target list and re-owns it |
| `NetlistBuilderObject.NetlistBuilder.AddEndpoint` | python/phy_engine/builder.py:199-205 | adds an endpoint once; the merge branch is never taken |
| `CallMeaning.AddElementMeans` | python/phy_engine/builder.py:47-60 | raises and changes nothing for an element with further properties or text; otherwise appends exactly what was asked for, raises if the name is taken, and else returns the new index under the name |
| `CallMeaning.AddedElement` | python/phy_engine/builder.py:47-60 | in every later state the returned slot holds the element asked for until a call deletes it, and the name means that slot while it is live |
| `CallMeaning.BuiltElement` | python/phy_engine/builder.py:141-148 | build outputs it as it was asked for, at its new index |
| `CallMeaning.CreateNodeMeans` | python/phy_engine/builder.py:64-71 | appends an empty node, raises if the name is taken, and else returns the new index under the name |
| `CallMeaning.CreatedNode` | python/phy_engine/builder.py:64-71 | the returned index is the number of nodes so far, and the name means that node in every later state |
| `CallMeaning.ConnectMeans` | python/phy_engine/builder.py:99-119 | joins the named pins; both end up on the returned node, which is the first pin's, else the second's, else a new one; an unknown or dead element raises and changes nothing |
| `CallMeaning.ConnectRefsMeans` | python/phy_engine/builder.py:94-119 | the same for two pin references, whatever has become of their elements |
| `CallMeaning.AddToNodeMeans` | python/phy_engine/builder.py:79-85 | the pin and everything on its node go to the named node, whose index is returned |
| `CallMeaning.MergeNodesMeans` | python/phy_engine/builder.py:124-125 | everything on the second node goes to the first, whose index is returned |
| `CallMeaning.DeleteModelMeans` | python/phy_engine/builder.py:127-137 | the element goes and exactly its pins go out of use |
| `CallMeaning.MergedOrder` | python/phy_engine/builder.py:207-218 | in a merged list the pins of the first node come first, and otherwise the order is the old one |
| `CallMeaning.DroppedOrder` | python/phy_engine/builder.py:133-137 | deletion keeps the order of what remains |
| `CallMeaning.PutOrder` | python/phy_engine/builder.py:199-205 | a new pin comes last in its node's list |
| `CallMeaning.OtherLists` | python/phy_engine/builder.py:199-218 | lists of other nodes are left alone, and a merged-away node's list is empty |
| `CallMeaning.ElementRef` | python/phy_engine/builder.py:171-183 | a reference means the element of its index or name, if that is live |
| `CallMeaning.NodeRef` | python/phy_engine/builder.py:185-197 | a reference means the node of its index or name, if there is one |
| `CallMeaning.TraceOf` | python/phy_engine/builder.py:38-139 | every run has a trace of states, each the outcome of its call |
| `BuilderHistory.NetsAreWhatCallsJoined` | python/phy_engine/builder.py:38-139 | after any sequence of public calls two endpoints are on one net iff the calls have joined them, and an endpoint is on a node's list iff the calls have joined it to that node |
| `BuilderHistory.InvStep` | python/phy_engine/builder.py:38-139 | each call adds exactly its own links to the net partition |
| `Placements.HarmlessKeeps` | python/phy_engine/builder.py:104-119 | joining two names keeps "one node iff a chain joins them" if whatever a chain reaches from either is on the node of one of them |
| `Placements.FaithfulNeedsHarmless` | python/phy_engine/builder.py:104-119 | and only if: any other join leaves two names apart that a chain joins |
| `NameChains.ChainsExactly` | python/phy_engine/builder.py:38-139 | in plain names, two pins in use are on one net iff a chain of calls joins them, all along a run, iff every call is safe: the pins in use that chains reach from what it names end up on one node |
| `NameChains.ConnectExact` | python/phy_engine/builder.py:87-119 | connect keeps that property of pins iff every pin in use reached from either pin is on the node of one of the two |
| `NameChains.AddExact` | python/phy_engine/builder.py:73-85 | add_to_node keeps it iff every pin in use reached from the node or the pin is on that node or on the pin's |
| `NameChains.MergeExact` | python/phy_engine/builder.py:124-125 | merge_nodes keeps it iff the pins in use reached from either node are all on the two, or all on one other node |
| `ConnectChains.ConnectsExactly` | python/phy_engine/builder.py:87-137 | without node references: two pins in use are on one net iff a chain of connect calls joins them, all along a run, iff every connect is safe for those chains |
| `CurrentNames.NetsAreNameChains` | python/phy_engine/builder.py:38-139 | in a run naming no pin deleted while in use and no node merged away: same net iff a chain of calls joins them, and on a node's list iff a chain joins them to it |
| `CurrentNames.CurrentIsSafe` | python/phy_engine/builder.py:38-139 | every call of such a run is safe |
| `CurrentNames.CurrentConnectsSafe` | python/phy_engine/builder.py:87-137 | and every connect, for the chains of connect calls alone |
| `CurrentNames.NetsAreConnectChains` | python/phy_engine/builder.py:87-137 | without node references and with safe connects: same net iff a chain of connect calls joins them, even through pins deleted since |
| `KeptReferences.KeptPinReferenceIsNew` | python/phy_engine/builder.py:94-98 | after any run, connecting a to x, deleting x's element and connecting the kept reference x to b leaves a and b on different nets although calls join them |
| `KeptReferences.KeptPinHappens` | python/phy_engine/builder.py:94-98 | that on a concrete run: some add_element calls, then the three calls |
| `KeptReferences.KeptNodeReferenceIsNew` | python/phy_engine/builder.py:207-218 | after any run, merging src into dst and putting an unused pin on each leaves the two pins on different nets although calls join them |
| `KeptReferences.KeptNodeHappens` | python/phy_engine/builder.py:207-218 | that on a concrete run: some add_element calls, two create_node, then the three calls |
| `Assembly.Build` | python/phy_engine/builder.py:141-159 | the loops of build produce the surviving elements in order and one star of wires per net |
| `Assembly.RenumberingIsBijection` | python/phy_engine/builder.py:142-148 | survivors are renumbered by an order-preserving bijection that keeps their contents |
| `Assembly.WireCount` | python/phy_engine/builder.py:150-157 | wires plus live nets equal live endpoints: a net of k live endpoints has k - 1 wires |
| `Assembly.WiresSpanNets` | python/phy_engine/builder.py:150-157 | two live endpoints are joined by the wires iff they are on one net |
| `Assembly.WireFrom` | python/phy_engine/builder.py:151-157 | every wire runs between two different live endpoints of one net, from the head of its star |
| `Assembly.ActiveHead` | python/phy_engine/builder.py:151-154 | the head of a star is the first live endpoint of its node's list |
| `Assembly.WiresInOrder` | python/phy_engine/builder.py:150-157 | the wires come node by node, and within a node in the order of its list |
| `Pipeline.FlattenWires` | python/phy_engine/circuit.py:201-205 | row k of the flat table is wire k |
| `Pipeline.TableArrives` | python/phy_engine/circuit.py:215-219 | converted to C ints, the table still holds the wires iff every number in them fits |
| `Pipeline.JoinedIsSameRail` | src/dll_main.cpp:1591-1642 | accepted endpoints are joined in the engine iff they are on one net or both nets hold a live ground pin |
| `Pipeline.UsedIsShared` | src/dll_main.cpp:1599-1622 | a pin is touched by an accepted wire iff its net's head is accepted and another endpoint of the net is |
| `Pipeline.NodesAreNets` | src/dll_main.cpp:1530-1705 | end to end from any builder state: a pin is attached iff it exists and its net is shared; attached pins share a node iff they are on one net or both nets are grounded; ground node iff grounded |
| `Pipeline.EngineKeyIsOwn` | src/dll_main.cpp:1671-1698 | the engine's name for a live pin is that pin of the component made for the pin's own element |
| `Pipeline.SharedWhenInRange` | python/phy_engine/builder.py:152-154 | when all pins exist, shared means at least two live endpoints |
| `Pipeline.Assemble` | python/phy_engine/builder.py:141-159 | build, flat table, its conversion to C ints and build_netlist_from_wires composed on the objects meet `NodesAreNets` when the wires fit C ints |
| `Pipeline.NodesAreWhatCallsJoined` | src/dll_main.cpp:1530-1705 | after any sequence of public calls: a pin is attached iff it exists, its net's head does and the calls have joined it to another existing endpoint; on the ground node iff joined to a live ground pin; attached pins share a node iff joined, or both to ground |
| `Pipeline.NodesAreNameChains` | src/dll_main.cpp:1530-1705 | the same with plain chains of calls, for runs of safe calls |
| `Pipeline.NodesAreConnectChains` | src/dll_main.cpp:1530-1705 | the same with chains of connect calls, for runs without node references whose connects are safe |
| `Pipeline.BadHeadDropsNet` | src/dll_main.cpp:1599-1622 | two existing pins on one net, joined by the calls, that the engine leaves unattached because the net's first endpoint does not exist |
| `PropertyStream.TablesAgree` | python/phy_engine/circuit.py:95-156 | the arity table and the reader know the same codes and agree except for 55 and 56, where the reader takes one less |
| `PropertyStream.CodesByArity` | python/phy_engine/circuit.py:95-156 | the codes of each number of properties, and the number the engine reads |
| `PropertyStream.ValidateElements` | python/phy_engine/circuit.py:222-237 | accepts exactly the non-empty lists whose elements have the right arity and Verilog fields |
| `PropertyStream.TurnedDown` | python/phy_engine/circuit.py:222-237 | a list is turned down iff it is empty or some element has a wrong number of properties, Verilog text missing, or text out of place |
| `PropertyStream.FlattenProperties` | python/phy_engine/circuit.py:261-265 | the stream is the elements' properties in order, never empty |
| `PropertyStream.StreamSlice` | python/phy_engine/circuit.py:261-261 | an element's properties sit in the stream at its slice start |
| `PropertyStream.CreateComponents` | src/dll_main.cpp:2550-2588 | creation succeeds iff every code is known, and each component is built from memory at the cursor left by the elements before it, wherever the array ends |
| `PropertyStream.ReaderDrift` | src/dll_main.cpp:1707-2074 | the read position is the slice start minus the number of earlier code-55/56 elements, hence aligned iff there is none, and never past the stream |
| `PropertyStream.ReadsOwnSlice` | src/dll_main.cpp:2553-2573 | without earlier code-55/56 elements an element is built from its own properties; in general from the stream that far behind |
| `PropertyStream.DriftIsVisible` | src/dll_main.cpp:1919-1937 | a resistor after a BSIM transistor is built from the transistor's last property |
| `SampleLayout.Layout` | src/dll_main.cpp:2285-2302 | the three layouts are prefix sums of pin and branch counts |
| `SampleLayout.LayoutIs` | src/dll_main.cpp:2285-2302 | a component has as many voltage and digital cells as pins and as many current cells as branches, a missing one none |
| `SampleLayout.TilesPartition` | src/dll_main.cpp:2285-2302 | every buffer cell belongs to exactly one component's range |
| `SampleLayout.FillBuffers` | src/dll_main.cpp:2435-2462 | each component's voltages, currents and digital values end up in its own ranges |
| `SampleLayout.BuffersShow` | src/dll_main.cpp:2435-2462 | each cell shows its own pin's voltage or state, or its own branch's current, in both digital encodings |
| `SampleLayout.BitIsFourStateHigh` | src/dll_main.cpp:2400-2409 | the 0/1 samplers equal the 4-state sampler with H as 1 and everything else as 0 |
| `SampleLayout.Sample` | python/phy_engine/circuit.py:427-476 | the sliced samples are each component's own values |
| `SampleLayout.SampleOfElement` | python/phy_engine/circuit.py:256-258 | the sample filed under an element, and only that one, shows its component's pins and branches: voltages, 0 off a node; states 0 to 3, X off a digital node; branch currents; nothing for a missing model |
| `Attachment.SampledComponent` | python/phy_engine/circuit.py:256-258 | a component's sample is filed under the element the component was made for |
| `CallOnce.AtMostOnce` | include/absl/base/call_once.h:149-190 | in every run fn begins at most once, no call returns before it has ended, and at most one call holds the flag |
| `CallOnce.NoLostWakeUp` | include/absl/base/call_once.h:166-188 | while a call sleeps, the winner has still to publish over Waiter or has its wake-all pending |
| `CallOnce.WordMovesForward` | include/absl/base/call_once.h:139-147 | the control word only moves Init, Running, optionally Waiter, Done, and only the winner takes it to Done |
| `CallOnce.ActKeepsInv` | include/absl/base/internal/spinlock_wait.cc:39-58 | every atomic operation keeps the protocol invariant |
| `CallOnce.RunsAreBounded` | include/absl/base/internal/spinlock_wait.cc:39-58 | n calls perform at most 35n + 4 operations, and at most three more per spurious futex wake-up |
| `CallOnce.NeverStuck` | include/absl/base/internal/spinlock_linux.inc:59-71 | while some call has not returned, some call can move |
| `CallOnce.ExactlyOnce` | include/absl/base/call_once.h:54-62 | a run that cannot go on has returned from every call and run fn exactly once |
| `CallOnce.LoneCall` | include/absl/base/call_once.h:149-190 | a lone call returns after exactly five operations, with no wake-up |
| `CallOnce.LateCallReturns` | include/absl/base/call_once.h:212-220 | a call that comes after fn has been published returns on its first operation |
| `CallOnce.WaiterMeansWaiting` | include/absl/base/call_once.h:166-188 | the word says Waiter only while some call waits |
| `SelectionSampling.Sample` | include/absl/algorithm/container.h:853-865 | the loop stays in range for every draw outcome and keeps the in-order subsequence of min(n, N) elements its draws select |
| `SelectionSampling.DrawnIs` | include/absl/algorithm/container.h:853-865 | after j elements have been kept, the next is kept iff its draw is below the k - j still wanted; the result is the kept items in order |
| `SelectionSampling.DrawsAre` | include/absl/algorithm/container.h:858-859 | the i-th draw is below the number of elements still to come |
| `SelectionSampling.AllDrawsSize` | include/absl/algorithm/container.h:858-859 | there are N! draw sequences |
| `SelectionSampling.SelectionIsUniform` | include/absl/algorithm/container.h:853-865 | each way of keeping k of N elements arises from exactly k! (N - k)! draw sequences |
| `GridRefinement.RefineSteps` | src/verilog2plsav.cpp:198-272 | the two loops compute the refined steps |
| `GridRefinement.RefinedIs` | src/verilog2plsav.cpp:232-271 | the steps are the caller's, or the safe one, shrunk by 5% exactly as often as it takes to meet the demand, 200 times at most and never below the minimum, itself widened by 2% just until it fits |
| `GridRefinement.GoodStepsStay` | src/verilog2plsav.cpp:252-254 | steps that respect the cap and meet the demand come back unchanged |
| `GridRefinement.CapacityIs` | src/verilog2plsav.cpp:214-231 | capacity and cap are about the cells of a region 2 wide and 2 or 2/3 high |
| `GridRefinement.CellsFit` | src/verilog2plsav.cpp:219-222 | a span has as many cells as steps fit it, and one more |
| `GridRefinement.CapacityAtTenth` | src/verilog2plsav.cpp:214-218 | steps of 0.1 give 441 cells, or 147 with wires |
| `GridRefinement.GridOkIsCellCount` | src/verilog2plsav.cpp:224-231 | the guard by division means at most 2,000,000 cells |
| `GridRefinement.BreakIsDead` | src/verilog2plsav.cpp:263-267 | once the minimum step fits, the early break is never taken |
| `GridRefinement.LeastStepFits` | src/verilog2plsav.cpp:233-239 | from a minimum of at least 1e-5 the 256 widenings find a fitting minimum step |
| `GridRefinement.RefinedFitsIff` | src/verilog2plsav.cpp:241-271 | the refined grid respects the cap iff the caller's steps do or the last-resort step does |
| `GridRefinement.RefinedFits` | src/verilog2plsav.cpp:198-272 | with a minimum step of at least 1e-5, or none given, the refined grid has at most 2,000,000 cells |
| `GridRefinement.RefinedCanOverflow` | src/verilog2plsav.cpp:233-250 | with steps and minimum of 1e-9 the cap is exceeded |
| `GridRefinement.RefinedReaches` | src/verilog2plsav.cpp:252-271 | from steps of at most 10, the target is missed only with both steps at the effective minimum |
| `TopModule.FindTop` | src/verilog2plsav.cpp:614-650 | picks the most ports among the modules nobody instantiates, earliest on ties; the last module if there is none |
| `TopModule.TopIsUnique` | src/verilog2plsav.cpp:614-650 | the design admits only one choice |
| `TopModule.TopIs` | src/verilog2plsav.cpp:614-650 | the choice in the design's own names: the first module of most ports that no instance names, else the last module |
| `TopModule.TopOfAcyclicDesign` | src/verilog2plsav.cpp:614-650 | in a non-empty acyclic design the fallback is never used, and a sole candidate reaches every module |
| `TopModule.RootsCoverDesign` | src/verilog2plsav.cpp:629-634 | every module of an acyclic design lies below some candidate |
| `Decimal.ParseBitIndex` | src/verilog2plsav.cpp:77-92 | accepts exactly base[digits], with the index modulo 2^64 |
| `Decimal.BitIndexIs` | src/verilog2plsav.cpp:77-92 | an index is found iff the text is the base, then digits in brackets |
| `Decimal.ValueOfPlaces` | src/verilog2plsav.cpp:86-90 | digits count by tens: appending n of them shifts what came before by 10^n |
| `Decimal.ValueOfTen` | src/verilog2plsav.cpp:86-90 | "10" is 10 and "7" is 7 |
| `Decimal.BaseName` | src/verilog2plsav.cpp:108-113 | the part before the first bracket |
| `Decimal.BitNameRoundTrip` | src/verilog2plsav.cpp:77-113 | base[n] parses back to base and n for every n below 2^64 |
| `Decimal.ParseList` | benchmark/0001.models/100000_random_links_cpu.cpp:36-65 | accepts exactly the comma-separated lists of non-empty digit runs; a rejected text leaves the good leading values |
| `Decimal.SplitIs` | benchmark/0001.models/100000_random_links_cpu.cpp:36-65 | the pieces are what lies between commas |
| `Decimal.ListRoundTrip` | benchmark/0001.models/100000_random_links_cpu.cpp:190-194 | the printed list of words parses back to the list |
| `PortPlacement.CollectGroups` | src/verilog2plsav.cpp:115-137 | groups in order of first appearance, numbered by row, each as wide as its highest bit needs |
| `PortPlacement.BitBelowWidth` | src/verilog2plsav.cpp:128-132 | a port's bit is below its group's width iff its index is not 2^64 - 1 |
| `PortPlacement.PositionsShared` | src/verilog2plsav.cpp:1174-1220 | two ports of one direction land on one spot iff they are of one group and name one bit, or the whole group names only the bits 0 and 2^64 - 1 |
| `PortPlacement.BitsRightToLeft` | src/verilog2plsav.cpp:146-152 | in one group lower bits lie to the right of higher ones, and neighbours are 2 / (width - 1) apart |
| `PortPlacement.BitsFillDesk` | src/verilog2plsav.cpp:146-152 | bit 0 is at x = 1 and the highest bit at -1, or in the middle of a group of width 1 |
| `PortPlacement.GroupsTopDown` | src/verilog2plsav.cpp:139-144 | groups lie top to bottom in the order their first ports appear in |
| `PortPlacement.GroupsFillBand` | src/verilog2plsav.cpp:1168-1172 | the first group is on the upper edge of its band and the last on the lower edge, for both directions, with wires and without |
| `PortPlacement.InputsAboveOutputs` | src/verilog2plsav.cpp:1168-1172 | every input lies above every output |
| `PortPlacement.NoPlaceForOthers` | src/verilog2plsav.cpp:1181-1182 | a name that shares its base with no port of the direction gets no place |
| `PortPlacement.WidthIsOne` | src/verilog2plsav.cpp:123-132 | a group is 1 wide iff it names only the bits 0 and 2^64 - 1 |
| `PortPlacement.PositionsDistinct` | src/verilog2plsav.cpp:274-341 | short of the index 2^64 - 1, that is iff they name the same bit of the same group |
| `PortPlacement.LastWordCollides` | src/verilog2plsav.cpp:128-132 | a[0] and a[2^64 - 1] land on one spot |
| `PortPlacement.PortsStayOutside` | src/verilog2plsav.cpp:1168-1172 | with wires and any positive gap no port lies in the layout rectangle |

## Left out

- Verilog compilation, elaboration, simulation, synthesis and its optimisation passes, MNA solving, automatic layout and `pe_to_pl`: the wiring and placement code only calls them.
- `verilog_runtime_*`, `pl_experiment_*`, `pl_pe_circuit_*`, the ctypes layer and error strings: they pass values through, and there is nothing to prove.
- Null-pointer and allocation-failure paths of the C interface, and the cast of the pin total to `int`: allocation succeeds and the total fits.
- The Verilog text tables of `create_circuit_ex` and the expansion of Verilog netlists after wiring: elements 300 and 301 only take part as elements that read no properties.
- Argument-shape errors of `connect` (mixed or missing arguments): Python typing, one branch each.
- `iter_elements`, `iter_nodes` and the name carried by returned references: read-only views.
- An explicit `--top` in `find_top_module`: it only calls `find_module`.
- Exceptions thrown by `fn`, memory orderings and the scheduling guard of `call_once`.
- The order in which `delete_model` visits the endpoints of an element: the result does not depend on it.
- What a read past the end of the properties array yields: `CreateComponents` takes memory as a total function, and `ReaderDrift` shows that accepted lists never read past the end.
- Floating-point rounding: all `double` arithmetic is exact.
