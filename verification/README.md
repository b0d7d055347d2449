# Verification of nslab

A Dafny model of the parts of nslab that are hardest to get right, with proofs. nslab builds network
labs out of Linux namespaces; this project covers

* **the lifecycle** (`Topology`, `Protocol`, `Machine`, `Store`, `Lifecycle`): deploy, destroy and redeploy as a
  write-ahead protocol over one state file. Every system, inventory and backend call may fail, be interrupted,
  succeed in part, report a false outcome, or lose the process; a finite run meets finitely many of these.
* **the box display** (`DisplayTree`, `Worklist`, `Multigraph`, `Members`, `BreadthFirst`, `SpanningTree`, `Forest`,
  `Geometry`, `Placement`, `Canvas`, `Drawing`, `Rendering`, `Printing`, `Display`): from any multigraph to a forest,
  to a layout, to a drawing in which nothing covers anything and whose rows of text read back.
* **AF_XDP frames** (`Umem`): user code and kernel steps interleaved over four rings.
* **Internet checksums** (`OnesComplement`, `EchoReply`, `Incremental`, `XdpPrograms`): RFC 1071 and RFC 1624.
* **the in-memory backend, the matcher and the inspector** (`Network`, `Configure`, `Configured`, `Indexes`,
  `FakeBackend`, `Matcher`, `Planned`, `Realization`, `Inspector`, `Inspection`): three computations of one
  expectation, that they agree, and that it is what the plan says.
* **snapshots** (`Json`, `StateDocument`, `Ownership`, `Validation`, `Recording`): round trips and validity.
* **routing clean-up** (`FileTree`, `RoutingPaths`, `RoutingRecords`, `RoutingSignals`,
  `RoutingCleanup`) and **traffic rates**
  (`TrafficRates`).

Methods are proved against specifications stated apart from their bodies; functions shared by several modules are in
`Options` and `Texts`. `dafny verify dfyconfig.toml` checks everything.

## Findings

Where the code falls short of what it promises, the model keeps the code and states when exactly it does:

* `xdp_icmp_echo` keeps the ICMP checksum valid if and only if the words of the reply other than the checksum are
  not all zero (`Incremental.ReplaceKeepsValid`, `XdpPrograms.EchoKeepsMessage`). `Incremental.EmptyEchoBreaks` is an
  echo request that verifies and whose reply does not. The TTL updates have no such case.
* `normalize_rate` ends in a failing lookup rather than a refusal exactly for rates with a dotless or dotted i in
  their unit (`TrafficRates.UnknownUnitIff`); sizes are free of it (`TrafficRates.SizesAreKnown`).
* `FrrRuntime.stop` ends in an unhandled exception, before any signal or removal, exactly if all directories pass
  their check and some record cannot be read or probed: metadata that make the JSON reader raise anything but its own
  error, or a number above what a process number can be (`RoutingCleanup.Runtime.Stop`). `LargePidStuck` is such a
  deployment: it cannot be stopped.
* `stop` takes a recorded number for a process group and skips it without a word if there is none, although the
  process exists: the directories are removed, success is returned, and the process goes on
  (`RoutingCleanup.StopPassingOver`, `LeaveRunning`). Members of a group that are not on record are signalled too, and
  number one stands for everybody. `RoutingSignals.ExactlyIff` says for every table of processes when exactly the
  recorded ones are signalled; `RoutingCleanup.Runtime.Stop` states it of each call.
* After signalling, `stop` may refuse to clean a legacy runtime up: exactly if the daemons took the last pid file of
  a node along (`RoutingCleanup.StillOk`, `LegacyMayBeRefused`). With markers this cannot happen.
* FRR path names are shared between deployments whose joined names can be cut in more than one place
  (`RoutingPaths.PathIsOwnIff`). Markers keep such deployments apart: the second one is refused
  (`RoutingCleanup.ForeignIsRefused`).
* The inspector reports differences for a topology that it calls deployed exactly if some TBF was observed with
  rounded values, because the matcher tolerates what the inspector's texts show (`Inspection.InspectTopology`).
* Records built before deployment are refused as deployed ones unless the plan has no link
  (`Validation.BlankPasses`); deploy never stores them so.

## Model

| member | source | states |
|---|---|---|
| `Lifecycle.LifecycleService.Run` | src/nslab/lifecycle.py:126-145 | For every sequence of deploy, destroy and redeploy calls, whatever calls fail, are interrupted, half succeed or kill the process: every world of the history is safe (what is live is covered by the visible snapshot, and a visible `deployed` snapshot means the verified topology is complete), the visible status only moves along the automaton, and every deleted namespace was created in the same call or listed by the `deployed` snapshot visible when the call began |
| `Lifecycle.LifecycleService.DeployLocked` | src/nslab/lifecycle.py:147-277 | A deploy deletes only namespaces it created itself; with any snapshot already visible it has no effect at all; without faults its outcome is determined by the visible status and plan; success means this plan is visibly deployed, and reports a change exactly if nothing was visible before. If it fails for good, or because a creation failed, every namespace that it created successfully is deleted again, or at least tried to, later in the same call. If one fault strikes and no creation leaves litter behind, it is all or nothing: it ends fully deployed or with nothing live, and if it fails for good, or because a creation failed, not even a snapshot is left |
| `Lifecycle.LifecycleService.DeployFresh` | src/nslab/lifecycle.py:199-277 | From no snapshot to a committed one: success means `deployed` is visible, a failure without need of reconciliation means it is not, and a well-formed plan without faults is deployed; the promises of a deploy that fails are those of DeployLocked |
| `Lifecycle.LifecycleService.ConfirmDeployed` | src/nslab/lifecycle.py:157-197 | A deploy that finds its own plan deployed observes only and succeeds without change; it never reports drift, because nothing can have changed under a `deployed` snapshot |
| `Lifecycle.LifecycleService.Build` | src/nslab/lifecycle.py:213-237 | The try block of a deploy only looks and creates, keeps the `deploying` snapshot in place, lists every namespace that it created, and if it ends well no creation failed, and the inventory is the live state and matches the plan; it does end well on a well-formed plan without faults |
| `Lifecycle.LifecycleService.BuildAndCommit` | src/nslab/lifecycle.py:213-277 | Building, saving `deployed` and the failure handlers of both: every outcome leaves either `deployed` over a complete topology, or a `deploying` snapshot, or nothing; if a creation failed, or the call as a whole with a certain error, every created namespace is deleted or tried; with one fault and no litter it is all or nothing |
| `Lifecycle.LifecycleService.Settle` | src/nslab/lifecycle.py:238-277 | After the build: whatever failed is rolled back, with every created namespace deleted or tried; without further faults nothing is left, and after a single fault in the last save either the whole deployment is or nothing |
| `Lifecycle.LeftBehind` | src/nslab/lifecycle.py:213-243 | A build whose failing creations leave no litter leaves no root temporaries, and no namespaces but those it lists as created |
| `Lifecycle.RemovalsUndo` | src/nslab/lifecycle.py:701-769 | If all that was created is deleted after the last creation, then after each successful creation there is a deletion of that namespace |
| `Lifecycle.LifecycleService.HandleFinalSaveFailure` | src/nslab/lifecycle.py:676-699 | If the failed save left `deployed` visible nothing is rolled back; if it left `deploying`, the rollback removes only what this call created, deletes or tries all of it if the error is certain, and without further faults leaves nothing |
| `Lifecycle.LifecycleService.Rollback` | src/nslab/lifecycle.py:701-787 | Rollback deletes only namespaces of this call, and every one of them at least tried; reported complete, it leaves no resource, no daemon and no snapshot; without faults it is complete whenever deleting the created namespaces empties the live state |
| `Lifecycle.LifecycleService.RollbackNamespaces` | src/nslab/lifecycle.py:730-769 | For every namespace that this call created there is a deletion, newest first, whatever single deletions return, and for no other |
| `Lifecycle.LifecycleService.RemoveRollbackState` | src/nslab/lifecycle.py:828-873 | The `deploying` snapshot is removed only when nothing is left to own; reported removed means that no snapshot is visible |
| `Lifecycle.LifecycleService.ReconcileDelete` | src/nslab/lifecycle.py:875-936 | After a deletion of unknown outcome, another attempt is made only behind the delete gate; reported removed means that no snapshot is visible; if the snapshot is still there and nothing fails again, it is removed |
| `Lifecycle.LifecycleService.Gate` | src/nslab/lifecycle.py:1029-1047 | A retry counts as safe only if exactly the expected snapshot is visible and the live inventory is absent, and does so if that can be read without faults |
| `Lifecycle.LifecycleService.Reconcile` | src/nslab/lifecycle.py:1049-1085 | Looking changes nothing, and what it reports of snapshot and inventory is what is there |
| `Lifecycle.LifecycleService.SaveInitialTransition` | src/nslab/lifecycle.py:653-668 | The write-ahead save: an error that needs no reconciliation leaves the old contents |
| `Lifecycle.LifecycleService.DestroyLocked` | src/nslab/lifecycle.py:279-416 | A destroy deletes only namespaces listed by the `deployed` snapshot it found; with a leftover `deploying` or `destroying` snapshot it observes and fails; success leaves nothing at all; if it fails for good with `destroying` visible, the deletion of every listed namespace was tried; without faults the outcome is determined by what was visible |
| `Lifecycle.LifecycleService.DestroyDeployed` | src/nslab/lifecycle.py:310-415 | `destroying` is visible before the first deletion, and the snapshot of the same plan stays visible until nothing is left |
| `Lifecycle.LifecycleService.DestroyResources` | src/nslab/lifecycle.py:316-406 | No error means that nothing is live and no daemon runs |
| `Lifecycle.LifecycleService.DestroyNamespaces` | src/nslab/lifecycle.py:334-380 | Every namespace of the plan is deleted, last first, missing ones counting as deleted; the first error is kept, an interruption replaces it and ends the loop; without one there is a deletion for every namespace |
| `Lifecycle.LifecycleService.DestroyAbsent` | src/nslab/lifecycle.py:291-308 | Without a snapshot nothing is deleted; only routing leftovers are stopped, and only if the inventory is absent |
| `Lifecycle.LifecycleService.DeleteFinalState` | src/nslab/lifecycle.py:938-994 | Success means that the `destroying` snapshot is gone; nothing else changes; a single fault that is no interruption does not keep it |
| `Lifecycle.LifecycleService.Redeploy` | src/nslab/lifecycle.py:134-145 | Destroy and deploy as one call: with a leftover snapshot it has no effect, success leaves the new plan deployed, and the two halves together delete only what was listed or created in the call |
| `Protocol.LegalKeepsSafe` | src/nslab/lifecycle.py:199-269 | Each protocol step, done in full or in part and with no more than the effect of its kind, keeps safety |
| `Protocol.SafetyOverHistory` | src/nslab/lifecycle.py:147-416 | Safety over whole histories, by induction on their steps |
| `Protocol.StatusAutomaton` | src/nslab/lifecycle.py:454-463 | Visible status moves only absent, deploying, deployed, destroying, absent, or from deploying back to absent, and never to another plan in between |
| `Protocol.DeployedIsFrozen` | src/nslab/lifecycle.py:310-336 | While `deployed` is visible no step but the write of `destroying` changes anything |
| `Store.StateStore.Save` | src/nslab/state.py:306-373 | At any fault the file is old or new, never torn; `STATE_WRITE_FAILED` means old, `STATE_DURABILITY_UNCERTAIN` new, and whenever the error needs no reconciliation the old contents are in place; no error of the operating system comes out as it is, others pass unchanged before the rename |
| `Store.StateStore.Delete` | src/nslab/state.py:375-393 | At any fault the file is unchanged or gone; `STATE_DURABILITY_UNCERTAIN` means gone; a missing file counts as deleted |
| `Store.StateStore.Load` | src/nslab/state.py:276-304 | Loading reports exactly the visible snapshot, and a torn file never loads |
| `Store.StateStore.WriteAndSwap` | src/nslab/state.py:324-373 | From the temporary file to the synced directory, with clean-up: old or new contents, and the code tells which |
| `Machine.Host.CreateVeth` | src/nslab/backend/base.py:182-182 | A creation that fails may leave either end, under the new id, or a temporary root name behind; all else is unchanged |
| `Machine.Host.DeleteNamespace` | src/nslab/backend/base.py:178-178 | A deletion that fails may have happened all the same; what is lost lies in the namespace or is the far end of a veth in it |
| `Forest.BuildForest` | src/nslab/graph.py:57-111 | For every multigraph with self-links and parallel links: components partition the nodes in plan order, each is a tree from the member with the most link ends (the earliest of equals) that reaches exactly its members at their hop distances; of several links between parent and child the tree has the first, children are in the order of their links, and a breadth-first numbering of the tree exists in which every node's parent is the first of all its neighbours; cross-links are exactly the unused links among the members, in link order |
| `Forest.EveryLinkOnce` | src/nslab/graph.py:88-103 | Each link is shown in exactly one component, there as a tree edge or as a cross-link and never both |
| `Forest.EveryNodeOnce` | src/nslab/graph.py:64-80 | Each node is in exactly one component |
| `Forest.FilterCross` | src/nslab/graph.py:96-103 | The cross-links of a component are the links that its tree does not use, in order and without repetition |
| `Members.FindMembers` | src/nslab/graph.py:70-79 | The first search finds exactly the nodes that can be reached, and what is left is closed under links |
| `Members.ChooseRoot` | src/nslab/graph.py:81-81 | The root is the member with the most link ends, and of equals the earliest in plan order |
| `Members.BuildAdjacency` | src/nslab/graph.py:59-62 | Each node's list has its links in order, a self-link twice |
| `SpanningTree.GrowTree` | src/nslab/graph.py:82-94 | The second search makes a tree over exactly the members found by the first, records exactly the links it uses, no neighbour of a node is more than one level further down, and the tree is in turn: first links, children by link, earliest parents in breadth-first order |
| `BreadthFirst.TakeTurn` | src/nslab/graph.py:88-94 | Hanging a node that nobody has seen below the node whose turn it is keeps all of this: it comes after all that wait, by the first link, and none of its neighbours had an earlier turn |
| `BreadthFirst.FreshHopIsFirst` | src/nslab/graph.py:59-94 | In a node's list of neighbours, the first entry that leads to some neighbour is by the first link between the two |
| `BreadthFirst.LastTurn` | src/nslab/graph.py:82-94 | When nobody waits the tree is in turn |
| `SpanningTree.DepthIsDistance` | src/nslab/graph.py:82-94 | Tree depth is hop distance from the root |
| `SpanningTree.LinkUsedOnce` | src/nslab/graph.py:88-94 | No link serves as two tree edges |
| `SpanningTree.OrientedText` | src/nslab/graph.py:51-54 | An edge label names the parent's interface first, whichever way round the link is |
| `Placement.TreeDepths` | src/nslab/graph.py:498-506 | The depths pass computes the depth of every node of any tree |
| `Placement.SubtreeWidths` | src/nslab/graph.py:509-529 | After the width pass every span has exactly the room that box, children and label above need |
| `Placement.Traverse` | src/nslab/graph.py:510-515 | The traversal visits every node once, parents first, so that its reverse sees children first |
| `Placement.MeasureLayers` | src/nslab/graph.py:535-538 | Each layer is as high as its highest box |
| `Placement.StackLayers` | src/nslab/graph.py:540-544 | Layers are stacked with a gap of five rows |
| `Placement.PlaceAll` | src/nslab/graph.py:546-572 | The explicit stack places each node once, centred in its span on its layer, children side by side and centred below the parent |
| `Placement.PlaceComponent` | src/nslab/graph.py:532-572 | All passes together give a layout that meets every equation the geometry rests on |
| `Geometry.SpansApart` | src/nslab/graph.py:516-572 | Spans of different nodes of one depth are at least five columns apart, for any tree and any sizes |
| `Geometry.NeverLeftOfZero` | src/nslab/graph.py:556-571 | No span begins left of column zero |
| `Geometry.BoxesDisjoint` | src/nslab/graph.py:546-572 | No two boxes share a cell |
| `Geometry.LabelInSpan` | src/nslab/graph.py:588-605 | A label stays inside its child's span but for at most one column on the left, so no drawn column is below -1 |
| `Geometry.EdgeInSpan` | src/nslab/graph.py:588-606 | A connector keeps to the parent's span, and below the branch row to the child's column |
| `Geometry.EdgeAvoidsBoxes` | src/nslab/graph.py:588-606 | A connector touches no box but its own two, each in the one middle cell of its border, with boxes of any heights in a layer |
| `Geometry.EdgeAvoidsLabels` | src/nslab/graph.py:588-606 | No connector has a cell in a label row |
| `Geometry.ConnectorsApart` | src/nslab/graph.py:588-606 | Connectors of different parents share no cell |
| `Geometry.LabelsDisjoint` | src/nslab/graph.py:588-606 | Labels of different edges share no cell |
| `Geometry.LabelAvoidsBoxes` | src/nslab/graph.py:588-606 | No label shares a cell with a box |
| `Canvas.Canvas.Connect` | src/nslab/graph.py:426-436 | Joins exactly neighbouring cells, refuses other pairs, and keeps line stubs mutual |
| `Canvas.Canvas.AddHorizontal` | src/nslab/graph.py:438-440 | Adds exactly the stubs of a run between two columns, given in either order |
| `Canvas.Canvas.AddVertical` | src/nslab/graph.py:442-444 | Adds exactly the stubs of a run between two rows, given in either order |
| `Canvas.Canvas.AddText` | src/nslab/graph.py:446-448 | Writes the text from a cell on and nothing else |
| `Canvas.OneMoreWriting` | src/nslab/graph.py:446-448 | A text that covers no other leaves all earlier ones legible |
| `Drawing.DrawTreeEdge` | src/nslab/graph.py:588-606 | Draws one connector and its label beside what was drawn |
| `Drawing.DrawBox` | src/nslab/graph.py:575-585 | Draws one border and its lines of text beside what was drawn |
| `Drawing.DrawEdges` | src/nslab/graph.py:620-623 | Draws all edges, whatever the order of the nodes |
| `Drawing.DrawBoxes` | src/nslab/graph.py:624-625 | Draws all boxes in the order of placement |
| `Rendering.RenderComponent` | src/nslab/graph.py:609-626 | For every tree, any boxes and any labels: the line stubs in every cell are exactly the directions in which connectors and borders of the layout run on from it, every label and every line of text is legible, there is no other character, no character hides a line, and nothing lies above row zero |
| `Rendering.CrossedCells` | src/nslab/graph.py:609-626 | The strokes leave a stub in a cell, towards one side, exactly if a connector or a border of the layout runs through the cell and its neighbour on that side |
| `Rendering.EdgeStubs` | src/nslab/graph.py:588-606 | The stubs of a connector in a cell point to those neighbours that lie on the connector too |
| `Rendering.BorderStubs` | src/nslab/graph.py:575-585 | The stubs of a border in a cell point to those neighbours that lie on the border too |
| `Rendering.WritingsClear` | src/nslab/graph.py:575-606 | No two texts of the drawing share a cell |
| `Printing.Print` | src/nslab/graph.py:450-466 | The rows show every occupied cell at its place from the leftmost column on, what they leave away is blank, and they end neither in blanks nor in empty rows |
| `Printing.ReadBack` | src/nslab/graph.py:450-466 | Every visible character of the canvas is read back from the rows at its place |
| `Printing.GlyphIsBlank` | src/nslab/graph.py:402-418 | A cell with a line is never shown blank |
| `Printing.GlyphArms` | src/nslab/graph.py:402-418 | The character chosen for a cell has, by a table of the box-drawing characters of Unicode, exactly the arms that the cell has stubs; a single stub is shown as the straight line along its axis |
| `Display.LabelPrinted` | src/nslab/graph.py:609-626 | Every visible character of an edge label is in the rows of text where the layout has it |
| `Display.LinePrinted` | src/nslab/graph.py:609-626 | So is every visible character of the text in a box |
| `Display.LineRead` | src/nslab/graph.py:450-466 | In the rows of text, every cell of a connector or border reads as a character with exactly the arms of the connectors and borders through it |
| `Display.ArmsAreDrawn` | src/nslab/graph.py:450-466 | And whatever reads as such a character stands for a cell where those lines run |
| `Display.CornersRead` | src/nslab/graph.py:575-585 | The four corners of every box read as U+250C, U+2510, U+2514 and U+2518 |
| `Display.RenderForest` | src/nslab/graph.py:636-645 | From any plan and any boxes: a forest with all the properties above, and for each component one finished drawing with its rows of text |
| `Umem.Rings.Serve` | examples/bpf-path/xsk_lab.c:63-125 | Under any kernel activity between user steps and for any packets: frames are conserved, no descriptor is ever invalid, the number received is submitted plus rejected, rejected counts exactly what the reply builder refused, and submitted minus completed is the number of frames in TX, in transmission and in the completion ring; once a round was served, no more than two batches of frames are idle |
| `Umem.Rings.Round` | examples/bpf-path/xsk_lab.c:70-100 | A round reaps a batch, posts the whole free list and answers a batch; afterwards the free list has as many frames as the round refused |
| `Umem.OneOwner` | examples/bpf-path/xsk_lab.c:44-44 | Each frame is in exactly one of free list, FILL, RX not yet processed, TX, in transmission, completion not yet reaped, or in the hand that moves it, and there once |
| `Umem.Pigeonhole` | examples/bpf-path/xsk_lab.c:133-141 | Frames in all places together are as many as there are frames, so rings of that size always have room |
| `Umem.Rings.Refill` | examples/bpf-path/xsk_lab.c:41-49 | Refilling always empties the free list |
| `Umem.Rings.Reap` | examples/bpf-path/xsk_lab.c:51-61 | Reaping moves at most a batch of completed frames to the free list, counts each once, and never writes outside the array |
| `Umem.Rings.ReceiveBatch` | examples/bpf-path/xsk_lab.c:75-100 | A batch of received packets is processed to its end, each counted once as submitted or rejected |
| `Umem.Rings.Dispose` | examples/bpf-path/xsk_lab.c:87-98 | A refused packet's frame goes to the free list; any other goes to TX, where a slot can always be had |
| `Umem.Rings.Check` | examples/bpf-path/xsk_lab.c:80-85 | The descriptor check never fires |
| `Umem.Rings.KickNeeded` | examples/bpf-path/xsk_lab.c:101-107 | The kick is given exactly if frames are still to be sent or reaped, although the counters wrap around |
| `Umem.Rings.constructor` | examples/bpf-path/xsk_lab.c:183-185 | The initial free list has every frame once |
| `OnesComplement.FoldedSumIsOnesSum` | examples/bpf-path/echo_reply.h:10-17 | A wide sum folded until it fits is the one's-complement sum of RFC 1071, section 1, for odd lengths too |
| `OnesComplement.VerifiesIffMultiple` | examples/bpf-path/echo_reply.h:10-17 | Bytes verify exactly if their word sum is a positive multiple of 65535 |
| `EchoReply.Checksum` | examples/bpf-path/echo_reply.h:8-18 | For any bytes up to 128 KiB the 32-bit sum does not overflow, folding ends, and the result is the complement of the one's-complement sum; beyond that it still is 16 bits |
| `EchoReply.SetChecksum` | examples/bpf-path/echo_reply.h:20-27 | Afterwards the bytes verify, and only the two checksum bytes have changed |
| `EchoReply.ReplyEcho` | examples/bpf-path/echo_reply.h:30-58 | Zero exactly for frames that are no valid echo request to the local address, and then the frame is unchanged; otherwise the length is the IP length plus 14 and fits, MACs and addresses are swapped, TTL is 64, type 0, both checksums verify, and all other bytes are kept |
| `Incremental.ReplaceKeepsValid` | examples/xdp/xdp_lab.c:110-120 | Equation 3 of RFC 1624, section 3: bytes that verified still verify after one word and the checksum were replaced, if and only if the words other than the checksum are not all zero afterwards, or the old word and the old checksum were both 0xffff |
| `Incremental.EmptyEchoBreaks` | examples/xdp/xdp_lab.c:169-179 | An echo request of zeros but for its type and checksum: it verifies, and the reply does not |
| `Incremental.LowerTtlKeepsValid` | examples/bpf-path/redirect_lab.bpf.c:55-58 | The shortcut for the TTL keeps every header that verified, without exception, and one fold is enough |
| `Incremental.ShortcutAgrees` | examples/bpf-path/redirect_lab.bpf.c:55-58 | The shortcut and equation 3 give the same checksum for every header except one value of the checksum |
| `XdpPrograms.IcmpEcho` | examples/xdp/xdp_lab.c:146-183 | Transmits exactly echo requests, with MACs and addresses swapped and the type changed, all other bytes but the checksum kept; passes everything else unchanged |
| `XdpPrograms.XdpRedirect` | examples/xdp/xdp_lab.c:185-226 | Redirects exactly IPv4 packets with TTL above one and a known next hop, with TTL lowered by one; passes everything else unchanged |
| `XdpPrograms.PathRedirect` | examples/bpf-path/redirect_lab.bpf.c:62-91 | Redirects exactly whole unfragmented echo requests with TTL above one, a known next hop and an output device; passes everything else unchanged |
| `XdpPrograms.EchoKeepsHeader` | examples/xdp/xdp_lab.c:164-167 | Swapping addresses keeps a header valid |
| `XdpPrograms.EchoKeepsMessage` | examples/xdp/xdp_lab.c:169-179 | A valid ICMP message stays valid exactly if something in it is not zero beyond type, code and checksum |
| `XdpPrograms.RouteKeepsHeader` | examples/xdp/xdp_lab.c:214-220 | A redirected packet's header verifies if it did before |
| `Realization.RealizeAndMatch` | src/nslab/backend/base.py:770-816 | On the fake backend without faults, creating and configuring any well-formed plan from empty gives an inventory that the matcher accepts and that is, interface by interface, what the plan says |
| `Realization.Realize` | src/nslab/backend/fake.py:143-633 | The deployment order builds exactly the planned namespaces; what is there matches the plan, and interface by interface it is what the plan says of it in its own terms: kind, master, MTU, addresses, MAC, bridge ports, VLANs, qdisc; what the matcher leaves open is as created: the MTUs of loopback, bridge and VRFs, that of a VLAN is its parent link's, and nobody has a MAC that was not declared |
| `Realization.TearDown` | src/nslab/backend/fake.py:170-189 | Deleting the planned namespaces in reverse order leaves no namespace and no pair |
| `Realization.TearDownAndLook` | src/nslab/lifecycle.py:472-496 | After that the inventory is absent: nothing is reported of any node |
| `Realization.RealizeAndRemove` | src/nslab/backend/fake.py:143-189 | Deploying and destroying a well-formed plan returns to where it began |
| `FakeBackend.Backend.CreateNamespace` | src/nslab/backend/fake.py:143-168 | Creates an empty namespace with a loopback, or refuses and changes nothing |
| `FakeBackend.Backend.CreateBridge` | src/nslab/backend/fake.py:191-218 | Creates the node's bridge, or refuses and changes nothing |
| `FakeBackend.Backend.CreateVeth` | src/nslab/backend/fake.py:220-236 | Creates both ends under one new id and pairs them, or refuses and changes nothing; pairs stay a symmetric pairing of existing veths, one pair an id |
| `FakeBackend.Backend.DeleteNamespace` | src/nslab/backend/fake.py:170-189 | Takes the far ends of the namespace's links along and, where these were, exactly the neighbours on them; the rest of other namespaces is unchanged, and the pairing stays sound |
| `FakeBackend.Backend.ConfigureNode` | src/nslab/backend/fake.py:261-633 | All or nothing: a node that can be configured ends up as the expectation has it, with the MTUs that this leaves open as created, and link ids are kept |
| `FakeBackend.Backend.Allocate` | src/nslab/backend/fake.py:122-125 | The next index of a namespace, from one upwards; every interface keeps a positive index that no other of its namespace has |
| `FakeBackend.Backend.IndexNew` | src/nslab/backend/fake.py:261-633 | Every device that a configuration adds gets an index of its own |
| `FakeBackend.Backend.TakeInventory` | src/nslab/backend/fake.py:652-685 | Reports planned namespaces as they are, with a positive index for every interface, and missing ones as empty under the name and kind of their node |
| `FakeBackend.PairedIsSymmetric` | src/nslab/backend/fake.py:231-236 | The table of peers is symmetric at all times |
| `Configured.ConfigureInterfaces` | src/nslab/backend/fake.py:271-633 | Configuring a node's raw interfaces gives a table that fits the separately computed expectation, name by name |
| `Matcher.ExpectedInterfaces` | src/nslab/backend/base.py:299-486 | The expectation, filled step by step, has for every planned name what the plan says and no other name |
| `Matcher.ExpectedOnce` | src/nslab/backend/base.py:299-486 | The plan determines the expectation |
| `Matcher.InterfacesMatch` | src/nslab/backend/base.py:489-608 | Accepts exactly tables with the expected names that fit one by one |
| `Matcher.NeighborsMatch` | src/nslab/backend/base.py:664-689 | Accepts exactly if both lists are as long, identities on the live side are unique, and every planned neighbour is found by its identity with the same address and proxy flag and a state that fits (any healthy one for a dynamic state) |
| `Matcher.NeighborsMatchThemselves` | src/nslab/backend/base.py:664-689 | A list of neighbours matches itself exactly if its identities are unique |
| `Matcher.LinksMatch` | src/nslab/backend/base.py:692-726 | Accepts exactly if the veths are paired by id as the plan has them, and no id is used for two links; a further veth with an id of its own passes here |
| `Matcher.InventoryMatchesPlan` | src/nslab/backend/base.py:770-816 | Accepts exactly inventories that agree with the plan in namespaces, interfaces, neighbours, sysctls and links (in the plan's own terms: Planned.MatchesMeans) |
| `Planned.MatchesMeans` | src/nslab/backend/base.py:299-816 | An inventory is accepted if and only if every namespace has exactly the planned interfaces (but for the one a routing daemon may add), each as the plan says, told without the helpers that backend, matcher and inspector share; and neighbours, sysctls and links agree |
| `Planned.MasterLaw` | src/nslab/planner.py:527-565 | The master that the planner gives is a bond or VRF if and only if that device lists the interface, the bridge if and only if the node has one, nobody lists the interface, and it is neither the bridge nor below a VXLAN, and else none |
| `Planned.MasterOnce` | src/nslab/planner.py:540-565 | These conditions leave one master |
| `Planned.DeviceMtuLaw` | src/nslab/planner.py:410-497 | The MTU that the planner gives a device is the one right value: its own, or 50 bytes (IPv4) or 70 (IPv6) less than the underlay link for a VXLAN, that of the parent link for a MACVLAN, 1500 for a dummy, and for a bond that of every link of its members |
| `Planned.LinkMtuLaw` | src/nslab/planner.py:424-457 | A name has a link MTU exactly if it is the end of a link, and then it is that of every link that ends there |
| `Planned.VlansLaw` | src/nslab/backend/base.py:256-266 | A port of a filtering bridge has its declared VLANs, or VLAN 1 if it declares none; nothing else has any |
| `Planned.QdiscsMean` | src/nslab/backend/base.py:619-645 | A qdisc is accepted exactly if it is the planned one, with a TBF within two bytes or a thousandth of its burst and one of its latency, and of simple ones the requested options |
| `Json.FreezeIsFrozen` | src/nslab/state.py:42-58 | Freezing succeeds exactly on JSON data with text keys and finite numbers, and gives the same data in read-only form |
| `Json.FreezeOnce` | src/nslab/state.py:42-58 | Freezing is idempotent |
| `Json.FreezeUndoesThaw` | src/nslab/state.py:68-73 | Thaw, then freeze, is the identity on frozen values |
| `Json.FrozenIsCanonical` | src/nslab/state.py:42-73 | Frozen values with the same data are equal, which is what the gates' comparisons rest on |
| `StateDocument.RoundTrip` | src/nslab/state.py:194-263 | Writing a snapshot and reading it back gives the same snapshot exactly if its scalars are acceptable, and is refused otherwise |
| `StateDocument.MissingStatus` | src/nslab/state.py:194-263 | A document without status reads like one that says deployed |
| `StateDocument.ReadIsStable` | src/nslab/state.py:207-263 | What can be read is written and read again unchanged |
| `Ownership.ExpectedOwnership` | src/nslab/snapshot.py:67-146 | The validation's expectation has one record for every planned interface and no other |
| `Ownership.InterfaceOwnership` | src/nslab/lifecycle.py:525-647 | The deploy's records, filled in another order, have one record for every planned interface with what was observed of it |
| `Ownership.KeysDiffer` | src/nslab/lifecycle.py:525-647 | No two planned interfaces share a key |
| `Ownership.DescribedAlike` | src/nslab/lifecycle.py:525-647 | The fields that deploy writes for an interface are, beside its index and for link ends the link id, exactly those that validation expects |
| `Validation.ValidateInterfaces` | src/nslab/snapshot.py:149-208 | The verdict: invalid, or valid with or without complete link ids, by conditions on the records alone |
| `Validation.BlankPasses` | src/nslab/lifecycle.py:504-523 | Records built before deployment are valid while deploying; as deployed they are refused unless there are no links |
| `Validation.LivePasses` | src/nslab/lifecycle.py:504-647 | Records built from an inventory whose links matched are valid with complete link ids; that indexes are positive, as it requires, holds of every inventory of the backend (DeployAndRecord) |
| `Recording.DeployAndRecord` | src/nslab/lifecycle.py:245-253 | End to end: on the fake backend without faults, the records of a freshly deployed well-formed plan pass the validation with complete link ids |
| `Recording.RecordBlank` | src/nslab/lifecycle.py:203-211 | End to end: the records made before a deployment pass the validation while deploying |
| `Validation.CompleteMeans` | src/nslab/snapshot.py:192-208 | Complete means: both ends of a link have one id, and different links different ids |
| `Inspection.InspectTopology` | src/nslab/inspector.py:1819-1899 | Absent is reported exactly for an absent inventory without a snapshot, stale exactly for one with a snapshot, deployed exactly for a matching inventory with a valid, complete, matching snapshot. The differences are exactly those that there are (none for absent, one that stands for an unexplained mismatch if there are none otherwise), and a deployed topology has none if and only if every TBF reads as planned. A node is missing exactly if its namespace is not observed or does not exist, and matching exactly if it is clean, all its links are there with the recorded ids, and no temporary of its own is left in the root |
| `Inspection.LiveDifferences` | src/nslab/inspector.py:1471-1680 | Reports exactly the live differences, each at its place, and nothing exactly if the live state is clean by the inspector's own comparison; touches exactly the nodes that are not clean, lose a link, or own a temporary in the root |
| `Inspection.StateDifferences` | src/nslab/inspector.py:1688-1781 | Reports exactly the differences to the recorded state, and nothing exactly if the recorded ids are those observed; touches exactly the nodes at the ends of links with other ids |
| `Inspection.RootDifferences` | src/nslab/inspector.py:1661-1680 | Every temporary name in the root is reported once for its owner, the node of the last link end with that name, or for none |
| `Inspection.ImpactedIffUnsound` | src/nslab/inspector.py:1849-1880 | The nodes that no difference touches are those with nothing wrong at them |
| `Inspection.LiveCleanUnlessRounded` | src/nslab/inspector.py:1471-1680 | For inventories that the matcher accepts, the inspector agrees exactly if every TBF reads as planned |
| `Inspection.RecordedLinkIdsMatch` | src/nslab/backend/base.py:729-767 | Accepts exactly if links match and every recorded id is the observed one |
| `Inspector.DesiredIsExpected` | src/nslab/inspector.py:712-932 | The inspector's own expectation and the matcher's agree name by name |
| `Inspector.CompareInterface` | src/nslab/inspector.py:1339-1456 | Reports exactly the properties at which the interface is not as desired, and nothing exactly if it is |
| `Inspector.FitsIsSame` | src/nslab/inspector.py:1339-1456 | For an interface that the matcher accepts, the inspector agrees exactly if its TBF reads as planned |
| `TrafficRates.RateRoundTrip` | src/nslab/tc.py:60-74 | Writing a byte rate and reading it gives it back, over its whole range |
| `TrafficRates.NormalizeIsCanonical` | src/nslab/tc.py:41-57 | Normalizing keeps the byte rate and changes nothing the second time |
| `TrafficRates.SameTextSameRate` | src/nslab/tc.py:41-66 | Two accepted texts have one normal form exactly if their byte rates are equal |
| `TrafficRates.SizeRoundTrip` | src/nslab/tc.py:77-102 | Writing a size and reading it gives it back, over its whole range |
| `TrafficRates.RateMeans` | src/nslab/tc.py:41-66 | Exactly which texts are rates, and of how many bytes: digits and bit with a prefix for a power of 1000, a whole number of bytes between 1 and 2^32 - 1 |
| `TrafficRates.SizeMeans` | src/nslab/tc.py:77-91 | Exactly which numbers and texts are sizes, and of how many bytes: digits and b, or a prefix for a power of 1024 with or without b, between 1 and 2^32 - 1 |
| `TrafficRates.RatePrinted` | src/nslab/tc.py:28-38 | A rate is written in the largest unit in which it is whole |
| `TrafficRates.SizePrinted` | src/nslab/tc.py:94-102 | So is a size |
| `TrafficRates.UnknownUnitIff` | src/nslab/tc.py:23-48 | A rate is neither converted nor refused exactly if it is 1 to 4300 digits and a unit in which an i is written dotless (U+0131) or as the dotted capital (U+0130) |
| `TrafficRates.SizesAreKnown` | src/nslab/tc.py:77-91 | No size has this flaw |
| `TrafficRates.DotlessUnit` | src/nslab/tc.py:41-48 | One such rate |
| `RoutingRecords.ReadRecords` | src/nslab/routing.py:597-646 | Reading a node's records ends in an exception exactly if the metadata does, and otherwise gives them in their order |
| `RoutingRecords.RecordsMean` | src/nslab/routing.py:597-646 | There is exactly one record for every known daemon with a number: that of the first fitting metadata entry, or else that of its pid file |
| `RoutingCleanup.ValidateArtifacts` | src/nslab/routing.py:464-494 | Accepts exactly if every existing directory of the deployment has its marker, or the runtime directory the narrow legacy form, and no link is among a node's files |
| `RoutingCleanup.ValidateRuntime` | src/nslab/routing.py:419-462 | Tells the marked from the legacy runtime directory and refuses any other |
| `RoutingCleanup.Runtime.Stop` | src/nslab/routing.py:1187-1197 | Gets past the records if and only if all directories pass and all records can be read and probed; if not, nothing is signalled or removed. If so, the groups that the numbers of the existing recorded processes name are signalled, last found first; these are exactly the recorded processes if and only if each of them may be signalled and its number names a group (or it is in the group of another number on record), and those groups have no other members. Every directory is gone unless a removal failed or a legacy node lost its last pid file, and every path that is gone lay below a directory with the deployment's own marker or the legacy look |
| `RoutingSignals.TerminateOne` | src/nslab/routing.py:1113-1133 | One number: skipped if it names no group, else group and process are reached as far as they may be signalled, by the first signal, its fallback, or the kill at the deadline |
| `RoutingSignals.ReachedMeans` | src/nslab/routing.py:1113-1133 | Who is signalled: the members of the groups named by numbers on record, and of these numbers the processes |
| `RoutingSignals.ExactlyIff` | src/nslab/routing.py:1113-1133 | Exactly the processes on record are signalled if and only if each may be signalled and is in a group of a number on record or its own number names one, and these groups have no unrecorded member |
| `RoutingSignals.SilentlySkipped` | src/nslab/routing.py:1116-1118 | An existing process whose number names no group gets no signal |
| `RoutingSignals.OneIsAll` | src/nslab/routing.py:1115-1117 | With number one on record every process that may be signalled is |
| `RoutingCleanup.StopPassingOver` | src/nslab/routing.py:1187-1197 | With one such process on record and no faults, a stop succeeds, removes all directories, and signals nobody |
| `RoutingCleanup.LeaveRunning` | src/nslab/routing.py:1187-1197 | A deployment at which this happens |
| `RoutingCleanup.Runtime.FindProcesses` | src/nslab/routing.py:1189-1195 | Finds the existing recorded processes, and fails exactly if some metadata makes the reader fail or some number exceeds the system's range |
| `RoutingCleanup.TargetsMean` | src/nslab/routing.py:1189-1195 | What is found: each existing process on record for a node of the plan |
| `RoutingCleanup.Runtime.Terminate` | src/nslab/routing.py:1113-1133 | Goes through the numbers last found first, passing over those that name no group; daemons that are reached may take files of the nodes along, but no marker and no directory |
| `RoutingCleanup.Runtime.Cleanup` | src/nslab/routing.py:1135-1185 | Refuses with nothing removed, or ends with all of the deployment's directories gone unless a removal failed |
| `RoutingCleanup.StillOk` | src/nslab/routing.py:1135-1144 | The second check passes again for marked directories; for a legacy runtime exactly if every node directory has a pid file left |
| `RoutingCleanup.LegacyMayBeRefused` | src/nslab/routing.py:1135-1138 | For every legacy node directory there is a loss of daemon files after which the second check refuses |
| `RoutingCleanup.OversizedPid` | src/nslab/routing.py:272-283 | A pid file with a number above the range, without metadata for its daemon, keeps a stop from getting past the records |
| `RoutingCleanup.LargePidStuck` | src/nslab/routing.py:272-283 | A deployment whose directories all pass and which yet cannot be stopped |
| `RoutingCleanup.RemovedWasOwn` | src/nslab/routing.py:419-494 | Every directory of the deployment that is there when the checks pass carries its own marker or the legacy look |
| `RoutingCleanup.ForeignIsRefused` | src/nslab/routing.py:464-494 | A state or config directory with another deployment's or node's marker at one's own path makes the check refuse |
| `RoutingPaths.PathIsOwnIff` | src/nslab/routing.py:197-198 | A pair of valid names shares its path with no other valid pair if and only if no other hyphen cuts the joined names into two valid names |
| `RoutingPaths.PathsCollide` | src/nslab/routing.py:197-198 | Two pairs of valid names with one path |
| `RoutingPaths.MarkerTells` | src/nslab/routing.py:302-315 | A node's marker names its deployment and its node |

## Left out

Of the lifecycle: one deployment name under its lock, whose waiting loop is not modelled; the fingerprint, taken as
the identity of the plan; manifest validation and plan compilation; error messages, diagnostics and their attachment;
what survives a loss of power. The inventory is truthful when it returns, and nobody else touches the plan's resources.

- Machine.Host.StopRouting: that a stop which returns has ended the daemons is an assumption; the clauses of the lifecycle about daemons rest on it, and the FRR runtime meets it only as far as its signals reach (`RoutingSignals.ExactlyIff`).

Of the display: the text of boxes (a box is its lines), the heading and the list of cross-links around the drawings, the
tree, JSON, Mermaid and DOT forms. Nodes are numbers.

Of the packet programs: statistics, map and FIB lookups (their results are parameters), program loading. The kernel
moves frames only as the ring interface allows.

- Umem.Rings.Serve: runs for a given number of rounds rather than until a stop flag, and stands for every such number; polling and the kick's errors only end it early.
- EchoReply.Checksum: the value is stated up to 128 KiB, beyond which the 32-bit sum may overflow; callers pass at most 65 535 bytes.

Of the backend, the matcher and the inspector: nine kinds of interface with a part of their fields, one kind of overlay
among them; netem; the tolerance of the red qdisc. Routes and policy rules, which both sides take from the same function.
A rate is a number of bits, and a link id a number, an empty one none. Differences carry no values.

- FakeBackend.Backend.IndexNew: the order in which a node's new devices get their indexes is left open, and a failed configuration uses none up.
- Inspection.InspectTopology: the order of the differences is left open.

Of snapshots: the JSON text itself, and re-validation of the stored manifest.

Of routing: starting daemons and waiting for them to end; the JSON reader is a parameter, any function from texts to
a document, a refusal or an escaping exception.

- RoutingCleanup.Runtime.Stop: the processes, their groups and who may be signalled are fixed during a call, apart from those that got a signal; the program is not on record itself; daemons that are reached may remove files of the plan's nodes and do not create any, and what processes outside the plan do when they are reached is left out.

Also left out are the command line, the pyroute2 backend, process spawning and the experiment scripts.
