# dNLab: verified models of the release command, the console relay, the device lifecycle, RealNet addressing and topology editing

The project models five parts of dNLab in Dafny 4.11 and proves what they are for. `dafny verify dfyconfig.toml`
checks everything.

**Release transaction** (`Ordering`, `Selection`, `Words`, `Fragments`, `Release`, `ReleaseSafety`, `ReleaseResume`,
`ReleaseAcceptance`, `ReleaseOutputs`, `ReleaseRivals`, `ReleaseCommand`).
The tree is four maps: pending fragments, version archives, transaction markers and generated outputs. A run selects its
fragments or refuses, and then performs a program of file operations: write the marker, copy, publish, unlink, drop
the marker. An interrupted run is the program cut after any number of operations, possibly inside a copy that leaves
arbitrary bytes. `ReleaseCommand.ReleaseTree` is the command itself, with its loops, proved to perform exactly that
program. A text and what it parses to are kept together, SHA-256 is injective, and case
folding and the rendering of the changelog are arbitrary functions.

**Console relay** (`Console`, `ConsoleSafety`, `ConsoleBroker`, `ConsoleRegistry`, `ConsoleSystem`, `ConsoleLocks`).
The protocol is a state machine whose steps are the sections run under a lock and the actions of sender threads; a
fan-out serves its clients one step at a time, so that senders and closing clients interleave with it. The stream of
upstream output and each client's delivered bytes are part of the state. The classes take legal paths of this protocol.
`ConsoleSystem` puts all brokers and their registry together.
`Close` is always possible, since a grace timer that has fired can still win after an attach has cancelled it: nothing
here says that a broker with clients is never closed.

**Device lifecycle** (`LifecycleState`, `Lifecycle`).
`Lifecycle.Controller` starts, stops, hot-adds and removes devices. Every remote call may fail and a cancel may arrive
at any moment; both are left to chance in the code, so the contracts hold for every behaviour of the hosts. Link records
have identities, because the rollback keeps a shallow copy of the link list. Unseen services have small contracts: the
port allocator returns a port outside those in use or raises, rebuilding links makes new records, and the cleanup calls
of a rollback and saving the state do not raise. The controller remembers whether any call has failed, so that an
operation past its guards can be held to succeed otherwise.

**RealNet addressing** (`Cidr`, `RealNet`, `RealNetSaves`, `RealNetRequests`, `RealNetRuns`).
IPv4 blocks are the addresses that share their high bits. A text is what the address library parses it to, together
with which spelling of it it is. Private AS numbers are those of section 5 of RFC 6996.

**Topology editing and draw.io** (`Drawio`, `DrawioMeaning`, `TopologyEdit`, `TopologyMeaning`,
`TopologyEditor`).
Export and import work on the tree of cells. Editing works on a topology with its sidecars; identifiers come from a
supply that never repeats, and what the normalization of a RealNet router answers is any function.

## What turned out false, and exactly when it holds

- A rerun of an interrupted release is not always accepted. A copy cut short leaves a file in the archive that every
  rerun refuses (`ReleaseAcceptance.TornCopyIsRefused`); and a process killed before it wrote the marker leaves its
  staging directory, which is not ignored by git, so that the clean-worktree gate refuses
  (`ReleaseAcceptance.LitterIsRefused`). `ReleaseResume.ResumeCompletes` gives the exact condition.
- Outside a git checkout a stopped release can lose its fragments to another one: a newer release takes what is pending,
  and from then on the first is refused (`ReleaseRivals.RivalTakesOver`, with `ReleaseRivals.RivalsExist` for 1.0.0 and
  1.1.0). In a git checkout this cannot happen once the first has changed the tree (`ReleaseRivals.ResumeAmongRivals`).
- A completed release does not always pass tag validation: an older manifest file that states the released version
  replaces the new manifest in the list that the changelog is compared with
  (`ReleaseAcceptance.ClaimedVersionFailsTag`). `ReleaseResume.CompletedReleaseIsTaggable` gives the exact condition, and
  manifest files that each state their own version suffice (`ReleaseResume.ValidatedIsTaggable`).
- Two terminals of one container can be open together. The cleanup of a closed console broker does not wait for its
  starting thread, so a replacement can open its terminal beside the late one (`ConsoleSystem.LateStartOverlaps`, reached
  by `ConsoleSystem.LeftBehindHappens`). It cannot happen if every cleanup ends with the start settled
  (`ConsoleSystem.OneOpenTerminal`), and never do two brokers of a container have an installed terminal
  (`ConsoleSystem.OneServingTerminal`).
- A failed hot-add does not always give back the link list. When it fails after the device entered the runtime table
  and before the new list replaced the old one, its rollback detaches the device's links in the old list, and those
  records are shared with the saved copy: a pending link loses its status and its explanation
  (`Lifecycle.PendingLinkIsLost`). `Lifecycle.LinksRestored` gives the exact condition, and links that were already
  down without an error always come back (`Lifecycle.AlreadyDownIsRestored`).
- An edit of a RealNet router is normalized twice before it is saved, and the second pass may refuse what the first
  accepted (`RealNetSaves.NarrowingIsRefused`); `RealNetSaves.SecondPass` gives the exact condition.
- LANs of different labs do not always stay apart: a draw.io import stores its router without normalizing it. A drawing
  of lab A imported into lab B gives both the same LAN, and then a plain save of either is refused
  (`RealNetRuns.ImportedTwice`, `RealNetRuns.MisfitBlocksBothLabs`). `RealNetRuns.LansApartExactly` and
  `RealNetRuns.ImportKeeps` give the exact condition.
- Automatic AS numbers are not always unique: a router with BGP switched off keeps its number but no longer counts, the
  number is given to another lab, and switching BGP on again is accepted (`RealNetRuns.SwitchedOffNumberIsReused`).
  `RealNetRuns.NumbersDistinctExactly` gives the exact condition.
- The check for a second RealNet router overlooks one without a name (`TopologyEdit.NamelessSlipsIn` says exactly when).
- Importing an exported drawing gives back the topology exactly when its names are sanitized, its kinds not empty, its
  links between existing nodes and its management addresses not in separate fields (`Drawio.RoundTrip`); unique names
  are not needed for that.

## Model

| member | source | states |
|---|---|---|
| `Words.CanonicalIdempotent` | scripts/changes.py:666 | canonicalising a summary twice is canonicalising it once, so a stored summary matches its own request |
| `Words.CanonicalLaws` | scripts/changes.py:666 | canonicalising keeps a word, drops blanks, and turns white space between two texts into one blank |
| `Words.NonBlankMeans` | scripts/changes.py:112-113 | a text counts as non-empty exactly if it has a character that is not white space |
| `Ordering.TextLeMeans` | scripts/changes.py:109 | names are sorted by their first differing character, a prefix first |
| `Fragments.VersionLeMeans` | scripts/changes.py:226-229 | versions compare like numbers with major, minor and patch as digits |
| `Fragments.LoadFragments` | scripts/changes.py:200-223 | no problem is reported exactly when every file parses, validates and has an id of its own, and then the loaded fragments are those of the files in order |
| `Fragments.CollectNotes` | scripts/changes.py:337-341 | the nested loop gathers the notes of the public fragments in order, without repeats |
| `Fragments.ManifestOrderIndependent` | scripts/changes.py:254-266 | with unique ids the manifest does not depend on the order of the fragments |
| `Fragments.ManifestListsEachPublicOnce` | scripts/changes.py:254-282 | every public fragment is listed exactly once, under the heading of its kind with its own values, and nothing else is |
| `Fragments.ManifestListsEachNoteOnce` | scripts/changes.py:324-353 | every upgrade note of a public fragment is listed exactly once and no other is |
| `Fragments.ManifestListsEachBreaking` | scripts/changes.py:332-336 | every public breaking change is listed with its title and description, and nothing else is |
| `Fragments.ManifestHead` | scripts/changes.py:285-353 | the manifest has the values asked for and exactly the fixed artifacts, those for LXC if asked for |
| `Fragments.ManifestIsWritten` | scripts/changes.py:254-353 | for any fragments: the entries are the public ones sorted by heading, folded title and id; the breaking list is the breaking ones among them in the same order; the notes are in the order in which they first occur |
| `Fragments.LoadedManifest` | scripts/changes.py:124-197 | entries from files that load are well formed, name their file, carry a device exactly under its heading, and no breaking change comes without an upgrade note |
| `ReleaseSafety.AcceptedIsInventoried` | scripts/changes.py:682-717 | an accepted run with fragments pending works on one inventory that lists exactly the pending and archived files with their contents |
| `ReleaseSafety.RunKeepsFragments` | scripts/changes.py:872-899 | one run on any tree, stopped anywhere and even inside a copy, keeps every fragment with its content in pending or archive, and deletes a pending file only once the archive is complete |
| `ReleaseSafety.NoFragmentLost` | scripts/changes.py:769-899 | any sequence of runs with any arguments and stops keeps every fragment |
| `ReleaseResume.RegeneratesSame` | scripts/changes.py:811-855 | with any of the outputs already in place, the same fragments generate the same files |
| `ReleaseResume.RerunAccepted` | scripts/changes.py:769-832 | from every state an interrupted release can leave, when a rerun is accepted and that it performs the program of the first run |
| `ReleaseResume.SoundRuns` | scripts/changes.py:862-899 | part of a run from such a state ends in such a state, all of it ends with the release complete |
| `ReleaseResume.ResumeCompletes` | scripts/changes.py:857-899 | after any number of stopped runs the next identical run is accepted exactly if no archived file is torn and no staging directory was left in a checkout not yet changed, and an accepted run ends in the tree of one uninterrupted run |
| `ReleaseResume.CleanInterruptionsResume` | scripts/changes.py:857-899 | with atomic copies and clean exits the rerun is always accepted and ends with the archive equal to the fragments, nothing pending, no marker and every output in place |
| `ReleaseResume.MarkerDetectsHalfDone` | scripts/changes.py:517-523 | the marker is absent exactly if nothing was changed or the release is complete |
| `ReleaseResume.CompletedReleaseIsTaggable` | scripts/changes.py:606-648 | for any rendering, tag validation accepts a completed release exactly if the manifest that an older file states for its version, if any, would not change the changelog |
| `ReleaseResume.UnclaimedIsTaggable` | scripts/changes.py:606-648 | it accepts if no older file states the version with other contents, and only then if different lists render differently |
| `ReleaseResume.ValidatedIsTaggable` | scripts/changes.py:457-542 | it accepts if every stored manifest states the version of its own file |
| `ReleaseAcceptance.ManifestIsValid` | scripts/changes.py:457-514 | fragments that load give a valid manifest exactly if the summary is not blank |
| `ReleaseAcceptance.FirstRunAccepted` | scripts/changes.py:797-832 | a first run is accepted exactly if no file claims the version, in git everything is as committed with nothing beside it, the version is higher and the date not earlier than those stored, every fragment loads, and the summary is not blank |
| `ReleaseAcceptance.SomeRunIsFresh` | scripts/changes.py:797-832 | there is a tree on which a first run is accepted, in a git checkout and outside one |
| `ReleaseAcceptance.LitterIsRefused` | scripts/changes.py:559-569 | in every git checkout, a first run killed before its first operation that leaves its staging directory cannot be repeated |
| `ReleaseAcceptance.TornCopyIsRefused` | scripts/changes.py:704-716 | every first run whose first copy is cut short, leaving something other than a pending fragment, cannot be repeated |
| `ReleaseAcceptance.ClaimedVersionFailsTag` | scripts/changes.py:645-648 | with a manifest file for 0.9.0 that states 1.0.0 the release of 1.0.0 completes and then, for every rendering, passes tag validation exactly if the stated manifest and the different one released render the same |
| `ReleaseOutputs.LoadedList` | scripts/changes.py:445-454 | loading fails exactly if a manifest cannot be read, and gives one manifest for each version stated, the newest first, that of the lowest file if several state it |
| `ReleaseOutputs.ReleaseWrites` | scripts/changes.py:834-899 | a completed release has archived exactly its fragments, written manifest, changelog, snapshot, notes and JSON manifest from them with the ids in file order, and changed no other file |
| `ReleaseOutputs.TagMeans` | scripts/changes.py:606-648 | a tag is accepted only if nothing is pending, no release is under way, the archive loads, the manifest tells exactly what it says, and the changelog is rendered from all stored manifests |
| `ReleaseRivals.AlikePlans` | scripts/changes.py:769-832 | requests that differ only in the spacing of the summary are the same run |
| `ReleaseRivals.RivalsRefused` | scripts/changes.py:559-569 | in a git checkout, once a release has changed the tree, a run for its version with other values or for a version without a trace is refused |
| `ReleaseRivals.RivalsDoNotMatter` | scripts/changes.py:769-899 | there, such runs between the runs of the release leave everything as if they had not been made |
| `ReleaseRivals.ResumeAmongRivals` | scripts/changes.py:857-899 | there, after any number of stopped runs of the release and of such others, its next run is accepted exactly if no archived file is torn, and ends in the tree of one uninterrupted run |
| `ReleaseRivals.RivalTakesOver` | scripts/changes.py:682-717 | outside git, a newer release takes the fragments of one stopped after its marker, and the first is refused however often it is run |
| `ReleaseRivals.RivalsExist` | scripts/changes.py:797-832 | there is such a pair of releases: 1.0.0 and 1.1.0 with one fragment pending |
| `ReleaseCommand.ResumeReleasePaths` | scripts/changes.py:682-717 | the checks and the loop return the selection, or the refusal of the first offending fragment in name order |
| `ReleaseCommand.ReleaseTree.CopyFragments` | scripts/changes.py:875-893 | after an accepted selection neither refusal inside the copy loop can happen, and the loop performs exactly the missing copies up to the point where it is stopped |
| `ReleaseCommand.ReleaseTree.CommandRelease` | scripts/changes.py:769-899 | the command refuses exactly when the plan does and then changes nothing, and otherwise performs exactly the first operations of the plan |
| `Console.ActKeeps` | src/multinode/runtime-relay/relay.py:66-91 | a client's own actions move bytes from queue to socket in order, a send by exactly its count, and lose or repeat none |
| `Console.EnqueueKeeps` | src/multinode/runtime-relay/relay.py:54-64 | queueing appends the data exactly if the client is open and all uncounted bytes with it fit 256 KiB, and otherwise changes nothing |
| `ConsoleSafety.StepKeeps` | src/multinode/runtime-relay/relay.py:143-285 | every step keeps the invariant of the broker |
| `ConsoleSafety.ClientsSeeTheStream` | src/multinode/runtime-relay/relay.py:173-267 | in every interleaving the bytes queued to a client are one contiguous piece of the output from at most 64 KiB before its attach, what it received is a prefix, subscribed clients miss nothing, and a sender that stopped without an error delivered everything |
| `ConsoleSafety.SubscribersExactly` | src/multinode/runtime-relay/relay.py:173-285 | in every interleaving, who joins and leaves the subscribers at each step; a fan-out asks everyone subscribed and drops exactly those without room for the data |
| `ConsoleSafety.BuffersAreExact` | src/multinode/runtime-relay/relay.py:181-187 | the history is the last 64 KiB of the output, each counter is exactly the uncounted bytes and at most 256 KiB, and a replay is never refused |
| `ConsoleSafety.ClosedIsFinal` | src/multinode/runtime-relay/relay.py:215-284 | while open, clients exclude the grace timer and having lost the last implies it; once closed always closed, with no client, timer, process or descriptor, and the terminal is closed once nothing is in flight |
| `ConsoleSafety.ClosedIsInert` | src/multinode/runtime-relay/relay.py:248-252 | a closed broker takes no output and hands out none |
| `ConsoleBroker.Subscriber.Enqueue` | src/multinode/runtime-relay/relay.py:54-64 | data is taken exactly if the client is open and it fits 256 KiB with what is queued, and is then the last in the queue |
| `ConsoleBroker.Subscriber.Close` | src/multinode/runtime-relay/relay.py:66-71 | the client afterwards is the closed one of the protocol |
| `ConsoleBroker.Subscriber.SendTurn` | src/multinode/runtime-relay/relay.py:77-91 | a turn of the send loop is the actions take, send, and count or fail |
| `ConsoleBroker.ConsoleBroker.Attach` | src/multinode/runtime-relay/relay.py:173-187 | attaching is the protocol's step, and is refused exactly on a closed broker or an unfit replay |
| `ConsoleBroker.ConsoleBroker.Detach` | src/multinode/runtime-relay/relay.py:215-223 | detaching is hanging up and then the locked step |
| `ConsoleBroker.ConsoleBroker.FanOut` | src/multinode/runtime-relay/relay.py:248-267 | a fan-out is a legal path that serves every subscriber; one with room for the data stays subscribed and is handed it, one without ends dropped and closed, and other clients are untouched |
| `ConsoleBroker.ConsoleBroker.Close` | src/multinode/runtime-relay/relay.py:269-311 | closing is a legal path after which every former subscriber is closed and the terminal released |
| `ConsoleBroker.ConsoleBroker.Install` | src/multinode/runtime-relay/relay.py:159-170 | a started upstream is installed and held, or released if the broker was closed meanwhile |
| `ConsoleRegistry.OneUnfinishedBroker` | src/multinode/runtime-relay/relay.py:269-342 | in every reachable state at most one broker of a container has unfinished cleanup |
| `ConsoleRegistry.ReplacementWaits` | src/multinode/runtime-relay/relay.py:323-336 | a broker is made only when the cleanup of all earlier ones of its container has ended |
| `ConsoleRegistry.RemovalIsExact` | src/multinode/runtime-relay/relay.py:339-342 | a removal finds its own entry and takes away no other, and a signalled broker is no longer found |
| `ConsoleSystem.StepKeeps` | src/multinode/runtime-relay/relay.py:269-342 | every step of a broker or of the registry keeps the invariants of both and their agreement |
| `ConsoleSystem.OneServingTerminal` | src/multinode/runtime-relay/relay.py:118-170 | in every reachable state at most one broker of a container has an installed terminal, and if two have terminals open one is that of a start in flight in a broker whose cleanup is over |
| `ConsoleSystem.OneOpenTerminal` | src/multinode/runtime-relay/relay.py:118-311 | if every cleanup ends with the start settled, no two terminals of a container are ever open together |
| `ConsoleSystem.LateStartOverlaps` | src/multinode/runtime-relay/relay.py:118-170 | once a broker has removed itself with its start still going, the next broker of its container can have its terminal open together with it |
| `ConsoleSystem.LeftBehindHappens` | src/multinode/runtime-relay/relay.py:143-170 | a broker closed between the opening and the installation of its terminal ends in that situation |
| `ConsoleRegistry.BrokerRegistry.Get` | src/multinode/runtime-relay/relay.py:323-332 | one turn gives an open broker of the container or says to wait for a closing one |
| `ConsoleRegistry.BrokerRegistry.Remove` | src/multinode/runtime-relay/relay.py:339-342 | the dictionary afterwards is that of the registry's step |
| `ConsoleLocks.ScriptsAreOrdered` | src/multinode/runtime-relay/relay.py:54-342 | every operation takes registry, input, broker and subscriber locks in that order and ends holding none |
| `ConsoleLocks.ScriptsDo` | src/multinode/runtime-relay/relay.py:54-342 | which locks each operation takes, in what order, and which it holds meanwhile |
| `ConsoleLocks.NoCircularWait` | src/multinode/runtime-relay/relay.py:54-342 | in every reachable state, of any threads all waiting for locks one waits for a thread outside them |
| `ConsoleLocks.SomeThreadAdvances` | src/multinode/runtime-relay/relay.py:54-342 | as long as lock operations are left, some thread can perform its next one |
| `LifecycleState.AddKeepsAgree` | src/multinode/dnlab_multinode/controllers/node.py:562-586 | a device added with its plan, schedule and anchor leaves all indexes in agreement |
| `LifecycleState.DropKeepsAgree` | src/multinode/dnlab_multinode/controllers/node.py:436-455 | a device taken out with its schedule entry and, if it was the last there, the anchor leaves all indexes in agreement |
| `LifecycleState.RescheduledAt` | src/multinode/dnlab_multinode/controllers/node.py:734-750 | the schedule of a host of the plan has its address, exactly the plan's devices and its totals, and other hosts' entries stay |
| `LifecycleState.FreshPortsDistinct` | src/multinode/dnlab_multinode/controllers/node.py:703-732 | ports outside those in use keep all host ports pairwise distinct |
| `LifecycleState.DetachedSame` | src/multinode/dnlab_multinode/services/runtime_links.py:213-239 | detaching a device's links changes nothing exactly if they were all down without an error |
| `Lifecycle.UndoneIsBefore` | src/multinode/dnlab_multinode/controllers/node.py:362-378 | the hand-written undo steps give back the state before the hot-add |
| `Lifecycle.LinksRestored` | src/multinode/dnlab_multinode/controllers/node.py:362-367 | after a rollback the old links are as before exactly if the device had not entered the table, or the list had been replaced, or its old links were already down without an error |
| `Lifecycle.AlreadyDownIsRestored` | src/multinode/dnlab_multinode/controllers/node.py:362-367 | whichever step fails, old links that were already down without an error come back |
| `Lifecycle.PendingLinkIsLost` | src/multinode/dnlab_multinode/services/runtime_links.py:146-175 | in the rollback between the two points a link waiting for the device loses its status and explanation |
| `Lifecycle.Controller.AllocateWebUi` | src/multinode/dnlab_multinode/controllers/node.py:699-732 | every container port wished for gets a host port, all host ports stay distinct, and other devices' entries stay |
| `Lifecycle.Controller.UpdateScheduling` | src/multinode/dnlab_multinode/controllers/node.py:734-750 | the loop computes the rescheduled table and changes nothing else |
| `Lifecycle.Controller.EnsureAnchor` | src/multinode/dnlab_multinode/controllers/node.py:397-418 | a new anchor is recorded exactly if there was none and the calls succeed |
| `Lifecycle.Controller.CancelStarted` | src/multinode/dnlab_multinode/controllers/node.py:855-885 | whatever fails, the device ends stopped without error text, its links all partial without error text, and only it changed |
| `Lifecycle.Controller.Stop` | src/multinode/dnlab_multinode/controllers/node.py:106-151 | past the guards it returns exactly with the device stopped, device and links without error text and the links partial unless it was stopped already, and raises exactly with it in error, and only if a call failed; a guard leaves everything alone; link records that do not name the device and all other devices are unchanged, and the indexes agree |
| `Lifecycle.Controller.Start` | src/multinode/dnlab_multinode/controllers/node.py:153-208 | a cancel seen at a checkpoint or by a failing call, and always one requested before, ends with the state unchanged or the device cleanly stopped; otherwise it runs or is in error; without a cancel and a failed call it returns past the guards; the indexes agree |
| `Lifecycle.Controller.Rollback` | src/multinode/dnlab_multinode/controllers/node.py:355-391 | working and saved state are those before the hot-add, and exactly the listed links of the device are detached |
| `Lifecycle.Controller.Add` | src/multinode/dnlab_multinode/controllers/node.py:210-391 | success places a running device with the ports it wishes for, at the end of the table, in its host's schedule and with an anchor, and leaves other devices and hosts as they were; past the guards it succeeds unless a cancel came or a call failed; failure gives back the whole state, and the link records under the exact condition; a seen cancel leaves the state unchanged or the device cleanly stopped; the indexes agree |
| `Lifecycle.Controller.Remove` | src/multinode/dnlab_multinode/controllers/node.py:425-461 | past the guards it returns unless a call failed; the device is then gone from table, ports and schedule, the links left are exactly the others in their order, and every other device, host, reservation and link record is as before; the indexes agree |
| `Lifecycle.Controller.ServeAll` | src/multinode/dnlab_multinode/controllers/node.py:106-461 | over any sequence of requests, failures and cancels the indexes of the working and the saved state agree and no device is left in a transient phase |
| `Cidr.OverlapsMeansShared` | src/gui/app/services/realnet_bgp.py:382 | the library's test on the ends of two blocks holds exactly if they share an address |
| `Cidr.NestedOrDisjoint` | src/gui/app/services/realnet_bgp.py:571-578 | of two blocks the longer prefix lies inside the other or shares nothing with it |
| `Cidr.SubnetsPartition` | src/gui/app/services/realnet_bgp.py:600 | the /24 blocks of a pool share nothing and are together exactly the pool |
| `RealNet.UsedNetworks` | src/gui/app/services/realnet_bgp.py:505-528 | the loop collects the networks of all files that load, except the lab's own when one of its texts is as requested |
| `RealNet.ParsePair` | src/gui/app/services/realnet_bgp.py:550-568 | an accepted gateway is an address of the network other than its first and last |
| `RealNet.FirstFreeLan` | src/gui/app/services/realnet_bgp.py:593-605 | the loop returns the first block that overlaps nothing in use |
| `RealNet.SearchIsExact` | src/gui/app/services/realnet_bgp.py:593-605 | for any shuffle the result is a /24 of the pool that shares no address with a network in use, and there is none exactly if every /24 shares one |
| `RealNet.ParseAsPool` | src/gui/app/services/realnet_bgp.py:608-620 | every number of an accepted pool is a private AS number; `RealNetRequests.AllocatesBoth` says which pools are accepted |
| `RealNet.FirstFreeAs` | src/gui/app/services/realnet_bgp.py:643-648 | the least unused number of the pool, always private, or a refusal exactly if the pool is malformed or full |
| `RealNet.FirstFreeIp` | src/gui/app/services/realnet_bgp.py:623-655 | the least unused address of the pool, of either version, or a refusal exactly if the pool is malformed or full |
| `RealNetSaves.FirstHost` | src/gui/app/services/realnet_bgp.py:389 | the address after the network address of a block of at least four can be its gateway |
| `RealNetSaves.NormalizedIsApart` | src/gui/app/services/realnet_bgp.py:346-392 | an accepted request gives a normalized router whose LAN shares no address with another lab's |
| `RealNetRequests.RequestIsKept` | src/gui/app/services/realnet_bgp.py:346-392 | a request with a text is accepted exactly if it asks for a network and a gateway that fit and no network in use shares an address with it, and then exactly these are stored |
| `RealNetRequests.BlankGetsBlock` | src/gui/app/services/realnet_bgp.py:384-389 | a request without texts gets the first free block of the shuffle and its second address, or is refused exactly if none is free |
| `RealNetRequests.PoolIsNeeded` | src/gui/app/services/realnet_bgp.py:581-590 | a pool is accepted exactly if it is an IPv4 network with room for a /24, and without one every request is refused |
| `RealNetSaves.NormalizingAgain` | src/gui/app/services/realnet_bgp.py:346-392 | normalizing a router as it is stored changes nothing |
| `RealNetSaves.SecondPass` | src/gui/app/controllers/topology_controller.py:164-213 | the second normalization of an edit gives the same router, or refuses exactly if the lab's stored router overlaps the new network and shares neither of its texts |
| `RealNetSaves.NarrowingIsRefused` | src/gui/app/controllers/topology_controller.py:164-213 | narrowing 10.0.0.0/24 to 10.0.0.0/25 is accepted by the first normalization and refused by the second |
| `RealNetSaves.UsedAllocations` | src/gui/app/services/realnet_bgp.py:473-502 | the loop collects the numbers and addresses of every stored BGP router other than the requesting one |
| `RealNetSaves.AutomaticNumbersAreNew` | src/gui/app/services/realnet_bgp.py:296-314 | numbers asked for are kept, an automatic AS number is private, an automatic router address is of the pool, each differs from that of every BGP router stored by another lab, and a second pass keeps both |
| `RealNetRequests.AllocatesBoth` | src/gui/app/services/realnet_bgp.py:296-314 | a BGP router gets the number and address asked for, or the least of the pools that no BGP router in use has, and is refused exactly if one cannot be had |
| `RealNetRuns.SaveGives` | src/gui/app/controllers/topology_controller.py:216-229 | a save changes only LAN texts and numbers of the request, and leaves a BGP router with a private AS number and, if there is a pool, an address |
| `RealNetRuns.ImportKeeps` | src/gui/app/controllers/topology_controller.py:491-498 | an import keeps routers normalized and LANs apart exactly if its router is normalized and overlaps no other lab's |
| `RealNetRuns.EventKeeps` | src/gui/app/controllers/topology_controller.py:216-235 | a save, refused or not, keeps every stored router normalized and all LANs apart, and an import exactly if it fits |
| `RealNetRuns.LansApartExactly` | src/gui/app/controllers/topology_controller.py:216-498 | over every sequence of saves and imports, routers are normalized and LANs apart at every moment exactly if every import fitted the labs of its moment |
| `RealNetRuns.LansStayApart` | src/gui/app/controllers/topology_controller.py:216-235 | over every sequence of saves and of imports that fit, the LANs of all labs that load share no address, every gateway is inside its LAN and neither of its ends, and saving again changes nothing |
| `RealNetRuns.MisfitBlocksBothLabs` | src/gui/app/services/realnet_bgp.py:346-392 | after an import that shares addresses with another lab, a plain save of either lab is refused |
| `RealNetRuns.ImportedTwice` | src/gui/app/controllers/topology_controller.py:491-498 | 10.0.0.0/24 saved in one lab and imported into another: the LANs are the same and the next save of either lab is refused |
| `RealNetRuns.EventDistinct` | src/gui/app/services/realnet_bgp.py:296-314 | AS numbers and router addresses of all BGP routers stay distinct exactly if the one entered by hand or drawn is no other lab's |
| `RealNetRuns.NumbersDistinctExactly` | src/gui/app/services/realnet_bgp.py:296-314 | over every sequence they are distinct at every moment exactly if no number entered or drawn was another lab's when it was stored |
| `RealNetRuns.AutomaticNumbersStayDistinct` | src/gui/app/services/realnet_bgp.py:296-314 | over every sequence in which each save leaves the number blank or sends back that of its stored BGP router, no two labs' numbers are the same |
| `RealNetRuns.SwitchedOffNumberIsReused` | src/gui/app/services/realnet_bgp.py:473-502 | a number sent back for a router whose BGP was off meanwhile can be another lab's by then |
| `Drawio.SanitizeKeepsSane` | src/gui/app/services/drawio_service.py:216-220 | sanitizing gives a sane name and keeps exactly the sane ones |
| `DrawioMeaning.SanitizeMeans` | src/gui/app/services/drawio_service.py:216-220 | the name is the stripped text with an underscore for every other character, or "node" if nothing is left |
| `DrawioMeaning.ExportMeans` | src/gui/app/services/drawio_service.py:124-209 | what is in each cell of the export: nodes by number with all they carry, edges for the links whose ends exist with label and ends |
| `DrawioMeaning.ImportMeans` | src/gui/app/services/drawio_service.py:48-118 | the import of any cells: the last cell of each id in order of first occurrence, a node for every vertex in a layer, a link for every edge between such vertices, and the management block |
| `Drawio.ToXml` | src/gui/app/services/drawio_service.py:124-209 | the loops produce the cells of the export |
| `Drawio.FromXml` | src/gui/app/services/drawio_service.py:48-118 | the loops produce the imported topology, for any cells |
| `Drawio.ExportThenImport` | src/gui/app/services/drawio_service.py:48-209 | what an export followed by an import makes of any topology |
| `Drawio.RoundTrip` | src/gui/app/services/drawio_service.py:48-209 | it is the identity exactly on clean topologies |
| `TopologyEdit.EnsureNodeIds` | src/gui/app/services/containerlab_service.py:374-382 | every device keeps its identifier or gets one never used, and nothing else has one |
| `TopologyEdit.EnsuredExtends` | src/gui/app/services/containerlab_service.py:374-382 | known identifiers stay, new ones are unused, and all stay distinct |
| `TopologyEdit.StoredIsSaved` | src/gui/app/services/containerlab_service.py:172-179 | after a save exactly the devices have identifiers, all different, and those known are unchanged |
| `TopologyMeaning.SaveKeeps` | src/gui/app/services/containerlab_service.py:94-210 | a save keeps nodes, links with `eth1` for an open interface, and in each sidecar exactly the entries of nodes that are not empty |
| `TopologyMeaning.ApplyMeans` | src/gui/app/controllers/topology_controller.py:66-214 | the nodes and links after each operation, one by one: the node edited has the request's kind, data and name, routers are normalized, a removal keeps the others in order |
| `TopologyMeaning.AddRefused` | src/gui/app/controllers/topology_controller.py:66-97 | when adding is refused, in terms of names and data |
| `TopologyMeaning.EditRefused` | src/gui/app/controllers/topology_controller.py:112-213 | when an edit is refused, in terms of names and data |
| `TopologyMeaning.FollowMeans` | src/gui/app/controllers/topology_controller.py:112-329 | which operations take a node or device away or change its name |
| `TopologyMeaning.EntriesFollowNodes` | src/gui/app/controllers/topology_controller.py:66-329 | over any sequence of operations a node that survives, under whatever name, keeps its entries in the three sidecars |
| `TopologyEdit.RenameIsSubstitution` | src/gui/app/controllers/topology_controller.py:181-197 | renaming to an unused name changes that name wherever it occurs and nothing else |
| `TopologyEdit.UnusedIsNoNode` | src/gui/app/controllers/topology_controller.py:181-183 | in a stored topology without dangling links a name is unused exactly if no node has it, which is what the code checks |
| `TopologyEdit.RenameBack` | src/gui/app/controllers/topology_controller.py:181-197 | renaming to an unused name and back gives the topology it began with |
| `TopologyEdit.ApplyKeeps` | src/gui/app/controllers/topology_controller.py:66-214 | one operation keeps a stored topology in order and every surviving device its identifier |
| `TopologyEdit.IdsFollowDevices` | src/gui/app/controllers/topology_controller.py:66-329 | over any sequence of operations a device that survives, under whatever name, keeps the identifier first saved for it, and no two share one |
| `TopologyEdit.EditsStayWhole` | src/gui/app/controllers/topology_controller.py:66-329 | over any sequence of operations in which routers are added with a name, links stay between nodes, sidecars belong to nodes, no second RealNet router appears, and a name that no node has occurs nowhere |
| `TopologyEdit.NamelessSlipsIn` | src/gui/app/services/realnet_bgp.py:440-445 | an accepted addition of a router leaves two exactly if the new one has an empty name and there was one |
| `TopologyEditor.Editor.AddNode` | src/gui/app/controllers/topology_controller.py:66-110 | adding is refused exactly for a name in use, a second named RealNet router or one that does not normalize, and the file afterwards is that of the editing model |
| `TopologyEditor.Editor.EnsureSingle` | src/gui/app/services/realnet_bgp.py:440-445 | the check holds exactly if all routers have one name |
| `TopologyEditor.Editor.Prepare` | src/gui/app/controllers/topology_controller.py:231-235 | refused exactly for two routers or one that does not normalize, and otherwise every router is normalized |
| `TopologyEditor.Editor.RenameEnds` | src/gui/app/controllers/topology_controller.py:193-197 | the loop substitutes the name at both ends of every link |
| `TopologyEditor.Editor.UpdateNode` | src/gui/app/controllers/topology_controller.py:112-214 | an edit is refused exactly for an unknown node, a new name in use, two RealNet routers or one that does not normalize, and the file afterwards is that of the editing model |
| `TopologyEditor.Editor.RemoveNode` | src/gui/app/models/topology.py:44-53 | the node, its links and its sidecar entries are gone and the rest is stored |

## Left out

- Rendering of changelog, release notes and YAML, JSON and XML text: generated files are the values they are rendered from, and texts are taken to round-trip.
- `git` coverage checks, argument parsing and `command_new`: they do not touch the transaction's files.
- A tree changed by other means between two runs of a release: only runs of the command change it.
- ReleaseResume.ResumeCompletes: the runs in between have the same arguments; `ReleaseRivals.ResumeAmongRivals` allows others, except for versions that already had an archive, which regenerate their own files.
- Console input, readiness polling and the telnet cleanup commands: foreign effects; input appears only in the lock order.
- The console broker holds its clients as values rather than as references to subscriber objects, so aliasing between the two classes is not captured; each client is changed by one step at a time.
- Grace timers as threads: closing is possible at any time, which covers a timer that fires late.
- `reconcile`, `reconcile_link`, `restart` and the deploy and destroy controllers: they repeat the steps modelled here or only call services outside this model.
- Which host a device is placed on, how its needs are computed, DNS, jumphost and relay bookkeeping, and the derived VXLAN list: not part of the indexes that must agree; a removal leaves the totals of its host as they are, as in the source.
- Lifecycle.Controller.Rollback: takes detaching links, the cleanup commands and saving not to raise, as the rollback has no handler for them.
- A process killed inside a lifecycle operation: the saved state may then hold an anchor without a device or a transient phase.
- Lifecycle.Controller.Start: does not say that a cancelled request never ends running, because a cancel after the last checkpoint does.
- RealNetSaves.AutomaticNumbersAreNew: says nothing about AS numbers and addresses entered by hand, which the source does not compare with others; `RealNetRuns.EventDistinct` says what follows.
- RealNetRuns.LansStayApart: covers the labs that load; a file that becomes readable again is not compared with the others until it is saved.
- RealNetRuns.Import: a drawing has at most one RealNet router; the source stores a second one too and refuses the lab's next save.
- BGP passwords and router addresses that do not parse: passwords are random texts that nothing else depends on, and such an address only raises.
- RealNetSaves.Chosen: the reason given for refusing a malformed gateway without a network is one of several in the source.
- Waypoints and icons of drawings, and guessing interfaces from labels of foreign drawings: arbitrary functions here.
- TopologyEdit.EditsStayWhole: adding links and importing drawings are not among the operations, and the source checks neither for missing ends or a second router.
- GUI-kind restoration on load, migrations, node overrides' and features' defaults and own cleaning, and web UI port lists: a load is taken to give back what was saved, with open interfaces written as `eth1`.
- TopologyEdit.IdsFollowDevices: a device edited into a RealNet router and back counts as a new device, as in the source.
