# Models and proofs of the Hedronetes control plane

This project models the parts of the system whose correctness is hardest to see by reading one
function, and proves what they promise. `dafny verify dfyconfig.toml` checks all of it.

## What is modelled

- **The registry** (`RegistryLog`, `Registry`, `RegistryWatch`, `ListTokens`, `SelectorWatch`). The
  store is a class with the head revision, the compaction floor and the version rows; a ghost log of
  every version ever written says what they stand for. Each SQLite transaction is one atomic step.
  Other clients' writes and compactions are arbitrary sequences of actions between the steps of a
  LIST or a watch. A watch is shown to deliver exactly the snapshot and every later version; paged
  LISTs and selector watches are shown exact on top of it.
- **Projected volumes** (`ProjectedFiles`, `ProjectedSources`, `Projection`). A directory of links,
  directories and files, a budget of system calls after which the process is gone, and `project` as
  the methods that spend it. Every bound of the budget is a crash point, also inside a file write or
  a recursive removal.
- **RBAC and escalation** (`Rbac`, `Escalation`). The evaluator as predicates, the escalation check
  as methods, and a theorem about whole runs of role and binding writes.
- **Object merging** (`JsonPaths`, `OwnedFields`, `FieldTrees`, `FieldOwners`, `PathOrder`,
  `ForcedOwners`, `ServerSideApply`, `ApplyExamples`; `StableLists`, `StrategicOrder`, `StrategicMerge`, `StrategicPatch`). Server-Side
  Apply over a JSON datatype: declared paths, set, remove and prune, recorded owners, conflicts and
  force. Strategic merge: maps, keyed and scalar lists, ordering, and the shared work budget.
- **The Service proxy** (`OrderedSets`, `ProxyNetworks`, `ProxyBackends`, `ProxyPlan`,
  `ProxyRules`). The plan's nested loops against a declarative plan, and the rendered chains as a
  rule table with an evaluator for packets.
- **Allocators** (`Ipv4`, `NodeCidrs`, `NodeCidrLedger`, `ServiceStrategy`, `ServiceAllocation`,
  `NodePortLists`, `ServiceRegistry`, `Quantity`, `Placement`, `Scheduler`). The node CIDR ledger across stops and
  restarts, Service addresses and node ports under the admission lock, exact quantities, and a
  scheduling cycle.

`Wrappers`, `KeyOrder`, `Names` and `Arithmetic` are shared.

Unordered iteration in the models (`:|` over a set) stands for the source's ordered sets where the
result does not depend on the order; the theorems then hold for every order. Where it does, in the
conflicts of an apply, the paths are visited in the source's order, segment by segment.

## Where the code does not do what one would expect

Each of these is a lemma, with the exact condition where one exists.

- An ExternalName Service's ports are never validated, so it can be stored with a node port that a
  NodePort Service forwards (`crates/h3s-apiserver/src/strategy.rs:525-532`,
  `crates/h3s-apiserver/src/services.rs:134-141`). A write keeps all stated node ports unshared if
  and only if it is no ExternalName or its stated ports are free: `SharedOnlyByExternalName`,
  `ExternalNameSharesAPort`. Ports that are forwarded are never shared.
- The order of ports matters in an update. A stated or kept number is refused exactly when another
  Service holds it, an earlier port wants it, or it is an earlier new port's turn to get it: as many
  lower numbers are open there as there are new ports before that one (`PortTakenIff`). So which lists
  are numbered is told port by port: `NumberedIff`. For one new port before a kept one, the update is
  refused exactly when the kept number is the lowest free one: `NewPortFirst`. Kept ports first, it
  fails only when the range is exhausted: `KeptFirstSucceeds`. `OrderOfPortsMatters` runs both orders
  against one stored Service.
- The escalation check asks for more than the rules allow in two families: a rule that leaves its API
  groups out (`MissingGroupsAreOverchecked`), and a resource whose first slash is its last character
  and whose rule lists neither the bare resource nor `*` (`TrailingSlashIsOverchecked`);
  `LiteralIsAllowedIff` says there are no others within one rule. For a whole rule set the check is
  exact if and only if the rules allow every literal they are expanded to: `CheckIsExactIff`.
- Declared paths are prefix-free if and only if what an object puts at one path agrees, which two
  list items of one name may not: `DeclaredPrefixFreeIff`, `RepeatedNamesOverlap`. Only then can they
  be recorded without loss: `RecordedExactly`.
- A dropped path can keep a value when a list above it is now declared as a whole: `DroppedIsLost`
  gives both cases.
- A stored field that an apply neither declares nor drops is kept if and only if no list item on its
  way loses its `name` and, where it is such a name itself, its item keeps another field:
  `UnrelatedIsKeptIff`. When a manager stops declaring an item it shares, the other's fields of that
  item are still recorded but no longer found by that name: `ReleasedNameHidesItem`.
- Force takes more than what was forced, and not from everybody. Another manager's apply entry is cut
  down if some changed path lies in it and in nothing that is left of the entries before it; then it
  keeps only the one path in which the first such changed path lies, so it still owns that and loses
  the rest, contested or not: `LosesIff`, `ForceTakesTheRest`. Every other apply entry comes out whole,
  also that of a co-owner of a forced path: `CoOwnerKeepsAll`. Hence the forcing manager becomes the only
  owner of a path if and only if every other that covers it is cut down to something else,
  `SoleOwnerIff`, and of all changed paths if and only if nobody else owned one: `SoleOwnerOfAllIff`.
- The sources of a projected volume are checked one by one. Together they can conflict, and then the
  volume is never published, or exceed the file limit, and then it is published once and no later run
  is accepted: `SourcesCanConflict`, `SourcesCanOverflow`; `Publish` and `ReadsBackIff` say exactly
  when. Neither ever shows a half-written volume.

## Model

| member | source | states |
|---|---|---|
| RegistryLog.LatestIsView | crates/h3s-storage/src/sqlite.rs:308-318 | The newest row of a key up to a revision, in the version table, is exactly the key's object in the registry replayed to that revision |
| RegistryLog.CompactionKeepsReads | crates/h3s-storage/src/sqlite.rs:453-480 | Deleting rows below a floor changes no lookup at any revision at or above the floor |
| RegistryLog.CompactionComposes | crates/h3s-storage/src/sqlite.rs:453-480 | Compacting to a low floor and later to a higher one leaves the same rows as compacting once to the higher |
| RegistryLog.ChangesComplete | crates/h3s-storage/src/sqlite.rs:206-264 | An event is in the range (a, b] of a prefix exactly when the log has that version there: nothing lost, nothing invented |
| RegistryLog.ChangesAscend | crates/h3s-storage/src/sqlite.rs:206-264 | The events of a range come in strictly increasing revision, so each at most once |
| RegistryLog.ChangesConcat | crates/h3s-storage/src/sqlite.rs:206-264 | Two adjacent ranges of events, one after the other, are the whole range: batches leave no gap and no overlap |
| RegistryLog.FoldChanges | crates/h3s-storage/src/sqlite.rs:206-264 | Applying the events of a range to the registry at its start gives the registry at its end |
| Registry.QueryIsRange | crates/h3s-storage/src/sqlite.rs:353-387 | The LIST query over the retained rows returns every object of the view under the prefix and above the cursor, once each, in key order |
| Registry.RangesJoin | crates/h3s-storage/src/sqlite.rs:353-387 | A page up to a key followed by the page above that key is one range |
| Registry.RangeUnique | crates/h3s-storage/src/sqlite.rs:353-387 | A range is determined by its view and bounds, so a page is the only correct answer |
| Registry.WindowIsChanges | crates/h3s-storage/src/sqlite.rs:206-264 | The watch query over the retained rows above a revision at or above the floor yields the full log's own events, with their previous versions |
| Registry.CompactionInvisible | crates/h3s-storage/src/sqlite.rs:453-480 | At and above the new floor every lookup, every LIST query and every event window is the same before and after compaction |
| Registry.Store.Get | crates/h3s-storage/src/sqlite.rs:339-352 | Returns the current object of a key, or none |
| Registry.Store.Mutate | crates/h3s-storage/src/sqlite.rs:138-205 | Create, update and delete succeed exactly when the compare-and-set holds; the exact error otherwise; the new registry and the one appended version |
| Registry.Store.List | crates/h3s-storage/src/sqlite.rs:353-387 | A page at a fixed revision is the exact range of that snapshot up to the page's end; revisions below the floor or above the head are refused |
| Registry.Store.ReadChanges | crates/h3s-storage/src/sqlite.rs:206-264 | One batch is exactly the changes from the cursor to the next cursor; a cursor below the floor is refused, never skipped |
| Registry.Store.Compact | crates/h3s-storage/src/sqlite.rs:453-480 | Leaves exactly the rows compaction may keep, raises the floor, and changes no current object |
| Registry.Store.Maintain | crates/h3s-storage/src/sqlite.rs:519-534 | Maintenance, with other clients in between, never moves the floor closer than the window to the head it read |
| Registry.Store.Interfere | crates/h3s-storage/src/sqlite.rs:116-132 | Any sequence of other clients' transactions keeps the store sound and only extends its log |
| RegistryWatch.FoldSnapshot | crates/h3s-storage/src/sqlite.rs:409-451 | Folding the replayed snapshot gives exactly the part of the registry under the prefix |
| RegistryWatch.Stable | crates/h3s-storage/src/sqlite.rs:409-451 | Whatever else commits or is compacted, what a watch has sent stays an exact stream of the longer log |
| RegistryWatch.Watcher.ReplayPage | crates/h3s-storage/src/sqlite.rs:409-451 | One replay page extends an exact stream, in key order; the last one is followed by the bookmark that ends the replay |
| RegistryWatch.Watcher.Poll | crates/h3s-storage/src/sqlite.rs:409-451 | One poll extends an exact stream by the changes up to its new cursor, or ends it with Compacted when the cursor fell below the floor |
| RegistryWatch.Open | crates/h3s-storage/src/sqlite.rs:409-430 | A watch starts at the head with a replay, or at a revision between floor and head, and is refused otherwise |
| RegistryWatch.Interleave | crates/h3s-storage/src/sqlite.rs:409-451 | In every interleaving of writes, compactions and one watcher the stream is the snapshot at the anchor followed by every version in (anchor, cursor]; folding it gives the registry at the cursor |
| RegistryWatch.ClientView | crates/h3s-storage/src/sqlite.rs:409-451 | A client that applies the stream holds the selected registry at the cursor |
| ListTokens.ListObjects | crates/h3s-apiserver/src/read.rs:39-115 | One LIST response holds exactly the selected objects of its snapshot between its start and its continue token, whatever commits between its pages, and never more than the limit |
| ListTokens.ScanPages | crates/h3s-apiserver/src/read.rs:72-106 | The scan over pages keeps an exact prefix of the snapshot and stops only at a full response, a spent scan budget or the end |
| ListTokens.FollowTokens | crates/h3s-apiserver/src/read.rs:72-106 | Following continue tokens, for any limits and any interleaved writes and compactions, returns every selected object of one snapshot exactly once in key order, and ends |
| SelectorWatch.SelectedStep | crates/h3s-apiserver/src/read.rs:202-214 | One version moves the selected view exactly as its wire event says: ADDED only from outside the view, MODIFIED and DELETED only from inside |
| SelectorWatch.WireFollowsSelection | crates/h3s-apiserver/src/read.rs:202-214 | Applying the wire events of a range to the selected part of the snapshot at its start gives the selected part at its end |
| SelectorWatch.Serve | crates/h3s-apiserver/src/read.rs:176-219 | The watch loop writes exactly the wire form of the registry stream, with the end-of-initial-events mark on the first bookmark |
| SelectorWatch.SelectorWatchIsExact | crates/h3s-apiserver/src/read.rs:117-223 | For any exact registry stream the client of a selector watch ends with the selected part of the registry at the cursor |
| SelectorWatch.InitialEndIsExact | crates/h3s-apiserver/src/read.rs:182-200 | The end-of-initial-events mark goes out once, when the client holds exactly the selected snapshot |
| SelectorWatch.InitialEndOnce | crates/h3s-apiserver/src/read.rs:182-200 | No later bookmark carries the mark |
| ProjectedFiles.CheckPaths | crates/h3s-kubelet/src/volumes.rs:52-82 | Accepts a payload's paths exactly when each is relative and none repeats or is a directory of another |
| ProjectedFiles.TreeOfIsProper | crates/h3s-kubelet/src/volumes.rs:503-586 | The tree a payload is written as has every parent directory and no file above another |
| ProjectedFiles.ReadTree | crates/h3s-kubelet/src/volumes.rs:446-490 | Reading back succeeds exactly when the bytes, directories and files are within the budget, and then returns every file at its path, for any order of entries |
| ProjectedFiles.ReadsBackIff | crates/h3s-kubelet/src/volumes.rs:446-490 | A complete generation reads back if and only if it has at most 1024 files and its bytes and directories are within the budget |
| ProjectedFiles.OwnTreeFits | crates/h3s-kubelet/src/volumes.rs:83-147 | Whatever one source may hold by its own limits reads back |
| ProjectedSources.SourcesCanConflict | crates/h3s-kubelet/src/volumes.rs:148-197 | Sources that each pass their check can conflict together: concrete sources |
| ProjectedSources.SourcesCanOverflow | crates/h3s-kubelet/src/volumes.rs:148-197 | Sources that each pass their check can come to a payload that is published and never reads back: concrete sources |
| Projection.PublishedReads | crates/h3s-kubelet/src/volumes.rs:503-586 | Through the user links a published payload is readable at exactly its own paths |
| Projection.Build | crates/h3s-kubelet/src/volumes.rs:503-586 | Writing a new generation, stopped anywhere and even inside a file, never touches what is active; it is refused exactly when one file is a directory of another, otherwise completed it holds exactly the payload |
| Projection.RemoveAll | crates/h3s-kubelet/src/volumes.rs:503-586 | Removing a directory, in any legal order and stopped part-way, changes nothing else |
| Projection.Replace | crates/h3s-kubelet/src/volumes.rs:503-586 | Publishing by one rename, of any payload: at every crash point the link names the old payload or the new one, complete; a conflicting payload is removed again |
| Projection.EnsureLink | crates/h3s-kubelet/src/volumes.rs:491-501 | Makes the user link, or leaves everything as it was |
| Projection.Sweep | crates/h3s-kubelet/src/volumes.rs:503-586 | Removes exactly the other generations and the links the payload no longer has |
| Projection.Publish | crates/h3s-kubelet/src/volumes.rs:503-586 | For any payload, from any interrupted or completed state, at every crash point the data link is as before or names the new payload complete; a completed run leaves exactly the payload, its links, one generation and no pending link; a run that is not stopped completes if and only if no file is a directory of another and the old payload reads back |
| Projection.Restarts | crates/h3s-kubelet/src/volumes.rs:503-586 | Over any number of runs for any payloads, each stopped anywhere, the volume always shows one of the payloads whole; while every payload is within the limits no run is refused |
| Escalation.Granted | crates/h3s-apiserver/src/authz.rs:156-185 | The expansion of a rule set holds a literal permission exactly when one rule grants that combination |
| Escalation.SplitJoins | crates/h3s-apiserver/src/authz.rs:210-219 | Splitting a resource at its first slash and joining it again gives the text back |
| Escalation.JoinSplits | crates/h3s-apiserver/src/authz.rs:210-219 | A resource without a slash and a subresource survive joining and splitting |
| Escalation.Check | crates/h3s-apiserver/src/authz.rs:221-294 | The admission check passes exactly the permitted role and binding writes |
| Escalation.HoldingCovers | crates/h3s-apiserver/src/authz.rs:156-294 | Holding every literal permission of a rule set is holding every request the rules allow: the evaluator asked about literals answers for all requests |
| Escalation.Transfer | crates/h3s-auth/src/lib.rs:97-239 | What allows one request allows any request that every matching rule also matches |
| Escalation.CheckIsExactIff | crates/h3s-apiserver/src/authz.rs:156-294 | The literal check passes exactly the users who already hold every request the rules allow, if and only if the rules allow each literal permission they are expanded to |
| Escalation.LiteralIsAllowedIff | crates/h3s-apiserver/src/authz.rs:156-219 | A rule allows its own literal permission unless it leaves out its API groups, or the first slash of the resource is its last character and the rule lists neither the bare resource nor * |
| Escalation.TidyIsExact | crates/h3s-apiserver/src/authz.rs:156-294 | So the check is exact for rules that name their API groups and no resource whose first slash is its last character |
| Escalation.TrailingSlashIsOverchecked | crates/h3s-apiserver/src/authz.rs:210-219 | With such a slash it can refuse a rule that allows nothing: a concrete rule |
| Escalation.MissingGroupsAreOverchecked | crates/h3s-apiserver/src/authz.rs:156-185 | So it can without API groups, which the check takes for the core group and the evaluator for none: a concrete rule |
| Escalation.StepAddsNothing | crates/h3s-apiserver/src/authz.rs:221-294 | After one permitted write nobody can do anything that no ordinary user could do before |
| Escalation.NoPermissionFromNothing | crates/h3s-apiserver/src/authz.rs:221-294 | Over any run of permitted writes by ordinary users none of whom holds escalate or bind, every request allowed at the end was allowed to one of them at the start, and nobody gains escalate or bind |
| Escalation.EscalateGainsAnything | crates/h3s-apiserver/src/authz.rs:240-250 | The premise is needed: a user who may escalate its own role can give itself any request |
| JsonPaths.SetSame | crates/h3s-apiserver/src/apply.rs:145-199 | What is written at a path is read back there |
| JsonPaths.SetOther | crates/h3s-apiserver/src/apply.rs:145-199 | Writing at a path leaves every path apart from it, except that creating a list item names it |
| JsonPaths.RemoveSame | crates/h3s-apiserver/src/apply.rs:200-234 | With unambiguous names, what is removed is gone |
| JsonPaths.RemoveOther | crates/h3s-apiserver/src/apply.rs:200-234 | Removing at a path leaves every path apart from it, unless it takes away the name of a list item on the way |
| JsonPaths.RemoveKeepsAbsent | crates/h3s-apiserver/src/apply.rs:200-234 | Removing makes nothing appear at an absent path |
| JsonPaths.PruneGet | crates/h3s-apiserver/src/apply.rs:236-255 | Pruning keeps what is at a path, itself pruned, exactly unless an empty or name-only list item is on the way |
| JsonPaths.FieldsSurvive | crates/h3s-apiserver/src/apply.rs:236-255 | A path that ends in a field other than an item's name is never lost to pruning |
| JsonPaths.SetSucceedsIff | crates/h3s-apiserver/src/apply.rs:145-199 | A write is possible exactly when every container already on the way has the shape its segment needs |
| JsonPaths.RemoveKeepsShape | crates/h3s-apiserver/src/apply.rs:200-234 | Removing changes no container on the way to a path, unless it removes or unnames part of that way |
| JsonPaths.PruneKeepsShape | crates/h3s-apiserver/src/apply.rs:236-255 | Pruning changes no container that matters on the way to a path |
| JsonPaths.SetKeepsShape | crates/h3s-apiserver/src/apply.rs:145-199 | Writing one path makes no other of the same kinds writable or unwritable |
| JsonPaths.UnnamedIsLost | crates/h3s-apiserver/src/apply.rs:127-141 | Nothing inside an item is found by a name the item has lost |
| OwnedFields.Declared | crates/h3s-apiserver/src/apply.rs:88-123 | The walk collects exactly the leaves of the object: one path for each scalar and each unnamed list |
| OwnedFields.DeclaredIsLeaf | crates/h3s-apiserver/src/apply.rs:93-141 | With distinct names every declared path is found again and leads to a leaf |
| OwnedFields.DeclaredPrefixFreeIff | crates/h3s-apiserver/src/apply.rs:93-123 | No declared path extends another if and only if what the object puts at one path agrees, at every depth |
| OwnedFields.AgreeIff | crates/h3s-apiserver/src/apply.rs:93-123 | Two values agree exactly when no path of one extends a path of the other |
| OwnedFields.DeclaredPrefixFree | crates/h3s-apiserver/src/apply.rs:93-123 | Distinct names in named lists are enough for that |
| OwnedFields.RepeatedNamesOverlap | crates/h3s-apiserver/src/apply.rs:93-123 | A request body that fails it: two items of one name declare a field and something inside that field |
| OwnedFields.NamesAreDeclared | crates/h3s-apiserver/src/apply.rs:93-123 | Whoever declares something inside a list item declares the item's name |
| OwnedFields.DeclaredWrites | crates/h3s-apiserver/src/apply.rs:145-199 | A declared path can be written exactly where the stored containers have its shape; otherwise the server stops |
| FieldTrees.FieldsV1 | crates/h3s-apiserver/src/apply.rs:315-332 | The recorded tree of a nonempty prefix-free set of paths reads back as that set |
| FieldTrees.RecordedExactly | crates/h3s-apiserver/src/apply.rs:285-332 | Only nonempty prefix-free sets can be recorded without loss |
| FieldTrees.GrowAddsLeaf | crates/h3s-apiserver/src/apply.rs:315-332 | Recording a path apart from all others adds exactly that leaf |
| FieldTrees.ReadTree | crates/h3s-apiserver/src/apply.rs:285-314 | Decoding collects exactly the leaves of the record |
| ServerSideApply.RemoveDropped | crates/h3s-apiserver/src/apply.rs:405-409 | Removing what the manager dropped, in any order, leaves every clear path and takes every dropped one |
| ServerSideApply.WriteDeclared | crates/h3s-apiserver/src/apply.rs:411-415 | Writing the declared paths, in any order, gives each its applied value and leaves every path apart from all of them; it stops exactly when one of them did not fit at first |
| ServerSideApply.MergeValue | crates/h3s-apiserver/src/apply.rs:402-415 | Remove, prune and write together: declared paths take the applied value, dropped ones are gone, unrelated ones stay; with unambiguous names it stops if and only if the stored object has another shape on the way to something declared |
| ServerSideApply.FitsAsStored | crates/h3s-apiserver/src/apply.rs:402-415 | Removing what was dropped and pruning decide nothing about which declared paths fit |
| ServerSideApply.DroppedIsLost | crates/h3s-apiserver/src/apply.rs:402-415 | A dropped path is gone, unless it now lies inside a list declared as a whole, and then it has the applied value |
| ServerSideApply.UnrelatedIsKeptIff | crates/h3s-apiserver/src/apply.rs:402-415 | A stored field apart from everything declared and dropped keeps its value if and only if no list item on its way loses its name and, where it is itself the name of an item, that item has another field that is not dropped; otherwise it is out of reach |
| ApplyExamples.ReleasedNameHidesItem | crates/h3s-apiserver/src/apply.rs:357-448 | An apply that does this: one of two managers of a list item stops declaring it, and the other's field, still recorded, is no longer found |
| PathOrder.InOrderUnique | crates/h3s-apiserver/src/apply.rs:13-18 | An ordered set of paths is visited in one order: the ascending sequence of its elements is unique |
| ForcedOwners.OtherOwnersStay | crates/h3s-apiserver/src/apply.rs:381-401 | Taking one path from its owner changes the owner of no other path, unless that one has the same owner and the owner holds something it does not lie in |
| ForcedOwners.Contest | crates/h3s-apiserver/src/apply.rs:378-401 | Without force it fails exactly when a declared path owned elsewhere would change, and names the first such path in order; with force it takes the changed paths in order, and with one prefix-free apply entry for each manager the entries left are exactly AfterForce of the stored ones |
| ForcedOwners.TakeIsAfterForce | crates/h3s-apiserver/src/apply.rs:396-400 | Taking paths from their owners one after the other, whose owners change on the way, leaves each entry as the stored entries alone say, entry by entry |
| ForcedOwners.LosesIff | crates/h3s-apiserver/src/apply.rs:396-400 | Another manager's apply entry comes out whole exactly when it has one path or no changed path it covers is left uncovered by what remains of the entries before it; otherwise it keeps exactly the one path in which the first such changed path lies. Co-owners are included |
| ForcedOwners.LoserKeepsOnePath | crates/h3s-apiserver/src/apply.rs:396-400 | In any order of the paths, the first owner of a changed path is left with one path, which covers a changed path it still owns, and loses every other, contested or not |
| ForcedOwners.AllOrOne | crates/h3s-apiserver/src/apply.rs:396-400 | In any order of the paths, every entry comes out whole or with at most one path |
| ForcedOwners.UninvolvedKeeps | crates/h3s-apiserver/src/apply.rs:378-401 | In any order of the paths, force takes nothing from a manager that had no part of a changed path |
| ForcedOwners.SoleOwnerIff | crates/h3s-apiserver/src/apply.rs:378-426 | After an apply its manager is the only owner of a path if and only if every other manager whose stored apply entry covers the path is cut down to a path that does not |
| ForcedOwners.SoleOwnerOfAllIff | crates/h3s-apiserver/src/apply.rs:378-426 | It owns all changed paths alone if and only if nobody else owned any of them before: forcing what somebody owned never leaves its manager the only owner of all it forced |
| ApplyExamples.ForceTakesTheRest | crates/h3s-apiserver/src/apply.rs:357-448 | An apply that shows it: two of an owner's three fields are forced, and it is left with the first of those two and without the third |
| ApplyExamples.CoOwnerKeepsAll | crates/h3s-apiserver/src/apply.rs:357-448 | Two managers own the same two fields and one field is forced: the first is left with that field, the co-owner keeps both |
| FieldOwners.Encode | crates/h3s-apiserver/src/apply.rs:418-445 | Recording the owners' entries loses nothing |
| FieldOwners.SortOrders | crates/h3s-apiserver/src/apply.rs:426-426 | The recorded entries are in order of manager |
| FieldOwners.RebuiltTwice | crates/h3s-apiserver/src/apply.rs:416-426 | Recording the same declaration again gives the same list of entries |
| ServerSideApply.RecordsOneApply | crates/h3s-apiserver/src/apply.rs:378-426 | One apply entry for each manager stays one for each |
| ServerSideApply.Apply | crates/h3s-apiserver/src/apply.rs:357-448 | Conflict exactly when unforced and contested, with the first contested path; with unambiguous names it stops exactly when it does not conflict and something declared does not fit; on success the merged object and the exact record, taken in path order and told from the stored entries; on a settled object, no change |
| ServerSideApply.ApplyTwice | crates/h3s-apiserver/src/apply.rs:357-448 | Applying the same object again as the same manager never conflicts and leaves the object and the list of recorded entries, when it holds no empty or name-only list items |
| StrategicOrder.ReorderPermutes | crates/h3s-apiserver/src/patch/strategic.rs:339-377 | The reordered list is a permutation of its values |
| StrategicOrder.ReorderOrders | crates/h3s-apiserver/src/patch/strategic.rs:339-377 | Requested items come in the requested order, untouched items in their old order |
| StrategicOrder.ReorderIsStable | crates/h3s-apiserver/src/patch/strategic.rs:339-377 | With distinct identities, reordering the result against itself as the old list gives it again |
| StrategicOrder.DistinctPermutes | crates/h3s-apiserver/src/patch/strategic.rs:339-377 | Distinct identities stay distinct in any order |
| StableLists.InterleaveBack | crates/h3s-apiserver/src/patch/strategic.rs:360-375 | Interleaving the two parts of a list by the list's own order gives the list |
| StableLists.InterleaveParts | crates/h3s-apiserver/src/patch/strategic.rs:360-375 | Splitting an interleaving gives back what was interleaved |
| StableLists.MergeBy | crates/h3s-apiserver/src/patch/strategic.rs:360-375 | The interleaving loop computes the interleaving |
| StrategicMerge.ListIsMerged | crates/h3s-apiserver/src/patch/strategic.rs:282-334 | Directives, merges and ordering amount to a keyed merge: distinct keys, exactly the old ones not deleted and the patched ones, the rest unchanged |
| StrategicMerge.ScalarsAreMerged | crates/h3s-apiserver/src/patch/strategic.rs:305-334 | A scalar list becomes the union of old and patched values, each once |
| StrategicMerge.PassesMerge | crates/h3s-apiserver/src/patch/strategic.rs:108-235 | The three passes over a map patch make of every field what the patch says: kept, removed, copied or merged, then its list directives |
| StrategicMerge.PatchedMap | crates/h3s-apiserver/src/patch/strategic.rs:108-235 | Unmentioned fields stay unless $retainKeys drops them, null removes, a scalar is taken |
| StrategicMerge.ItemsAreMerged | crates/h3s-apiserver/src/patch/strategic.rs:305-323 | With distinct patch keys every patched item stands in the result: the patch item itself when its key is new, otherwise the old item of that key merged with it |
| StrategicMerge.FreshIsClean | crates/h3s-apiserver/src/patch/strategic.rs:237-267 | A copied subtree has no null field and no directive at any depth |
| StrategicMerge.CleanIsCopied | crates/h3s-apiserver/src/patch/strategic.rs:237-267 | A subtree without them is copied as it is |
| StrategicMerge.MergeKeepsKey | crates/h3s-apiserver/src/patch/strategic.rs:84-235 | Merging a patch item into an item never changes the item's key |
| StrategicPatch.Patcher.Reorder | crates/h3s-apiserver/src/patch/strategic.rs:339-377 | Split, sort and interleave compute the specified order, within the budget |
| StrategicPatch.Patcher.Merge | crates/h3s-apiserver/src/patch/strategic.rs:84-106 | A successful merge is what the patch says, at every depth, and only spends budget |
| StrategicPatch.Patcher.MergeMap | crates/h3s-apiserver/src/patch/strategic.rs:108-235 | A successful map merge gives every field its specified outcome, list directives included |
| StrategicPatch.Patcher.MergeList | crates/h3s-apiserver/src/patch/strategic.rs:269-335 | A successful keyed list merge from distinct keys is a keyed merge; with replace it is the ordinary items |
| StrategicPatch.Patcher.Direct | crates/h3s-apiserver/src/patch/strategic.rs:282-301 | The first pass deletes exactly the named keys and collects the ordinary items |
| StrategicPatch.Patcher.Fresh | crates/h3s-apiserver/src/patch/strategic.rs:240-267 | A new subtree is copied without nulls and without anything carrying a directive |
| ProxyNetworks.SweepDecides | crates/h3s-proxy/src/plan.rs:165-171 | Over networks in order, one look at each neighbouring pair accepts exactly the pairwise disjoint ones |
| ProxyNetworks.Sweep | crates/h3s-proxy/src/plan.rs:165-171 | The sweep accepts exactly pairwise disjoint networks |
| ProxyNetworks.Networked | crates/h3s-proxy/src/plan.rs:128-174 | The first pass succeeds exactly on good, distinct, disjoint node networks, an own network and usable own addresses, and collects them |
| ProxyBackends.AddEndpoints | crates/h3s-proxy/src/plan.rs:255-281 | The endpoint loop adds exactly the addresses of serving endpoints |
| ProxyBackends.Collect | crates/h3s-proxy/src/plan.rs:224-283 | The four nested loops compute exactly the set of backends over matching slices, paired ports, serving endpoints and addresses, and fail exactly on a malformed one or over the limit |
| ProxyBackends.OrderDoesNotMatter | crates/h3s-proxy/src/plan.rs:224-283 | Reordering or repeating slices and endpoints changes neither the backends nor the verdict |
| ProxyPlan.Group | crates/h3s-proxy/src/plan.rs:175-185 | Grouping slices by Service keeps each slice under its own Service and no other |
| ProxyPlan.AddWanted | crates/h3s-proxy/src/plan.rs:215-349 | One Service port is accepted exactly when it is well formed, its tuples and identities are new and the limits hold |
| ProxyPlan.MakePlan | crates/h3s-proxy/src/plan.rs:115-360 | A plan exists exactly for a good snapshot and is the specified one, with disjoint Pod networks |
| ProxyPlan.FrontendsAreExact | crates/h3s-proxy/src/plan.rs:192-360 | The frontends are exactly those of the forwarded ports, each with its own backend set |
| ProxyPlan.OneFrontendPerTuple | crates/h3s-proxy/src/plan.rs:220-222 | A plan has one frontend per address, port and protocol, and one per chain |
| ProxyPlan.TuplesTellApart | crates/h3s-proxy/src/plan.rs:284-293 | The identity check never refuses what the tuple check accepts |
| ProxyPlan.PlanningIgnoresOrder | crates/h3s-proxy/src/plan.rs:115-360 | Reordering or repeating slices and endpoints does not change whether there is a plan |
| ProxyPlan.PlanIgnoresOrder | crates/h3s-proxy/src/plan.rs:115-360 | Nor the plan |
| ProxyRules.Render | crates/h3s-proxy/src/plan.rs:370-503 | The rule table of a plan has the dispatch, refusal and masquerade chains and every frontend's own chains |
| ProxyRules.PacketIsForwarded | crates/h3s-proxy/src/plan.rs:375-392 | A packet for a frontend goes to the backend the random number picks, from both hooks; without backends it is not translated |
| ProxyRules.EveryBackendIsPickedOnce | crates/h3s-proxy/src/plan.rs:460-481 | The random numbers map one-to-one onto the frontend's backends |
| ProxyRules.PacketIsRefused | crates/h3s-proxy/src/plan.rs:393-413 | A frontend without backends is refused in all three filter hooks, or dropped when local |
| ProxyRules.OtherPacketsPass | crates/h3s-proxy/src/plan.rs:375-413 | A packet for no frontend passes every hook untouched |
| ProxyRules.MasqueradesExactly | crates/h3s-proxy/src/plan.rs:414-454 | Exactly the translated connections from outside the Pod networks or from a backend to itself are masqueraded |
| ProxyRules.FrontendIsFor | crates/h3s-proxy/src/plan.rs:192-349 | A frontend stands for the packets to its Service address and port, or to a node address and node port, and no others |
| ProxyRules.ServiceTrafficReachesItsEndpoints | crates/h3s-proxy/src/plan.rs:115-503 | From snapshot to packet: traffic for a Service port, at its address or a node port, goes to one of the endpoints its slices list; with none it is refused, or dropped when local |
| ProxyRules.OtherTrafficPasses | crates/h3s-proxy/src/plan.rs:115-503 | From snapshot to packet: traffic for no forwarded port passes every hook untouched |
| Ipv4.SubnetInPool | crates/h3s-api/src/network.rs:50-62 | The i-th subnet of a pool is an aligned network inside the pool |
| Ipv4.IndexInPool | crates/h3s-api/src/network.rs:50-62 | Every aligned subnet inside the pool is one of them |
| NodeCidrs.Allocations.SubnetsCutThePool | crates/h3s-api/src/network.rs:50-62 | The pool is cut exactly into its numbered subnets |
| NodeCidrs.Allocations.ReservationsAreDisjoint | crates/h3s-api/src/network.rs:63-75 | In a sound ledger two reservations never share an address |
| NodeCidrs.Allocations.Validate | crates/h3s-api/src/network.rs:63-75 | Accepts exactly the sound ledgers |
| NodeCidrs.Allocations.Next | crates/h3s-api/src/network.rs:94-106 | Gives the name's own reservation or the lowest free subnet, and fails only when all are reserved |
| NodeCidrLedger.Ledger.Reserve | crates/h3s-api/src/network.rs:76-93 | Succeeds exactly for a valid name and a subnet that is its own or nobody's; reservations never change |
| NodeCidrLedger.Cluster.Initialize | crates/h3s-apiserver/src/node_cidrs.rs:57-99 | At start the ledger adopts every stored Node, or nothing is written; on a valid cluster it changes nothing |
| NodeCidrLedger.Cluster.Admit | crates/h3s-apiserver/src/node_cidrs.rs:100-130 | Admits exactly the permitted subnets and reserves before the Node is written |
| NodeCidrLedger.Cluster.Write | crates/h3s-apiserver/src/write.rs:357-388 | A Node write that stops after the reservation leaves the cluster valid; reservations never change or vanish |
| NodeCidrLedger.Cluster.Run | crates/h3s-apiserver/src/node_cidrs.rs:57-130 | Over any run of Node writes, deletions, stops and restarts every stored subnet is its own reservation |
| NodeCidrLedger.NodesAreDisjoint | crates/h3s-apiserver/src/node_cidrs.rs:57-130 | In a valid cluster the subnets of two Nodes share no address |
| Quantity.ScaledIsExact | crates/h3s-api/src/quantity.rs:62-105 | In its dimension a valid quantity gives its exact value rounded up, and none exactly when that exceeds 64 bits |
| Quantity.NoOverflow | crates/h3s-api/src/quantity.rs:70-105 | A result that fits 64 bits never overflows 128 on the way |
| ServiceStrategy.Prepare | crates/h3s-apiserver/src/strategy.rs:514-606 | Accepts exactly the allowed specs and fills in their defaults; an ExternalName's ports are not looked at |
| ServiceAllocation.LowestFree | crates/h3s-apiserver/src/services.rs:91-100 | The lowest free number of a range, or none exactly when all are used |
| ServiceAllocation.NumberedKeeps | crates/h3s-apiserver/src/services.rs:70-108 | Numbering keeps every stated or previously published node port and changes nothing else |
| ServiceAllocation.NumberedDiffer | crates/h3s-apiserver/src/services.rs:70-108 | Numbering gives each port a number of its own that no other Service holds, in range |
| ServiceAllocation.NodePorts | crates/h3s-apiserver/src/services.rs:70-108 | The loop that numbers ports in place computes the specified numbering |
| NodePortLists.RefusedIff | crates/h3s-apiserver/src/services.rs:70-108 | A list of ports is refused exactly where its first failing port is, and for that port's reason |
| NodePortLists.PortTakenIff | crates/h3s-apiserver/src/services.rs:82-106 | A stated or kept number is refused exactly when another Service holds it, an earlier port wants it, or some earlier new port has as many new ports before it as there are lower numbers neither held nor wanted before it |
| NodePortLists.ExhaustedIff | crates/h3s-apiserver/src/services.rs:91-100 | A new port is refused exactly when no more numbers are open to it than there are new ports before it |
| NodePortLists.NumberedIff | crates/h3s-apiserver/src/services.rs:70-108 | A list is numbered exactly when each of its ports, told from the list, what was published and what others hold, can be |
| NodePortLists.KeptFirstSucceeds | crates/h3s-apiserver/src/services.rs:82-106 | With its kept ports first, and their numbers free and distinct, a list is refused only when the range is exhausted |
| NodePortLists.NewPortFirst | crates/h3s-apiserver/src/services.rs:82-106 | With one new port before a kept one: refused exactly when the kept number is the lowest free one, otherwise both are numbered |
| ServiceAllocation.NewAddress | crates/h3s-apiserver/src/services.rs:155-192 | A create gives the address asked for, none when headless, otherwise the lowest free one, and the IP fields that go with it |
| NodePortLists.CreateFailsIff | crates/h3s-apiserver/src/services.rs:135-196 | A create that asks for no address and states nothing wrong fails exactly when all addresses of the range are taken or, for a NodePort, one of its ports cannot be numbered |
| ServiceRegistry.CreatedSettles | crates/h3s-apiserver/src/services.rs:110-196 | A created spec is in range and takes no address or forwarded node port another Service holds |
| ServiceRegistry.UpdatedSettles | crates/h3s-apiserver/src/services.rs:110-132 | An updated spec keeps its address and takes no other Service's node port |
| ServiceRegistry.KeptPortKeepsItsNumber | crates/h3s-apiserver/src/services.rs:70-108 | A port kept across an update keeps its node port |
| ServiceRegistry.SharedOnlyByExternalName | crates/h3s-apiserver/src/services.rs:134-141 | A write keeps all stated node ports unshared if and only if it is no ExternalName or its ports are free |
| ServiceRegistry.ExternalNameSharesAPort | crates/h3s-apiserver/src/services.rs:134-141 | An ExternalName can be stored with the node port of a running NodePort Service |
| ServiceRegistry.Services.Published | crates/h3s-apiserver/src/services.rs:35-67 | Collects exactly the addresses and node ports of the other Services |
| ServiceRegistry.Services.Create | crates/h3s-apiserver/src/services.rs:110-196 | Succeeds exactly when allocation does and the name is free, and keeps the registry sound |
| ServiceRegistry.Services.Update | crates/h3s-apiserver/src/services.rs:110-132 | Succeeds exactly when allocation does, and keeps the registry sound |
| ServiceRegistry.Services.Run | crates/h3s-apiserver/src/write.rs:35-62 | In every state of any run no two Services share an address and no two forwarded ports share a number |
| ServiceRegistry.OrderOfPortsMatters | crates/h3s-apiserver/src/services.rs:82-132 | Two updates of one stored Service that differ only in the order of a kept and a new port: one is refused, the other stored |
| ServiceRegistry.SoundMeans | crates/h3s-apiserver/src/services.rs:110-196 | Addresses lie in 10.43.0.2 to 10.43.255.254; equal addresses or equal forwarded node ports are the same Service and port |
| Placement.Requests | crates/h3s-scheduler/src/placement.rs:44-114 | Checked accumulation gives the exact demand exactly when everything is readable and the exact total fits 64 bits |
| Placement.CountUsed | crates/h3s-scheduler/src/placement.rs:296-302 | Checked accumulation over resident Pods gives the exact load when it is known and fits |
| Placement.Affinity | crates/h3s-scheduler/src/placement.rs:219-238 | Accumulates exactly the weight of the satisfied preferences |
| Placement.Consider | crates/h3s-scheduler/src/placement.rs:274-312 | A node is a choice exactly when it is feasible, with its rank |
| Placement.FirstIsBest | crates/h3s-scheduler/src/placement.rs:313-318 | The first of the sorted choices is not beaten by any other |
| Placement.Select | crates/h3s-scheduler/src/placement.rs:240-319 | The node chosen is the least feasible one by soft taints, preference, Pod count and name; every refusal has its exact reason |
| Placement.UnschedulableIff | crates/h3s-scheduler/src/placement.rs:240-319 | A supported, ungated Pod of known demand is unschedulable if and only if no node is feasible |
| Scheduler.Candidates | crates/h3s-scheduler/src/lib.rs:84-99 | Exactly the pending Pods, each once, no Pod before an earlier one |
| Scheduler.BindAddsItsDemand | crates/h3s-scheduler/src/lib.rs:125-130 | Binding adds exactly the Pod's demand to its node and nothing to any other |
| Scheduler.FeasibleShrinks | crates/h3s-scheduler/src/lib.rs:100-145 | A node that can take a Pod after a binding could take it before |
| Scheduler.Cycle.Try | crates/h3s-scheduler/src/lib.rs:101-143 | One candidate: bound to the best feasible node, or left as it is |
| Scheduler.Cycle.Run | crates/h3s-scheduler/src/lib.rs:100-145 | However the API answers and wherever the cycle is cut off: the candidates are tried in order, each is given the best feasible node of the world the turns before it left, or the exact reason why there is none, and the cycle ends only where it must; every node that received a Pod ends within what it offers, and only pending Pods changed |

## Left out

- The PostgreSQL backend: its reads and writes are not one transaction, so the atomic steps used here do not describe it.
- Secret sealing, leases, key and prefix syntax: registry payloads are opaque and keys are nonempty strings.
- RegistryWatch.Watcher.Poll: whether a bookmark is due is a parameter, because clocks are not modelled.
- ListTokens.ListObjects: the token's encoding and the selector language are not modelled; a selector is any predicate.
- SelectorWatch.Serve: the read guard, timeouts and ERROR events that end a stream are not modelled.
- Projection.Publish: an I/O error is a stop; permissions of existing directories, the tmpfs mount and fsync are not modelled, and paths are sequences of components.
- Projection.Publish: every path is relative, as each source's check and the Pod profile ensure; fetching the sources is not modelled.
- Rbac and Escalation: non-resource URLs, superuser writes, node grants, paging of the stored roles and several servers sharing one store.
- JsonPaths.Set: the source edits through a pointer into the value; the model returns the edited value, so aliasing is not captured. Numbers are integers.
- ServerSideApply.Apply: recorded entries are kept beside the object, a segment's text encoding is its decoded form, and times are not modelled. When it stops is stated for stored objects that have at most one list item of each name on the way to what is declared; with several, pruning can remove the first of them.
- StrategicPatch.Patcher.Merge: says what a success is, not which malformed patch gives which error; the pinned schema is a parameter; products that would saturate a machine word exceed every budget and are exact here.
- RFC 6902 and RFC 7396 patches: an external crate applies them.
- ProxyPlan.MakePlan: warnings, per-Service status and which error is reported are not modelled; protocols and policies come with their defaults applied, and chain digests are an injective function to numbers.
- ProxyRules.Render: the text of the rules, counters, the table owner check and the byte limit are not modelled.
- NodeCidrLedger.Cluster.Write: the Node's other fields and CIDR text syntax; a CIDR is its parsed form or unparsable.
- ServiceRegistry.Services.Create: IP text is its parsed form; UIDs are issued in order.
- ServiceStrategy.Prepare: says which specs are accepted, not which of several faults is reported; fields of the wrong JSON type are not modelled.
- Placement.Select: the scheduling features the scheduler refuses are one flag, and lease times are already parsed.
- Scheduler.Cycle.Run: list limits and incomplete snapshots end the cycle before it starts; status writes matter only by failing.
- The namespace lifecycle, admission policies, field-by-field validation, HTTP, certificates, and the kubelet's container calls.
