# fo:layout-master-set and the resumable layout of fo:list-block

This project models two pieces of an XSL-FO formatter in Dafny and proves
properties of them.

**The page-master registry** (`fo:layout-master-set`, module `Pagination`
in `layout_master_set.dfy`).
- It is a class holding two name-keyed tables: simple page masters and
  page-sequence masters.
- The two tables share one master-name namespace.
- It offers exact-name lookups.
- It checks that every user-visible region-name denotes a single region
  class across all simple page masters (section 7.25.7 of the XSL 1.0
  Recommendation).
- It answers whether a region-name is used by any master.
- It enforces the content model `(simple-page-master|page-sequence-master)+`
  (section 6.4.6).

**The layout step of `fo:list-block`** (module `Flow` in `list_block.dfy`,
on top of the area records of module `Areas` in `area.dfy`).
- A list block is laid out into successive target areas, one per page.
- A marker remembers the child to resume at.
- Each call lays out the children from the marker into a fresh block area.
  It stops at the first list item that reports an incomplete status, and
  that item is retried on the next call.
- The call closes the block area into the target and passes a status up.
- One call is specified by the pure function `Flow.LayoutStep`.
- The imperative `Flow.ListBlock.Layout` updates the node's fields and the
  target `Area` in place. Its contract proves that it computes exactly
  `LayoutStep`.
- Module `ListBlockProperties` (`list_block_properties.dfy`) proves what one
  call promises. It also proves what a run of calls, one per page, achieves.

Each list item's own layout is an oracle `results: nat -> ItemResult`. For
one call, `results(i)` is the status child `i` reports and the height it
adds to the block area.

## Behaviour of the code worth noting

- **The status upgrade tests the child's index.** AREA_FULL_NONE is turned
  into AREA_FULL_SOME when the incomplete child's index is greater than 0
  (`ListBlock.java:125`), not when it is past the child the call began at.
  So a call resumed at child 1 whose child 1 again places nothing reports
  AREA_FULL_SOME. `ListBlockProperties.ResumedChildPlacingNothingReportsSome`
  proves this case.
- **The marker is not advanced when every child completes.** In that branch
  (`ListBlock.java:137-151`) the marker is left alone: it keeps designating
  the child the last call began at.
  `ListBlockProperties.AllItemsCompleteCloseTheList` and
  `ListBlockProperties.TwoPageExample` prove this.
- **"Not yet started" is a marker value.** The code stores a sentinel
  `START` in the marker itself rather than keeping a separate flag; the model
  has it as `Marker.Start`.

## Model

| member | source | states |
|---|---|---|
| Pagination.ValidateChildNode | src/java/org/apache/fop/fo/pagination/LayoutMasterSet.java:77-87 | a child passes exactly when it is a simple-page-master or page-sequence-master in the FO namespace; otherwise an invalid-child error naming the child |
| Pagination.LayoutMasterSet.AddChildNode | src/java/org/apache/fop/fo/pagination/LayoutMasterSet.java:77-87 | a child is appended exactly when validation passes; a rejected child leaves the children unchanged; the tables are untouched and the invariant (every child a master element) is kept |
| Pagination.LayoutMasterSet.EndOfNode | src/java/org/apache/fop/fo/pagination/LayoutMasterSet.java:92-96 | ending the element fails, with the content model in the error, exactly when it has no child; under the invariant, success is exactly the content model holding |
| Pagination.LayoutMasterSet.constructor | src/java/org/apache/fop/fo/pagination/LayoutMasterSet.java:69-70 | both tables start empty and the invariant holds |
| Pagination.LayoutMasterSet.ExistsName | src/java/org/apache/fop/fo/pagination/LayoutMasterSet.java:118-125 | a name is taken exactly when one of the two lookups finds it; under the invariant, never both |
| Pagination.LayoutMasterSet.AddSimplePageMaster | src/java/org/apache/fop/fo/pagination/LayoutMasterSet.java:104-116 | fails with a duplicate-name error exactly when the master-name is taken in either table, leaving both tables unchanged; otherwise stores the master under its name, changes only that entry of that table, and lookup returns it; the key sets stay disjoint |
| Pagination.LayoutMasterSet.GetSimplePageMaster | src/java/org/apache/fop/fo/pagination/LayoutMasterSet.java:134-136 | finds a master exactly when the name is a key, returns the stored master, whose name is that key; None (null) for an absent name |
| Pagination.LayoutMasterSet.AddPageSequenceMaster | src/java/org/apache/fop/fo/pagination/LayoutMasterSet.java:145-156 | fails with a duplicate-name error exactly when the name is taken in either table, leaving both tables unchanged; otherwise stores the master under that name, changes only that entry, and lookup returns it; the key sets stay disjoint |
| Pagination.LayoutMasterSet.GetPageSequenceMaster | src/java/org/apache/fop/fo/pagination/LayoutMasterSet.java:165-167 | finds a master exactly when the name is a key, returns the stored master; None (null) for an absent name |
| Pagination.LayoutMasterSet.CheckRegionNames | src/java/org/apache/fop/fo/pagination/LayoutMasterSet.java:174-202 | passes exactly when no region-name is declared, in one master or in two, with two different region classes, whatever order the table is walked in; a failure names a region-name and two different classes that are both declared with it |
| Pagination.RecordRegions | src/java/org/apache/fop/fo/pagination/LayoutMasterSet.java:182-200 | the inner loop over one master's regions either records all of them consistently with the map built so far, or fails on a region-name already mapped to a different declared class |
| Pagination.SimplePageMaster.RegionNameExists | src/java/org/apache/fop/fo/pagination/LayoutMasterSet.java:212 | a master has a region-name exactly when one of its regions, at some position, carries that name |
| Pagination.LayoutMasterSet.RegionNameExists | src/java/org/apache/fop/fo/pagination/LayoutMasterSet.java:209-217 | true exactly when some registered simple page master has a region with that name |
| Pagination.RegionNameExistsIffDeclared | src/java/org/apache/fop/fo/pagination/LayoutMasterSet.java:209-217 | asking each master agrees with asking whether any declared region carries the name |
| Pagination.RegionNamesConsistentIffClassMap | src/java/org/apache/fop/fo/pagination/LayoutMasterSet.java:169-202 | the check's condition holds exactly when one map from region-name to region class agrees with every declared region |
| Pagination.ConflictOnlyVisibleAcrossMasters | src/java/org/apache/fop/fo/pagination/LayoutMasterSet.java:174-202 | two masters that are each consistent can conflict once both are registered, which is why the check runs over the whole set |
| Areas.Area.AddChild | src/org/apache/fop/fo/flow/ListBlock.java:130 | appends one child and changes nothing else |
| Areas.Area.IncreaseHeight | src/org/apache/fop/fo/flow/ListBlock.java:131 | adds the amount to the height and changes nothing else |
| Areas.Area.SetAbsoluteHeight | src/org/apache/fop/fo/flow/ListBlock.java:132 | sets the absolute height and changes nothing else |
| Areas.Area.AddDisplaySpace | src/org/apache/fop/fo/flow/ListBlock.java:78-80 | appends the display space and changes nothing else |
| Areas.Area.End | src/org/apache/fop/fo/flow/ListBlock.java:74-76 | closes the pending line and changes nothing else |
| Areas.Area.Start | src/org/apache/fop/fo/flow/ListBlock.java:146-148 | opens a fresh line and changes nothing else |
| Flow.Scan | src/org/apache/fop/fo/flow/ListBlock.java:116-135 | the child loop stops at a child from the marker on that is not a list item or reports itself incomplete, and every child before it completes; it finishes only when every child from the marker on completes |
| Flow.ScanStopsAtFirst | src/org/apache/fop/fo/flow/ListBlock.java:116-135 | conversely, the loop stops exactly at the first child that does not complete |
| Flow.UpgradeStatus | src/org/apache/fop/fo/flow/ListBlock.java:125-127 | the status passed up is incomplete exactly when the child's is; it is AreaFullNone only for child 0, and differs from the child's only by turning AreaFullNone into AreaFullSome past child 0 |
| Flow.InitialStyle | src/org/apache/fop/fo/flow/ListBlock.java:82-86 | in a table cell the start indent grows by the forced start offset and the end indent by the allocation width minus the forced width and offset; otherwise the properties are kept |
| Flow.Initialize | src/org/apache/fop/fo/flow/ListBlock.java:53-91 | the set-up runs only when the marker is Start: it sets the marker to 0, caches the style, closes a block-area target's line and appends space-before exactly when it is not zero; with the marker set it changes nothing |
| Flow.NewBlock | src/org/apache/fop/fo/flow/ListBlock.java:93-113 | the call's block area is flagged first exactly when the area count is 1; it takes the allocation width from the target, the indents and text properties from the cached style, and its absolute height is the target's plus the height placed in it |
| Flow.AppendBlock | src/org/apache/fop/fo/flow/ListBlock.java:130-132 | closing a block area appends it as the target's last child, grows the target's height by its height, takes over its absolute height and leaves the rest of the target as it was |
| Flow.AddSpaceAfter | src/org/apache/fop/fo/flow/ListBlock.java:142-144 | space-after is appended exactly when it is not zero; heights and the line flag are unchanged |
| Flow.Reopen | src/org/apache/fop/fo/flow/ListBlock.java:146-148 | a block-area target gets an open line; nothing else changes, and a target that is not a block area is unchanged |
| Flow.Resume | src/org/apache/fop/fo/flow/ListBlock.java:93-151 | after the child loop the marker is set, within the children and not behind where it was, one more area is counted, the style is kept, the target's children are only appended to, the status is incomplete exactly when the loop stopped at an incomplete list item, and the marker moves only when the status is incomplete |
| Flow.LayoutStep | src/org/apache/fop/fo/flow/ListBlock.java:52-152 | after a call the marker is set, within the children and not behind where it was, and exactly one more area has been generated |
| Flow.ResumeAtNonListItem | src/org/apache/fop/fo/flow/ListBlock.java:118-121 | a child that is not a list item ends the call with Ok, the marker unchanged and nothing appended |
| Flow.ResumeAtIncomplete | src/org/apache/fop/fo/flow/ListBlock.java:124-133 | an incomplete list item sets the marker to its index, closes the block area holding the children from the marker through it into the target and passes its status up, upgraded |
| Flow.ResumeToEnd | src/org/apache/fop/fo/flow/ListBlock.java:137-151 | when every child completes, the last block area is closed into the target, followed by space-after when it is not zero and a fresh line in a block-area target; the call reports Ok |
| Flow.ListBlock.constructor | src/org/apache/fop/fo/flow/ListBlock.java:47-50 | a new list block has the marker at Start and no area generated |
| Flow.ListBlock.FirstCallSetUp | src/org/apache/fop/fo/flow/ListBlock.java:53-91 | the in-place set-up leaves the node and the target in exactly the state `Initialize` describes |
| Flow.ListBlock.CloseBlock | src/org/apache/fop/fo/flow/ListBlock.java:129-132 | the block area is appended once, the target grows by its height and takes over its absolute height |
| Flow.ListBlock.LayOutItems | src/org/apache/fop/fo/flow/ListBlock.java:116-135 | the loop stops where `Scan` stops, and the block area holds exactly the list items laid out, with their heights added |
| Flow.ListBlock.CloseLastBlock | src/org/apache/fop/fo/flow/ListBlock.java:137-148 | the last block area is closed into the target, then space-after when it is not zero, then a fresh line in a block-area target |
| Flow.ListBlock.LayOutChildren | src/org/apache/fop/fo/flow/ListBlock.java:93-151 | once set up, the in-place child loop leaves the node, the target and the status exactly as `Resume` describes |
| Flow.ListBlock.Layout | src/org/apache/fop/fo/flow/ListBlock.java:52-152 | one in-place call leaves the node, the target and the status exactly as `LayoutStep` describes, and keeps the marker within the children |
| ListBlockProperties.ResumeAppendsOneBlock | src/org/apache/fop/fo/flow/ListBlock.java:116-148 | after the set-up the loop only appends: at most one block area of the new generation, then display space at most |
| ListBlockProperties.SetUpOnFirstCallOnly | src/org/apache/fop/fo/flow/ListBlock.java:53-91 | the target's children are only appended to; on the first call space-before is what comes first exactly when it is not zero; a later call never adds it and keeps the cached style |
| ListBlockProperties.EachCallGeneratesOneArea | src/org/apache/fop/fo/flow/ListBlock.java:97-102 | each call counts exactly one more area and appends at most one block area, carrying the new count and flagged first exactly when the count was 0 |
| ListBlockProperties.IncompleteChildIsRetried | src/org/apache/fop/fo/flow/ListBlock.java:124-133 | an incomplete list item sets the marker to its index and the call returns its status, upgraded; one block area holding the children from the marker through it is appended once, and the target's height grows, from its height after the first-call set-up, by exactly that block's height |
| ListBlockProperties.NonListItemEndsCall | src/org/apache/fop/fo/flow/ListBlock.java:118-121 | a child that is not a list item makes the call return Ok with the marker unchanged and no block area appended |
| ListBlockProperties.AllItemsCompleteCloseTheList | src/org/apache/fop/fo/flow/ListBlock.java:137-151 | when every child from the marker completes, one block area flagged last and holding all of them is appended, the height grows, from its height after the first-call set-up, by its height, space-after follows exactly when it is not zero, and the call returns Ok with the marker unchanged |
| ListBlockProperties.StatusReportsWhereTheCallStopped | src/org/apache/fop/fo/flow/ListBlock.java:116-135 | a call reports an incomplete status exactly when the loop stopped at an incomplete list item; that status is the item's, upgraded, and the marker designates the item; AreaFullNone only for child 0 |
| ListBlockProperties.ResumedChildPlacingNothingReportsSome | src/org/apache/fop/fo/flow/ListBlock.java:125-127 | a call resumed at child 1 whose child 1 places nothing reports AreaFullSome |
| ListBlockProperties.ResumeLaysOutFromTheMarker | src/org/apache/fop/fo/flow/ListBlock.java:116-117 | the child loop lays out no child before the marker |
| ListBlockProperties.NoChildBeforeTheMarkerIsLaidOut | src/org/apache/fop/fo/flow/ListBlock.java:116-117 | every list item in a block area a call appends lies between the marker the call began at and the end of the children |
| ListBlockProperties.CallCompletesUpToItsStop | src/org/apache/fop/fo/flow/ListBlock.java:116-151 | when every child is a list item, the items a call completes are the children from its marker up to the one it stops at, or to the end when it finishes |
| ListBlockProperties.ResumptionCompletesEveryChildOnce | src/org/apache/fop/fo/flow/ListBlock.java:116-151 | over successive pages, the list items completed are each child from the first marker on exactly once and in order, up to the end when the last call reports Ok and up to the marker otherwise |
| ListBlockProperties.MarkerNeverMovesBack | src/org/apache/fop/fo/flow/ListBlock.java:128 | over successive pages the marker never moves back |
| ListBlockProperties.TwoPageExample | src/org/apache/fop/fo/flow/ListBlock.java:116-151 | a two-page run whose item results are scripted: on page 1 child 0 completes with height 60 and child 1 reports AreaFullNone with height 0, so the call reports AreaFullSome with the marker at 1; on page 2 every child completes, the call reports Ok and the marker stays at 1 |

## Left out

- Parser plumbing is not modelled: SAX attributes, locators, the exception
  message texts, and the check that the parent of fo:layout-master-set is
  fo:root.
- `nsURI == FO_URI` compares references in the source. The model compares
  the strings.
- `endOfNode` tests `childNodes == null`. The model tests for an empty
  child list, which is the same as long as children are only ever
  appended.
- Pagination.LayoutMasterSet.AddChildNode: the tree builder's
  validate-then-append is not part of this file. It is modelled so that
  the children's invariant can be stated.
- Property resolution is left out: the resolved values of text-align,
  line-height, the indents and the spaces are given integers in `Style`.
- Also left out because they are foreign calls with no logic here: font
  state, background colour, `spaceBetweenListRows`, `area.spaceLeft()`, the
  page reference, markers, and `IDReferences.initializeID`.
- The lineage pair is kept only as the block area's generation number.
- `ListItem.layout` is an oracle. What a list item reports is an input of
  the call. Its own resumption, and the partial content it places in the
  block area, are not modelled.
- Area, BlockArea and Status are not part of this model.
  - An area is a record of height, absolute height, children and an
    open-line flag.
  - `addDisplaySpace` only appends a display-space child; its effect on
    height is not modelled.
- Areas.Area.AddDisplaySpace: the display space it appends takes no height
  in the model, so every height figure below leaves out space-before and
  space-after.
- ListBlockProperties.AllItemsCompleteCloseTheList: the target's height
  grows by the last block area's height only; the height of space-before
  and space-after is not counted, since display space takes none here.
- ListBlockProperties.IncompleteChildIsRetried: the target's height grows
  by the block area's height only; the height of space-before is not
  counted, since display space takes none here.
  - Every status other than Ok is taken as incomplete, with `Other(code)`
    standing for the further codes.
- Flow.ListBlock.Layout: the source flags the block area last after
  appending it, on the same object. The model builds the block area as a
  value and flags it before appending, so only the final state is
  compared, not aliasing.
- Flow.ListBlock.Layout is split into FirstCallSetUp, LayOutItems,
  CloseBlock, CloseLastBlock and LayOutChildren. The statements and their
  order are those of the source method, apart from the block area's own
  `start()`/`end()` calls (`ListBlock.java:111, 129, 137`) and the isLast
  flag, which the model sets when it builds the last block area.
- The error path of layout is not modelled: `ListBlock.layout` declares
  `FOPException` (`ListBlock.java:52`), which `IDReferences.initializeID`
  (line 90) or `ListItem.layout` (line 124) may throw after the area count
  and the set-up have already changed. The oracle for list items always
  returns a result.
- The page-sequence-master selection state machine is not part of this
  model.
- The document-wide ID registry is not part of this model.
- The driver that calls layout once per page is not part of these files.
  `ListBlockProperties.LayOutPages` stands for it only to state the
  multi-page property.
- Integer widths are not modelled. Heights and indents are unbounded
  integers; 32-bit overflow of Java `int` arithmetic is not.
