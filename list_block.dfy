/** The resumable layout step of fo:list-block. A list block is laid out
    into successive target areas (one per page-filling attempt); its
    `marker` records the child to resume at. Each list item's own layout is
    an oracle: for one call of the list block, `results(i)` is what child
    `i` reports when asked to lay itself out, its status and the height it
    adds to the list block's block area. */
module Flow {
  import opened Areas

  /** The resumption marker: `Start` before the first call, then the index
      of the child to lay out first. */
  datatype Marker = Start | At(index: nat)

  /** The resolved property values the list block caches on its first call:
      text-align, text-align-last, line-height, start-indent, end-indent,
      space-before.optimum and space-after.optimum. */
  datatype Style = Style(
    align: int,
    alignLast: int,
    lineHeight: int,
    startIndent: int,
    endIndent: int,
    spaceBefore: int,
    spaceAfter: int)

  /** A child of the list block: a list item, or any other node, which the
      content model of fo:list-block does not admit. */
  datatype Child = ListItemNode | OtherNode(name: string)

  /** What a list item reports for one layout call. */
  datatype ItemResult = ItemResult(status: Status, height: int)

  /** The parts of a list block that layout never changes: its children, its
      resolved properties and the offsets an enclosing table cell forced. */
  datatype Config = Config(
    children: seq<Child>,
    properties: Style,
    isInTableCell: bool,
    forcedStartOffset: int,
    forcedWidth: int)

  /** The parts of a list block that layout changes. */
  datatype NodeState = NodeState(marker: Marker, areasGenerated: nat, style: Style)

  /** The outcome of one layout call: the node's and the target area's new
      state and the status returned. */
  datatype Step = Step(node: NodeState, area: AreaState, status: Status)

  /** Where the scan of the children from the marker stops. */
  datatype Stop = Finished | NotAListItem(index: nat) | Incomplete(index: nat)

  function StartIndex(m: Marker): nat
  {
    match m
    case Start => 0
    case At(i) => i
  }

  predicate MarkerInRange(cfg: Config, node: NodeState)
  {
    StartIndex(node.marker) <= |cfg.children|
  }

  /** Child `k` is a list item that reports itself complete. */
  predicate Completes(children: seq<Child>, results: nat -> ItemResult, k: nat)
    requires k < |children|
  {
    children[k].ListItemNode? && !results(k).status.IsIncomplete()
  }

  /** The child loop: the first child from `from` on that is not a list item
      or that reports an incomplete status; Finished when every child from
      `from` on completes. */
  function Scan(children: seq<Child>, from: nat, results: nat -> ItemResult): (s: Stop)
    requires from <= |children|
    decreases |children| - from
    ensures s.Finished? ==> forall k :: from <= k < |children| ==> Completes(children, results, k)
    ensures !s.Finished? ==> from <= s.index < |children|
    ensures !s.Finished? ==> forall k :: from <= k < s.index ==> Completes(children, results, k)
    ensures s.NotAListItem? ==> !children[s.index].ListItemNode?
    ensures s.Incomplete? ==> children[s.index].ListItemNode? && results(s.index).status.IsIncomplete()
  {
    if from == |children| then Finished
    else if !children[from].ListItemNode? then NotAListItem(from)
    else if results(from).status.IsIncomplete() then Incomplete(from)
    else Scan(children, from + 1, results)
  }

  /** The indices `from`, ..., `to - 1`, in order. */
  function Range(from: nat, to: nat): (r: seq<nat>)
    decreases to - from
    ensures |r| == if to <= from then 0 else to - from
  {
    if to <= from then [] else Range(from, to - 1) + [to - 1]
  }

  /** The height the children `from`, ..., `to - 1` add to the block area. */
  function PlacedHeight(results: nat -> ItemResult, from: nat, to: nat): int
    decreases to - from
  {
    if to <= from then 0 else PlacedHeight(results, from, to - 1) + results(to - 1).height
  }

  /** The status a list block passes up for incomplete child `index`: a
      child that placed nothing, when it is not child 0, is reported as
      partial progress of the list block. */
  function UpgradeStatus(status: Status, index: nat): (r: Status)
    ensures r.IsIncomplete() == status.IsIncomplete()
    ensures r == AreaFullNone <==> status == AreaFullNone && index == 0
    ensures r != status ==> status == AreaFullNone && r == AreaFullSome && index > 0
  {
    if status == AreaFullNone && index > 0 then AreaFullSome else status
  }

  /** The style in force after the first call: the resolved properties, with
      the indents shifted by the offsets of an enclosing table cell. */
  function InitialStyle(cfg: Config, allocationWidth: int): (s: Style)
    ensures !cfg.isInTableCell ==> s == cfg.properties
    ensures cfg.isInTableCell ==> s == cfg.properties.(
              startIndent := cfg.properties.startIndent + cfg.forcedStartOffset,
              endIndent := cfg.properties.endIndent + allocationWidth - cfg.forcedWidth - cfg.forcedStartOffset)
  {
    var p := cfg.properties;
    if cfg.isInTableCell then
      p.(startIndent := p.startIndent + cfg.forcedStartOffset,
         endIndent := p.endIndent + allocationWidth - cfg.forcedWidth - cfg.forcedStartOffset)
    else p
  }

  /** The first-call part of layout: cache the style, set the marker to 0,
      close the target's pending line when it is a block area and add the
      space before the list block when it is not zero. A later call changes
      nothing here. */
  function Initialize(cfg: Config, node: NodeState, area: AreaState): (r: (NodeState, AreaState))
    ensures r.0.marker == At(StartIndex(node.marker))
    ensures r.0.areasGenerated == node.areasGenerated
    ensures node.marker.At? ==> r == (node, area)
    ensures node.marker.Start? ==> r.0.style == InitialStyle(cfg, area.allocationWidth)
    ensures node.marker.Start? ==> r.1.height == area.height && r.1.absoluteHeight == area.absoluteHeight
    ensures node.marker.Start? ==> r.1.lineOpen == (area.lineOpen && !area.isBlockArea)
    ensures node.marker.Start? ==>
              r.1.children == area.children + (if cfg.properties.spaceBefore != 0 then [DisplaySpace(cfg.properties.spaceBefore)] else [])
  {
    if node.marker.Start? then
      var style := InitialStyle(cfg, area.allocationWidth);
      var ended := if area.isBlockArea then area.(lineOpen := false) else area;
      var spaced := if style.spaceBefore != 0
                    then ended.(children := ended.children + [DisplaySpace(style.spaceBefore)])
                    else ended;
      (NodeState(At(0), node.areasGenerated, style), spaced)
    else
      (node, area)
  }

  /** The block area of one call, holding the list items `items` whose
      heights add up to `height`. */
  function NewBlock(style: Style, area: AreaState, generation: nat, items: seq<nat>, height: int, isLast: bool): (b: BlockArea)
    ensures b.isFirst <==> generation == 1
    ensures b.isLast == isLast && b.generation == generation && b.items == items
    ensures b.height == height && b.absoluteHeight == area.absoluteHeight + height
    ensures b.allocationWidth == area.allocationWidth
    ensures b.startIndent == style.startIndent && b.endIndent == style.endIndent
    ensures b.align == style.align && b.alignLast == style.alignLast && b.lineHeight == style.lineHeight
  {
    BlockArea(area.allocationWidth, style.startIndent, style.endIndent, style.align, style.alignLast,
              style.lineHeight, height, area.absoluteHeight + height, generation == 1, isLast, generation, items)
  }

  /** An empty block area that items of total height `height` were laid
      out into is the block area made with them. */
  lemma FilledBlock(style: Style, area: AreaState, generation: nat, items: seq<nat>, height: int)
    ensures var empty := NewBlock(style, area, generation, [], 0, false);
            empty.(height := empty.height + height, absoluteHeight := empty.absoluteHeight + height, items := empty.items + items)
              == NewBlock(style, area, generation, items, height, false)
  {
    assert [] + items == items;
  }

  /** Closing a block area into its parent: append it, grow the parent by
      its height and take over its absolute height. */
  function AppendBlock(area: AreaState, block: BlockArea): (r: AreaState)
    ensures r.children == area.children + [Block(block)]
    ensures r.height == area.height + block.height && r.absoluteHeight == block.absoluteHeight
    ensures r.isBlockArea == area.isBlockArea && r.allocationWidth == area.allocationWidth
    ensures r.lineOpen == area.lineOpen
  {
    area.(children := area.children + [Block(block)],
          height := area.height + block.height,
          absoluteHeight := block.absoluteHeight)
  }

  /** One call of the list block's layout, as a function of the state before
      it: the first-call set-up, then the child loop. */
  function LayoutStep(cfg: Config, node: NodeState, area: AreaState, results: nat -> ItemResult): (o: Step)
    requires MarkerInRange(cfg, node)
    ensures MarkerInRange(cfg, o.node) && o.node.marker.At?
    ensures StartIndex(node.marker) <= StartIndex(o.node.marker)
    ensures o.node.areasGenerated == node.areasGenerated + 1
  {
    var init := Initialize(cfg, node, area);
    Resume(cfg, init.0, init.1, results)
  }

  /** The child loop of one call, from an initialised node: lay out the
      children from the marker on into a fresh block area and close it into
      `area` unless a child that is not a list item cuts the call short. */
  function Resume(cfg: Config, node: NodeState, area: AreaState, results: nat -> ItemResult): (o: Step)
    requires node.marker.At? && MarkerInRange(cfg, node)
    ensures MarkerInRange(cfg, o.node) && o.node.marker.At?
    ensures node.marker.index <= o.node.marker.index
    ensures o.node.areasGenerated == node.areasGenerated + 1 && o.node.style == node.style
    ensures o.status.IsIncomplete() <==> Scan(cfg.children, node.marker.index, results).Incomplete?
    ensures o.node.marker != node.marker ==> o.status.IsIncomplete()
    ensures o.area.isBlockArea == area.isBlockArea && o.area.allocationWidth == area.allocationWidth
    ensures area.children <= o.area.children
  {
    var start := node.marker.index;
    var generation := node.areasGenerated + 1;
    var counted := node.(areasGenerated := generation);
    match Scan(cfg.children, start, results)
    case NotAListItem(_) =>
      Step(counted, area, Ok)
    case Incomplete(i) =>
      var block := NewBlock(node.style, area, generation, Range(start, i + 1), PlacedHeight(results, start, i + 1), false);
      Step(counted.(marker := At(i)), AppendBlock(area, block), UpgradeStatus(results(i).status, i))
    case Finished =>
      var n := |cfg.children|;
      var block := NewBlock(node.style, area, generation, Range(start, n), PlacedHeight(results, start, n), true);
      Step(counted, Reopen(AddSpaceAfter(AppendBlock(area, block), node.style.spaceAfter)), Ok)
  }

  /** The space after the list block, added when it is not zero. */
  function AddSpaceAfter(area: AreaState, spaceAfter: int): (r: AreaState)
    ensures r.children == area.children + (if spaceAfter != 0 then [DisplaySpace(spaceAfter)] else [])
    ensures r.height == area.height && r.absoluteHeight == area.absoluteHeight
    ensures r.isBlockArea == area.isBlockArea && r.allocationWidth == area.allocationWidth
    ensures r.lineOpen == area.lineOpen
  {
    if spaceAfter != 0 then area.(children := area.children + [DisplaySpace(spaceAfter)]) else area
  }

  /** A target that is a block area gets a fresh line once the list block is done. */
  function Reopen(area: AreaState): (r: AreaState)
    ensures r.lineOpen == (area.lineOpen || area.isBlockArea)
    ensures r == area.(lineOpen := r.lineOpen)
  {
    if area.isBlockArea then area.(lineOpen := true) else area
  }

  /** The converse of Scan's contract: when `j` is the first index from
      `from` on whose child does not complete, Scan stops exactly there. */
  lemma {:induction false} ScanStopsAtFirst(children: seq<Child>, from: nat, results: nat -> ItemResult, j: nat)
    requires from <= j <= |children|
    requires forall k :: from <= k < j ==> Completes(children, results, k)
    requires j < |children| ==> !Completes(children, results, j)
    ensures Scan(children, from, results) ==
              if j == |children| then Finished
              else if !children[j].ListItemNode? then NotAListItem(j)
              else Incomplete(j)
    decreases j - from
  {
    if from < j {
      assert Completes(children, results, from);
      ScanStopsAtFirst(children, from + 1, results, j);
    }
  }

  /** The child loop stops at child `j`, the first child from the marker on
      that is not a list item: the call reports Ok and appends nothing. */
  lemma ResumeAtNonListItem(cfg: Config, node: NodeState, area: AreaState, results: nat -> ItemResult, j: nat)
    requires node.marker.At? && node.marker.index <= j < |cfg.children|
    requires forall k :: node.marker.index <= k < j ==> Completes(cfg.children, results, k)
    requires !cfg.children[j].ListItemNode?
    ensures Resume(cfg, node, area, results) == Step(node.(areasGenerated := node.areasGenerated + 1), area, Ok)
  {
    ScanStopsAtFirst(cfg.children, node.marker.index, results, j);
  }

  /** The child loop stops at list item `i`, the first child from the marker
      on that does not complete: the node resumes at `i`, the block area
      holding the children from the marker through `i` is closed into
      `area` and the child's status is passed up, upgraded. */
  lemma ResumeAtIncomplete(cfg: Config, node: NodeState, area: AreaState, results: nat -> ItemResult, i: nat)
    requires node.marker.At? && node.marker.index <= i < |cfg.children|
    requires forall k :: node.marker.index <= k < i ==> Completes(cfg.children, results, k)
    requires cfg.children[i].ListItemNode? && results(i).status.IsIncomplete()
    ensures Resume(cfg, node, area, results) ==
              Step(node.(areasGenerated := node.areasGenerated + 1, marker := At(i)),
                   AppendBlock(area, NewBlock(node.style, area, node.areasGenerated + 1, Range(node.marker.index, i + 1),
                                              PlacedHeight(results, node.marker.index, i + 1), false)),
                   UpgradeStatus(results(i).status, i))
  {
    ScanStopsAtFirst(cfg.children, node.marker.index, results, i);
  }

  /** Every child from the marker on completes: the last block area is
      closed into `area`, followed by the space after, and the call reports
      Ok without moving the marker. */
  lemma ResumeToEnd(cfg: Config, node: NodeState, area: AreaState, results: nat -> ItemResult)
    requires node.marker.At? && node.marker.index <= |cfg.children|
    requires forall k :: node.marker.index <= k < |cfg.children| ==> Completes(cfg.children, results, k)
    ensures Resume(cfg, node, area, results) ==
              Step(node.(areasGenerated := node.areasGenerated + 1),
                   Reopen(AddSpaceAfter(AppendBlock(area, NewBlock(node.style, area, node.areasGenerated + 1,
                                                                   Range(node.marker.index, |cfg.children|),
                                                                   PlacedHeight(results, node.marker.index, |cfg.children|), true)),
                                        node.style.spaceAfter)),
                   Ok)
  {
    ScanStopsAtFirst(cfg.children, node.marker.index, results, |cfg.children|);
  }

  class ListBlock {
    const children: seq<Child>
    const properties: Style
    const isInTableCell: bool
    const forcedStartOffset: int
    const forcedWidth: int

    var marker: Marker
    var areasGenerated: nat
    /** The property values cached on the first call. */
    var style: Style

    ghost predicate Valid()
      reads this
    {
      StartIndex(marker) <= |children|
    }

    function Settings(): Config
    {
      Config(children, properties, isInTableCell, forcedStartOffset, forcedWidth)
    }

    function State(): NodeState
      reads this
    {
      NodeState(marker, areasGenerated, style)
    }

    constructor (children: seq<Child>, properties: Style, isInTableCell: bool, forcedStartOffset: int, forcedWidth: int)
      ensures Valid()
      ensures Settings() == Config(children, properties, isInTableCell, forcedStartOffset, forcedWidth)
      ensures marker == Start && areasGenerated == 0
    {
      this.children := children;
      this.properties := properties;
      this.isInTableCell := isInTableCell;
      this.forcedStartOffset := forcedStartOffset;
      this.forcedWidth := forcedWidth;
      marker := Start;
      areasGenerated := 0;
      style := Style(0, 0, 0, 0, 0, 0, 0);
    }

    /** The set-up that runs only on the first call (marker at Start):
        cache the properties, set the marker to 0, close the target's pending
        line, add the space before and shift the indents in a table cell. */
    method FirstCallSetUp(area: Area)
      requires Valid()
      modifies this, area
      ensures Valid()
      ensures (State(), area.State()) == Initialize(Settings(), old(State()), old(area.State()))
    {
      if marker == Start {
        style := properties;
        marker := At(0);
        if area.isBlockArea {
          area.End();
        }
        if style.spaceBefore != 0 {
          area.AddDisplaySpace(style.spaceBefore);
        }
        if isInTableCell {
          style := style.(startIndent := style.startIndent + forcedStartOffset,
                          endIndent := style.endIndent + area.allocationWidth - forcedWidth - forcedStartOffset);
        }
      }
    }

    /** Closes the block area into `area`: appended once, the parent grown by
        its height and given its absolute height. */
    static method CloseBlock(area: Area, block: BlockArea)
      modifies area
      ensures area.State() == AppendBlock(old(area.State()), block)
    {
      area.AddChild(Block(block));
      area.IncreaseHeight(block.height);
      area.SetAbsoluteHeight(block.absoluteHeight);
    }

    /** The child loop: lays out the list items from `start` on into `block`
        until a child is not a list item or reports itself incomplete. `i` is
        where it stopped and `incomplete` whether an incomplete item stopped
        it; the block holds exactly the items laid out. */
    static method LayOutItems(children: seq<Child>, results: nat -> ItemResult, start: nat, block0: BlockArea)
      returns (i: nat, incomplete: bool, block: BlockArea)
      requires start <= |children|
      ensures start <= i <= |children|
      ensures incomplete ==> i < |children| && Scan(children, start, results) == Incomplete(i)
      ensures !incomplete && i < |children| ==> Scan(children, start, results) == NotAListItem(i)
      ensures !incomplete && i == |children| ==> Scan(children, start, results) == Finished
      ensures incomplete ==>
                block == block0.(height := block0.height + PlacedHeight(results, start, i + 1),
                                 absoluteHeight := block0.absoluteHeight + PlacedHeight(results, start, i + 1),
                                 items := block0.items + Range(start, i + 1))
      ensures !incomplete ==>
                block == block0.(height := block0.height + PlacedHeight(results, start, i),
                                 absoluteHeight := block0.absoluteHeight + PlacedHeight(results, start, i),
                                 items := block0.items + Range(start, i))
    {
      i := start;
      incomplete := false;
      block := block0;
      while i < |children|
        invariant start <= i <= |children|
        invariant Scan(children, start, results) == Scan(children, i, results)
        invariant block == block0.(height := block0.height + PlacedHeight(results, start, i),
                                   absoluteHeight := block0.absoluteHeight + PlacedHeight(results, start, i),
                                   items := block0.items + Range(start, i))
      {
        if !children[i].ListItemNode? {
          return;
        }
        var result := results(i);
        block := block.(height := block.height + result.height,
                        absoluteHeight := block.absoluteHeight + result.height,
                        items := block.items + [i]);
        if result.status.IsIncomplete() {
          incomplete := true;
          return;
        }
        i := i + 1;
      }
    }

    /** Closes the last block area into `area`, adds the space after the
        list block when it is not zero and opens a fresh line in a target
        that is a block area. */
    static method CloseLastBlock(area: Area, block: BlockArea, spaceAfter: int)
      modifies area
      ensures area.State() == Reopen(AddSpaceAfter(AppendBlock(old(area.State()), block), spaceAfter))
    {
      CloseBlock(area, block);
      if spaceAfter != 0 {
        area.AddDisplaySpace(spaceAfter);
      }
      if area.isBlockArea {
        area.Start();
      }
    }

    /** The child loop of a call, once the set-up is done: lays out the
        children from the marker on into a fresh block area and closes it
        into `area`, unless a child that is not a list item ends the call. */
    method LayOutChildren(area: Area, results: nat -> ItemResult) returns (status: Status)
      requires Valid() && marker.At?
      modifies this, area
      ensures Valid()
      ensures Step(State(), area.State(), status) == Resume(Settings(), old(State()), old(area.State()), results)
    {
      ghost var node1 := State();
      ghost var area1 := area.State();
      ghost var expected := Resume(Settings(), node1, area1, results);

      areasGenerated := areasGenerated + 1;
      var block := NewBlock(style, area.State(), areasGenerated, [], 0, false);
      var start := marker.index;
      var i, incomplete;
      i, incomplete, block := LayOutItems(children, results, start, block);

      if incomplete {
        FilledBlock(node1.style, area1, node1.areasGenerated + 1, Range(start, i + 1), PlacedHeight(results, start, i + 1));
        status := UpgradeStatus(results(i).status, i);
        marker := At(i);
        assert expected == Step(State(), AppendBlock(area1, block), status);
        CloseBlock(area, block);
        return;
      }
      if i < |children| {
        return Ok;
      }

      FilledBlock(node1.style, area1, node1.areasGenerated + 1, Range(start, i), PlacedHeight(results, start, i));
      block := block.(isLast := true);
      assert expected == Step(State(), Reopen(AddSpaceAfter(AppendBlock(area1, block), style.spaceAfter)), Ok);
      CloseLastBlock(area, block, style.spaceAfter);
      return Ok;
    }

    /** One call of the list block's layout into `area`: the first-call
        set-up, then the child loop. */
    method Layout(area: Area, results: nat -> ItemResult) returns (status: Status)
      requires Valid()
      modifies this, area
      ensures Valid()
      ensures Step(State(), area.State(), status) == LayoutStep(Settings(), old(State()), old(area.State()), results)
    {
      FirstCallSetUp(area);
      status := LayOutChildren(area, results);
    }
  }
}
