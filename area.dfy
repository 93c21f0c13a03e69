/** The part of the area tree and of the layout status that the list-block
    step touches. An area is a small record: its current and absolute
    heights, the children appended to it and whether its pending line is
    open. Area geometry, fonts, pages and ID references are outside this
    model. */
module Areas {

  /** The outcome a layout call reports. `Other` stands for every further
      status code. */
  datatype Status = Ok | AreaFullNone | AreaFullSome | Other(code: int)
  {
    /** Every status but Ok means the node has more to lay out. */
    predicate IsIncomplete() { !Ok? }
  }

  /** A block area as the list block builds it, closed and appended to its
      parent. `items` lists, in order, the indices of the list items laid out
      into it; `generation` is the node's area count when it was made (its
      lineage pair). */
  datatype BlockArea = BlockArea(
    allocationWidth: int,
    startIndent: int,
    endIndent: int,
    align: int,
    alignLast: int,
    lineHeight: int,
    height: int,
    absoluteHeight: int,
    isFirst: bool,
    isLast: bool,
    generation: nat,
    items: seq<nat>)

  datatype AreaChild = DisplaySpace(size: int) | Block(block: BlockArea)

  /** A snapshot of an Area. */
  datatype AreaState = AreaState(
    isBlockArea: bool,
    allocationWidth: int,
    height: int,
    absoluteHeight: int,
    children: seq<AreaChild>,
    lineOpen: bool)

  /** A target area: append-only children and accumulated height. */
  class Area {
    const isBlockArea: bool
    const allocationWidth: int
    var height: int
    var absoluteHeight: int
    var children: seq<AreaChild>
    var lineOpen: bool

    constructor (isBlockArea: bool, allocationWidth: int, absoluteHeight: int)
      ensures State() == AreaState(isBlockArea, allocationWidth, 0, absoluteHeight, [], true)
    {
      this.isBlockArea := isBlockArea;
      this.allocationWidth := allocationWidth;
      height := 0;
      this.absoluteHeight := absoluteHeight;
      children := [];
      lineOpen := true;
    }

    function State(): AreaState
      reads this
    {
      AreaState(isBlockArea, allocationWidth, height, absoluteHeight, children, lineOpen)
    }

    method AddChild(child: AreaChild)
      modifies this
      ensures children == old(children) + [child]
      ensures height == old(height) && absoluteHeight == old(absoluteHeight) && lineOpen == old(lineOpen)
    {
      children := children + [child];
    }

    method IncreaseHeight(amount: int)
      modifies this
      ensures height == old(height) + amount
      ensures children == old(children) && absoluteHeight == old(absoluteHeight) && lineOpen == old(lineOpen)
    {
      height := height + amount;
    }

    method SetAbsoluteHeight(h: int)
      modifies this
      ensures absoluteHeight == h
      ensures children == old(children) && height == old(height) && lineOpen == old(lineOpen)
    {
      absoluteHeight := h;
    }

    /** Records display space as a child of the area. */
    method AddDisplaySpace(size: int)
      modifies this
      ensures children == old(children) + [DisplaySpace(size)]
      ensures height == old(height) && absoluteHeight == old(absoluteHeight) && lineOpen == old(lineOpen)
    {
      children := children + [DisplaySpace(size)];
    }

    /** Closes the area's pending line. */
    method End()
      modifies this
      ensures !lineOpen
      ensures children == old(children) && height == old(height) && absoluteHeight == old(absoluteHeight)
    {
      lineOpen := false;
    }

    /** Opens a fresh line in the area. */
    method Start()
      modifies this
      ensures lineOpen
      ensures children == old(children) && height == old(height) && absoluteHeight == old(absoluteHeight)
    {
      lineOpen := true;
    }
  }
}
