/** What one layout call of a list block promises, and what a sequence of
    calls, one per page, achieves. Every lemma here is about the functional
    specification `LayoutStep`, which `ListBlock.Layout` is proved to
    implement. */
module ListBlockProperties {
  import opened Areas
  import opened Flow
  import opened Outcomes

  /** What the child loop appends after the set-up: nothing, or a block
      area of the new generation, flagged first exactly when it is the list
      block's first area, followed by display space at most. */
  lemma ResumeAppendsOneBlock(cfg: Config, node: NodeState, area: AreaState, results: nat -> ItemResult)
    requires node.marker.At? && MarkerInRange(cfg, node)
    ensures var o := Resume(cfg, node, area, results);
            var n := |area.children|;
            && area.children <= o.area.children
            && o.node.style == node.style
            && (forall k :: n < k < |o.area.children| ==> o.area.children[k].DisplaySpace?)
            && (n < |o.area.children| ==>
                  && o.area.children[n].Block?
                  && o.area.children[n].block.generation == node.areasGenerated + 1
                  && (o.area.children[n].block.isFirst <==> node.areasGenerated == 0))
  {
    var start := node.marker.index;
    var generation := node.areasGenerated + 1;
    match Scan(cfg.children, start, results)
    case NotAListItem(_) =>
    case Incomplete(i) =>
      var block := NewBlock(node.style, area, generation, Range(start, i + 1), PlacedHeight(results, start, i + 1), false);
      assert Resume(cfg, node, area, results).area.children == area.children + [Block(block)];
    case Finished =>
      var n := |cfg.children|;
      var block := NewBlock(node.style, area, generation, Range(start, n), PlacedHeight(results, start, n), true);
      var spaceAfter := node.style.spaceAfter;
      assert Resume(cfg, node, area, results).area.children ==
               area.children + [Block(block)] + (if spaceAfter != 0 then [DisplaySpace(spaceAfter)] else []);
  }

  /** The set-up runs on the first call only: the children of the target
      area are only ever appended to; the space before the list block is
      the first thing appended on the first call exactly when it is not zero,
      and a later call starts with its block area, never with space. */
  lemma SetUpOnFirstCallOnly(cfg: Config, node: NodeState, area: AreaState, results: nat -> ItemResult)
    requires MarkerInRange(cfg, node)
    ensures var o := LayoutStep(cfg, node, area, results);
            var n := |area.children|;
            && area.children <= o.area.children
            && (node.marker.Start? ==>
                  (cfg.properties.spaceBefore != 0 <==> n < |o.area.children| && o.area.children[n].DisplaySpace?))
            && (node.marker.At? ==> n < |o.area.children| ==> o.area.children[n].Block?)
            && (node.marker.At? ==> o.node.style == node.style)
  {
    var init := Initialize(cfg, node, area);
    ResumeAppendsOneBlock(cfg, init.0, init.1, results);
    var o := Resume(cfg, init.0, init.1, results);
    assert area.children <= init.1.children;
    if node.marker.Start? && cfg.properties.spaceBefore == 0 {
      assert init.1.children == area.children;
    }
  }

  /** Each call counts one more generated area, and appends at most one
      block area: it carries the new count as its generation and is flagged
      first exactly when it is the first area the list block generates. */
  lemma EachCallGeneratesOneArea(cfg: Config, node: NodeState, area: AreaState, results: nat -> ItemResult)
    requires MarkerInRange(cfg, node)
    ensures var o := LayoutStep(cfg, node, area, results);
            && o.node.areasGenerated == node.areasGenerated + 1
            && (forall k, m :: |area.children| <= k < m < |o.area.children| ==>
                  !(o.area.children[k].Block? && o.area.children[m].Block?))
            && (forall k :: |area.children| <= k < |o.area.children| && o.area.children[k].Block? ==>
                  o.area.children[k].block.generation == node.areasGenerated + 1
                  && (o.area.children[k].block.isFirst <==> node.areasGenerated == 0))
  {
    var init := Initialize(cfg, node, area);
    ResumeAppendsOneBlock(cfg, init.0, init.1, results);
    var o := Resume(cfg, init.0, init.1, results);
    var n := |area.children|;
    var m := |init.1.children|;
    // What set-up appends is display space at most.
    assert forall k :: n <= k < m ==> o.area.children[k] == init.1.children[k] && init.1.children[k].DisplaySpace?;
  }

  /** A list item that reports an incomplete status ends the call: the
      marker is set to its index so that the same child is retried on the
      next call, the block area holding the children from the marker through
      it is appended once, the target grows, from its height after the
      set-up, by that block's height and the
      child's status is passed up, upgraded from AreaFullNone to AreaFullSome
      when it is not child 0. */
  lemma IncompleteChildIsRetried(cfg: Config, node: NodeState, area: AreaState, results: nat -> ItemResult, i: nat)
    requires MarkerInRange(cfg, node)
    requires StartIndex(node.marker) <= i < |cfg.children|
    requires forall k :: StartIndex(node.marker) <= k < i ==> Completes(cfg.children, results, k)
    requires cfg.children[i].ListItemNode? && results(i).status.IsIncomplete()
    ensures var o := LayoutStep(cfg, node, area, results);
            var init := Initialize(cfg, node, area).1;
            var start := StartIndex(node.marker);
            && o.node.marker == At(i)
            && o.status == UpgradeStatus(results(i).status, i)
            && o.status.IsIncomplete()
            && |o.area.children| == |init.children| + 1
            && o.area.children[..|init.children|] == init.children
            && o.area.children[|init.children|].Block?
            && var b := o.area.children[|init.children|].block;
               && b.items == Range(start, i + 1)
               && b.height == PlacedHeight(results, start, i + 1)
               && !b.isLast
               && o.area.height == init.height + b.height
               && o.area.absoluteHeight == b.absoluteHeight == init.absoluteHeight + b.height
  {
    var init := Initialize(cfg, node, area);
    ResumeAtIncomplete(cfg, init.0, init.1, results, i);
  }

  /** A child that is not a list item ends the call at once: it reports Ok,
      the marker stays where the call began and nothing is appended after
      the set-up. */
  lemma NonListItemEndsCall(cfg: Config, node: NodeState, area: AreaState, results: nat -> ItemResult, j: nat)
    requires MarkerInRange(cfg, node)
    requires StartIndex(node.marker) <= j < |cfg.children|
    requires forall k :: StartIndex(node.marker) <= k < j ==> Completes(cfg.children, results, k)
    requires !cfg.children[j].ListItemNode?
    ensures var o := LayoutStep(cfg, node, area, results);
            && o.status == Ok
            && o.node.marker == At(StartIndex(node.marker))
            && o.area == Initialize(cfg, node, area).1
  {
    var init := Initialize(cfg, node, area);
    ResumeAtNonListItem(cfg, init.0, init.1, results, j);
  }

  /** When every child from the marker on completes, the last block area,
      flagged last and holding all of them, is appended, the target grows,
      from its height after the set-up, by its height, the space after follows when it is not zero, a target that
      is a block area gets a fresh line, and the call reports Ok. The marker
      stays where the call began. */
  lemma AllItemsCompleteCloseTheList(cfg: Config, node: NodeState, area: AreaState, results: nat -> ItemResult)
    requires MarkerInRange(cfg, node)
    requires forall k :: StartIndex(node.marker) <= k < |cfg.children| ==> Completes(cfg.children, results, k)
    ensures var o := LayoutStep(cfg, node, area, results);
            var init := Initialize(cfg, node, area);
            var start := StartIndex(node.marker);
            var spaceAfter := init.0.style.spaceAfter;
            && o.status == Ok
            && o.node.marker == At(start)
            && |o.area.children| > |init.1.children|
            && o.area.children[|init.1.children|].Block?
            && var b := o.area.children[|init.1.children|].block;
               && o.area.children == init.1.children + [Block(b)] + (if spaceAfter != 0 then [DisplaySpace(spaceAfter)] else [])
               && b.isLast
               && b.items == Range(start, |cfg.children|)
               && b.height == PlacedHeight(results, start, |cfg.children|)
               && o.area.height == init.1.height + b.height
               && (area.isBlockArea ==> o.area.lineOpen)
  {
    var init := Initialize(cfg, node, area);
    ResumeToEnd(cfg, init.0, init.1, results);
  }

  /** The status a call reports: Ok exactly when no list item from the
      marker on reported an incomplete status before the children ran out or
      a non-list-item child was met; otherwise the status of the child the
      marker now designates, upgraded; AreaFullNone only when that child is
      child 0. */
  lemma StatusReportsWhereTheCallStopped(cfg: Config, node: NodeState, area: AreaState, results: nat -> ItemResult)
    requires MarkerInRange(cfg, node)
    ensures var o := LayoutStep(cfg, node, area, results);
            var i := StartIndex(o.node.marker);
            && (o.status.IsIncomplete() <==> Scan(cfg.children, StartIndex(node.marker), results).Incomplete?)
            && (o.status.IsIncomplete() ==>
                  i < |cfg.children| && cfg.children[i].ListItemNode?
                  && o.status == UpgradeStatus(results(i).status, i))
            && (o.status == AreaFullNone ==> i == 0)
  {
    var init := Initialize(cfg, node, area);
    var start := StartIndex(node.marker);
    match Scan(cfg.children, start, results)
    case NotAListItem(_) =>
    case Incomplete(i) =>
    case Finished =>
  }

  /** The upgrade is decided by the child's index alone, not by the marker
      the call began at: a call resumed at child 1 whose child 1 again places
      nothing reports AreaFullSome, although nothing was placed on this page. */
  lemma ResumedChildPlacingNothingReportsSome(area: AreaState, results: nat -> ItemResult)
    requires results(1) == ItemResult(AreaFullNone, 0)
    ensures var cfg := Config([ListItemNode, ListItemNode], Style(0, 0, 0, 0, 0, 0, 0), false, 0, 0);
            var o := LayoutStep(cfg, NodeState(At(1), 1, Style(0, 0, 0, 0, 0, 0, 0)), area, results);
            && o.status == AreaFullSome
            && o.node.marker == At(1)
            && o.area.height == area.height
  {
    var cfg := Config([ListItemNode, ListItemNode], Style(0, 0, 0, 0, 0, 0, 0), false, 0, 0);
    var node := NodeState(At(1), 1, Style(0, 0, 0, 0, 0, 0, 0));
    IncompleteChildIsRetried(cfg, node, area, results, 1);
  }

  /** Element `k` of `Range(lo, hi)` is `lo + k`. */
  lemma {:induction false} RangeElements(lo: nat, hi: nat)
    ensures forall k :: 0 <= k < |Range(lo, hi)| ==> Range(lo, hi)[k] == lo + k
    decreases hi - lo
  {
    if lo < hi {
      RangeElements(lo, hi - 1);
      assert Range(lo, hi) == Range(lo, hi - 1) + [hi - 1];
    }
  }

  /** The child loop lays out no child before the marker: every list item
      in a block area it appends lies between the marker and the end of the
      children. */
  lemma ResumeLaysOutFromTheMarker(cfg: Config, node: NodeState, area: AreaState, results: nat -> ItemResult)
    requires node.marker.At? && MarkerInRange(cfg, node)
    ensures var o := Resume(cfg, node, area, results);
            forall k :: |area.children| <= k < |o.area.children| && o.area.children[k].Block? ==>
              forall x :: x in o.area.children[k].block.items ==> node.marker.index <= x < |cfg.children|
  {
    var start := node.marker.index;
    var s := Scan(cfg.children, start, results);
    if s.Incomplete? {
      RangeElements(start, s.index + 1);
    } else if s.Finished? {
      RangeElements(start, |cfg.children|);
    }
  }

  /** The children before the marker are never laid out again: every list
      item in the block area a call appends lies between the marker the call
      began at and the end of the children. */
  lemma NoChildBeforeTheMarkerIsLaidOut(cfg: Config, node: NodeState, area: AreaState, results: nat -> ItemResult)
    requires MarkerInRange(cfg, node)
    ensures var o := LayoutStep(cfg, node, area, results);
            forall k :: |area.children| <= k < |o.area.children| && o.area.children[k].Block? ==>
              forall x :: x in o.area.children[k].block.items ==> StartIndex(node.marker) <= x < |cfg.children|
  {
    var init := Initialize(cfg, node, area);
    var o := Resume(cfg, init.0, init.1, results);
    ResumeLaysOutFromTheMarker(cfg, init.0, init.1, results);
    ResumeAppendsOneBlock(cfg, init.0, init.1, results);
    assert forall k :: |area.children| <= k < |init.1.children| ==> o.area.children[k] == init.1.children[k];
  }

  lemma {:induction false} RangeConcat(a: nat, b: nat, c: nat)
    requires a <= b <= c
    ensures Range(a, b) + Range(b, c) == Range(a, c)
    decreases c - b
  {
    if b < c {
      RangeConcat(a, b, c - 1);
      assert Range(a, c) == Range(a, c - 1) + [c - 1];
      assert Range(b, c) == Range(b, c - 1) + [c - 1];
    }
  }

  /** The list items among `items` that reported themselves complete. */
  function CompletedItems(items: seq<nat>, results: nat -> ItemResult): (r: seq<nat>)
    ensures |r| <= |items|
    ensures forall k :: k in r ==> !results(k).status.IsIncomplete()
  {
    if items == [] then []
    else
      var last := items[|items| - 1];
      CompletedItems(items[..|items| - 1], results) + (if results(last).status.IsIncomplete() then [] else [last])
  }

  lemma {:induction false} CompletedPrefix(results: nat -> ItemResult, lo: nat, hi: nat)
    requires lo <= hi
    requires forall k :: lo <= k < hi ==> !results(k).status.IsIncomplete()
    ensures CompletedItems(Range(lo, hi), results) == Range(lo, hi)
    decreases hi - lo
  {
    if lo < hi {
      var r := Range(lo, hi);
      assert r == Range(lo, hi - 1) + [hi - 1];
      assert r[..|r| - 1] == Range(lo, hi - 1);
      CompletedPrefix(results, lo, hi - 1);
      assert CompletedItems(r, results) == CompletedItems(Range(lo, hi - 1), results) + [hi - 1];
      assert CompletedItems(r, results) == r;
    }
  }

  /** The block area a call appends after its set-up: the first block area
      among `children`. */
  function FirstBlock(children: seq<AreaChild>): (b: Option<BlockArea>)
    ensures b.Some? <==> exists k :: 0 <= k < |children| && children[k].Block?
    ensures b.Some? ==> exists k :: 0 <= k < |children| && children[k] == Block(b.value)
  {
    if children == [] then None
    else if children[0].Block? then Some(children[0].block)
    else
      var rest := FirstBlock(children[1..]);
      assert forall k :: 1 <= k < |children| ==> children[k] == children[1..][k - 1];
      rest
  }

  /** One page: the fresh target area and what the list items report there. */
  datatype Page = Page(area: AreaState, results: nat -> ItemResult)

  /** The outcome of laying out a list block over successive pages. */
  datatype Run = Run(node: NodeState, finished: bool, completed: seq<nat>)

  /** Layout called once per page until a call reports Ok or the pages run
      out: the node's final state, whether the last call reported Ok, and
      the list items that completed, page after page. */
  function LayOutPages(cfg: Config, node: NodeState, pages: seq<Page>): (r: Run)
    requires MarkerInRange(cfg, node)
    ensures MarkerInRange(cfg, r.node)
    decreases |pages|
  {
    if pages == [] then Run(node, false, [])
    else
      var o := LayoutStep(cfg, node, pages[0].area, pages[0].results);
      var placed := match FirstBlock(o.area.children[|pages[0].area.children|..])
                    case None => []
                    case Some(b) => CompletedItems(b.items, pages[0].results);
      if o.status.IsIncomplete() then
        var rest := LayOutPages(cfg, o.node, pages[1..]);
        Run(rest.node, rest.finished, placed + rest.completed)
      else
        Run(o.node, true, placed)
  }

  /** A call that stops at incomplete list item `i` completes the list
      items from `lo` up to `i`, not `i` itself. */
  lemma CompletedUpToIncomplete(results: nat -> ItemResult, lo: nat, i: nat)
    requires lo <= i
    requires forall k :: lo <= k < i ==> !results(k).status.IsIncomplete()
    requires results(i).status.IsIncomplete()
    ensures CompletedItems(Range(lo, i + 1), results) == Range(lo, i)
  {
    var r := Range(lo, i + 1);
    assert r[..|r| - 1] == Range(lo, i);
    CompletedPrefix(results, lo, i);
  }

  /** Past the children the target had, and past display space, the first
      block area is the one at index `|mid|`. */
  lemma FirstBlockAfterSetUp(before: seq<AreaChild>, mid: seq<AreaChild>, after: seq<AreaChild>)
    requires before <= mid && |mid| < |after| && after[..|mid|] == mid
    requires forall k :: |before| <= k < |mid| ==> mid[k].DisplaySpace?
    requires after[|mid|].Block?
    ensures FirstBlock(after[|before|..]) == Some(after[|mid|].block)
  {
    var tail := after[|before|..];
    assert forall k :: 0 <= k < |mid| - |before| ==> tail[k] == mid[|before| + k];
    FirstBlockAfterSpace(tail, |mid| - |before|);
  }

  /** The block area a call appends, found past the set-up's display
      space. */
  lemma AppendedBlockFound(cfg: Config, node: NodeState, area: AreaState, results: nat -> ItemResult)
    requires MarkerInRange(cfg, node)
    requires var o := LayoutStep(cfg, node, area, results);
             var m := |Initialize(cfg, node, area).1.children|;
             m < |o.area.children| && o.area.children[..m] == Initialize(cfg, node, area).1.children && o.area.children[m].Block?
    ensures var o := LayoutStep(cfg, node, area, results);
            var m := |Initialize(cfg, node, area).1.children|;
            FirstBlock(o.area.children[|area.children|..]) == Some(o.area.children[m].block)
  {
    var init := Initialize(cfg, node, area).1;
    assert area.children <= init.children;
    assert forall k :: |area.children| <= k < |init.children| ==> init.children[k].DisplaySpace?;
    FirstBlockAfterSetUp(area.children, init.children, LayoutStep(cfg, node, area, results).area.children);
  }

  /** One call when every child is a list item: the list items it completes
      are the children from its marker up to the child it stops at, or up
      to the end when it finishes. */
  lemma CallCompletesUpToItsStop(cfg: Config, node: NodeState, area: AreaState, results: nat -> ItemResult)
    requires MarkerInRange(cfg, node)
    requires forall k :: 0 <= k < |cfg.children| ==> cfg.children[k].ListItemNode?
    ensures var o := LayoutStep(cfg, node, area, results);
            var start := StartIndex(node.marker);
            var end := if o.status.IsIncomplete() then StartIndex(o.node.marker) else |cfg.children|;
            && start <= end <= |cfg.children|
            && FirstBlock(o.area.children[|area.children|..]).Some?
            && CompletedItems(FirstBlock(o.area.children[|area.children|..]).value.items, results) == Range(start, end)
  {
    var start := StartIndex(node.marker);
    var s := Scan(cfg.children, start, results);
    if s.NotAListItem? {
      assert false;
    } else if s.Incomplete? {
      var i := s.index;
      forall k | start <= k < i
        ensures !results(k).status.IsIncomplete()
      {
        assert Completes(cfg.children, results, k);
      }
      IncompleteChildIsRetried(cfg, node, area, results, i);
      AppendedBlockFound(cfg, node, area, results);
      CompletedUpToIncomplete(results, start, i);
    } else {
      var n := |cfg.children|;
      forall k | start <= k < n
        ensures !results(k).status.IsIncomplete()
      {
        assert Completes(cfg.children, results, k);
      }
      AllItemsCompleteCloseTheList(cfg, node, area, results);
      AppendedBlockFound(cfg, node, area, results);
      CompletedPrefix(results, start, n);
    }
  }

  lemma {:induction false} FirstBlockAfterSpace(children: seq<AreaChild>, m: nat)
    requires m < |children| && children[m].Block?
    requires forall k :: 0 <= k < m ==> children[k].DisplaySpace?
    ensures FirstBlock(children) == Some(children[m].block)
    decreases m
  {
    if m > 0 {
      FirstBlockAfterSpace(children[1..], m - 1);
    }
  }

  /** Resumption places every child once, in order: when every child is a
      list item, the list items completed over successive pages are exactly
      the children from the first call's marker on, each once and in order,
      up to the end of the list when the last call reported Ok, and up to
      the child the marker designates otherwise. */
  lemma {:induction false} ResumptionCompletesEveryChildOnce(cfg: Config, node: NodeState, pages: seq<Page>)
    requires MarkerInRange(cfg, node)
    requires forall k :: 0 <= k < |cfg.children| ==> cfg.children[k].ListItemNode?
    ensures var r := LayOutPages(cfg, node, pages);
            r.completed == Range(StartIndex(node.marker), if r.finished then |cfg.children| else StartIndex(r.node.marker))
    decreases |pages|
  {
    if pages != [] {
      var o := LayoutStep(cfg, node, pages[0].area, pages[0].results);
      CallCompletesUpToItsStop(cfg, node, pages[0].area, pages[0].results);
      if o.status.IsIncomplete() {
        ResumptionCompletesEveryChildOnce(cfg, o.node, pages[1..]);
        var rest := LayOutPages(cfg, o.node, pages[1..]);
        var end := if rest.finished then |cfg.children| else StartIndex(rest.node.marker);
        assert StartIndex(o.node.marker) <= end by {
          if !rest.finished {
            MarkerNeverMovesBack(cfg, o.node, pages[1..]);
          }
        }
        RangeConcat(StartIndex(node.marker), StartIndex(o.node.marker), end);
      }
    }
  }

  /** Over successive pages the marker never moves back. */
  lemma {:induction false} MarkerNeverMovesBack(cfg: Config, node: NodeState, pages: seq<Page>)
    requires MarkerInRange(cfg, node)
    ensures StartIndex(node.marker) <= StartIndex(LayOutPages(cfg, node, pages).node.marker)
    decreases |pages|
  {
    if pages != [] {
      var o := LayoutStep(cfg, node, pages[0].area, pages[0].results);
      if o.status.IsIncomplete() {
        MarkerNeverMovesBack(cfg, o.node, pages[1..]);
      }
    }
  }

  /** A scripted two-page run of three list items. On the first page the
      oracle has child 0 complete with height 60 and child 1 report
      AreaFullNone with height 0, so the call reports AreaFullSome and
      resumes at child 1; on the second page every child completes with
      height 60 and the call reports Ok. The marker then still designates
      child 1, where the last call began. */
  lemma TwoPageExample(page1: AreaState, page2: AreaState)
    ensures var cfg := Config([ListItemNode, ListItemNode, ListItemNode], Style(0, 0, 0, 0, 0, 0, 0), false, 0, 0);
            var node := NodeState(Start, 0, Style(0, 0, 0, 0, 0, 0, 0));
            var first := (k: nat) => if k == 0 then ItemResult(Ok, 60) else ItemResult(AreaFullNone, 0);
            var second := (k: nat) => ItemResult(Ok, 60);
            var r := LayOutPages(cfg, node, [Page(page1, first), Page(page2, second)]);
            && LayoutStep(cfg, node, page1, first).status == AreaFullSome
            && LayoutStep(cfg, node, page1, first).node.marker == At(1)
            && r.finished
            && r.completed == [0, 1, 2]
            && r.node.marker == At(1)
  {
    var cfg := Config([ListItemNode, ListItemNode, ListItemNode], Style(0, 0, 0, 0, 0, 0, 0), false, 0, 0);
    var node := NodeState(Start, 0, Style(0, 0, 0, 0, 0, 0, 0));
    var first := (k: nat) => if k == 0 then ItemResult(Ok, 60) else ItemResult(AreaFullNone, 0);
    var second := (k: nat) => ItemResult(Ok, 60);
    var pages := [Page(page1, first), Page(page2, second)];
    IncompleteChildIsRetried(cfg, node, page1, first, 1);
    var o1 := LayoutStep(cfg, node, page1, first);
    AllItemsCompleteCloseTheList(cfg, o1.node, page2, second);
    ResumptionCompletesEveryChildOnce(cfg, node, pages);
    assert pages[1..] == [Page(page2, second)];
    assert Range(0, 3) == [0, 1, 2];
  }
}
