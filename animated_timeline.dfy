/** The animated timeline: items light up the first time their observer
    reports them intersecting and stay lit, and a progress line follows how
    far the container has scrolled past the middle of the viewport. */
module AnimatedTimeline {
  import opened Numeric

  /** `(viewportHeight / 2 - containerTop) / containerHeight`, clamped to
      [0, 1]; `None` where the division is 0/0 and the result is NaN. */
  function LineProgress(viewportHeight: real, top: real, height: real): (r: Option<real>)
    ensures r.None? <==> height == 0.0 && viewportHeight / 2.0 == top
    ensures r.Some? ==> 0.0 <= r.value <= 1.0
    ensures height > 0.0 && top >= viewportHeight / 2.0 ==> r == Some(0.0)
    ensures height > 0.0 && top + height <= viewportHeight / 2.0 ==> r == Some(1.0)
  {
    ScrollProgress(viewportHeight / 2.0 - top, height)
  }

  /** The further the container has scrolled up, the longer the line. */
  lemma ProgressMonotone(viewportHeight: real, top1: real, top2: real, height: real)
    requires height > 0.0 && top2 <= top1
    ensures LineProgress(viewportHeight, top1, height).value
              <= LineProgress(viewportHeight, top2, height).value
  {
    ScrollProgressMonotone(viewportHeight / 2.0 - top1, viewportHeight / 2.0 - top2, height);
  }

  /** The style of the item at `index`. */
  datatype Style = Style(opacity: real, translateX: real, delayMs: int)

  function ItemStyle(visible: set<string>, id: string, index: nat): (s: Style)
    ensures id in visible ==> s.opacity == 1.0 && s.translateX == 0.0
    ensures id !in visible ==> s.opacity == 0.3 && s.translateX == -20.0
    ensures s.delayMs == index * 50
  {
    var shown := id in visible;
    Style(if shown then 1.0 else 0.3, if shown then 0.0 else -20.0, index * 50)
  }

  /** An item once lit stays lit when the visible set grows. */
  lemma LitStaysLit(v1: set<string>, v2: set<string>, id: string, index: nat)
    requires v1 <= v2 && ItemStyle(v1, id, index).opacity == 1.0
    ensures ItemStyle(v2, id, index) == ItemStyle(v1, id, index)
  {
  }

  /** The component's state, with the observers and the scroll listener it
      holds while mounted. */
  class Timeline {
    var visible: set<string>
    var lineHeight: Option<real>
    var observed: seq<string>
    var listening: bool

    predicate Valid()
      reads this
    {
      lineHeight.Some? ==> 0.0 <= lineHeight.value <= 100.0
    }

    constructor ()
      ensures visible == {} && lineHeight == Some(0.0)
      ensures observed == [] && !listening
      ensures Valid()
    {
      visible := {};
      lineHeight := Some(0.0);
      observed := [];
      listening := false;
    }

    /** `handleScroll`: the line height in percent. */
    method HandleScroll(viewportHeight: real, top: real, height: real)
      modifies this
      ensures lineHeight == (match LineProgress(viewportHeight, top, height)
                             case None => None
                             case Some(p) => Some(p * 100.0))
      ensures visible == old(visible) && observed == old(observed) && listening == old(listening)
      ensures Valid()
    {
      var p := LineProgress(viewportHeight, top, height);
      match p
      case None => lineHeight := None;
      case Some(q) => lineHeight := Some(q * 100.0);
    }

    /** The effect: one observer per item element, the scroll listener, and
        an immediate `handleScroll`. */
    method Mount(itemIds: seq<string>, viewportHeight: real, top: real, height: real)
      modifies this
      ensures observed == itemIds && listening
      ensures visible == old(visible)
      ensures lineHeight == (match LineProgress(viewportHeight, top, height)
                             case None => None
                             case Some(p) => Some(p * 100.0))
      ensures Valid()
    {
      observed := itemIds;
      listening := true;
      HandleScroll(viewportHeight, top, height);
    }

    /** The effect's cleanup: every observer disconnected, the listener
        removed; what is already visible stays visible. */
    method Cleanup()
      modifies this
      ensures observed == [] && !listening
      ensures visible == old(visible) && lineHeight == old(lineHeight)
    {
      observed := [];
      listening := false;
    }

    /** The callback of the observer on item `k`: its id joins the set when
        any entry intersects; an empty id attribute does nothing. */
    method OnEntries(k: nat, intersecting: seq<bool>)
      requires k < |observed|
      modifies this
      ensures observed == old(observed) && listening == old(listening)
      ensures lineHeight == old(lineHeight)
      ensures old(visible) <= visible
      ensures visible == old(visible) + (if observed[k] != "" && true in intersecting
                                         then {observed[k]} else {})
    {
      var id := observed[k];
      var i := 0;
      while i < |intersecting|
        invariant 0 <= i <= |intersecting|
        invariant observed == old(observed) && listening == old(listening)
        invariant lineHeight == old(lineHeight)
        invariant visible == old(visible) + (if id != "" && true in intersecting[..i]
                                             then {id} else {})
      {
        assert intersecting[..i + 1] == intersecting[..i] + [intersecting[i]];
        if id != "" && intersecting[i] {
          visible := visible + {id};
        }
        i := i + 1;
      }
      assert intersecting[..i] == intersecting;
    }
  }
}
