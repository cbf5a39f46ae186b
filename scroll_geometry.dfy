/**
  The page geometry behind scroll tracking. The container's parent is a tall block; as the
  page scrolls, its top edge moves up past the viewport. The scroll handler turns the
  parent's bounding rectangle into a fraction of the scrollable distance, and
  `setScrollPercent` turns a fraction back into the page offset to scroll to.
*/
module ScrollGeometry {

  /** How far the parent has been scrolled through: `-rect.top / (rect.height - innerHeight)`,
      the fraction of the scrollable distance its top has moved above the viewport. The
      scrollable distance must be nonzero for the quotient to be a number. */
  function ScrollFraction(rectTop: real, rectHeight: real, innerHeight: real): (fraction: real)
    requires rectHeight != innerHeight
    ensures fraction * (rectHeight - innerHeight) == -rectTop
  {
    -rectTop / (rectHeight - innerHeight)
  }

  /** The page offset at which the parent is scrolled through by `percent`:
      `rect.top + pageYOffset + (rect.height - innerHeight) * percent`. Scrolled there, the
      parent's top sits `percent` of the scrollable distance above the viewport. */
  function ScrollTarget(percent: real, rectTop: real, rectHeight: real, innerHeight: real, pageYOffset: real): (offset: real)
    ensures TopAfterScroll(rectTop, pageYOffset, offset) == -((rectHeight - innerHeight) * percent)
  {
    rectTop + pageYOffset + (rectHeight - innerHeight) * percent
  }

  /** Scrolling the page from `fromOffset` to `toOffset` moves every element's viewport
      top up by the distance scrolled. */
  function TopAfterScroll(rectTop: real, fromOffset: real, toOffset: real): real {
    rectTop - (toOffset - fromOffset)
  }

  /** Scrolling to the offset `setScrollPercent` computes for `percent` makes the scroll
      handler read `percent` back: the two formulas are inverse to each other. */
  lemma ScrollRoundTrip(percent: real, rectTop: real, rectHeight: real, innerHeight: real, pageYOffset: real)
    requires rectHeight != innerHeight
    ensures var landed := ScrollTarget(percent, rectTop, rectHeight, innerHeight, pageYOffset);
      ScrollFraction(TopAfterScroll(rectTop, pageYOffset, landed), rectHeight, innerHeight) == percent
  {
    var span := rectHeight - innerHeight;
    var landed := ScrollTarget(percent, rectTop, rectHeight, innerHeight, pageYOffset);
    assert TopAfterScroll(rectTop, pageYOffset, landed) == -(span * percent);
    assert -(-(span * percent)) / span == percent;
  }

  /** Asking for the fraction the page is already at yields the current offset, so
      `setScrollPercent` of the handler's own reading does not scroll. */
  lemma ScrollTargetOfCurrentFraction(rectTop: real, rectHeight: real, innerHeight: real, pageYOffset: real)
    requires rectHeight != innerHeight
    ensures ScrollTarget(ScrollFraction(rectTop, rectHeight, innerHeight), rectTop, rectHeight, innerHeight, pageYOffset)
      == pageYOffset
  {
    var span := rectHeight - innerHeight;
    assert span * (-rectTop / span) == -rectTop;
  }

  /** When the parent is taller than the viewport, a larger fraction is further down the
      page, and each fraction names its own offset. */
  lemma ScrollTargetMonotone(p: real, q: real, rectTop: real, rectHeight: real, innerHeight: real, pageYOffset: real)
    requires rectHeight > innerHeight
    ensures p < q <==>
      ScrollTarget(p, rectTop, rectHeight, innerHeight, pageYOffset)
        < ScrollTarget(q, rectTop, rectHeight, innerHeight, pageYOffset)
  {
    var span := rectHeight - innerHeight;
    assert ScrollTarget(q, rectTop, rectHeight, innerHeight, pageYOffset)
      - ScrollTarget(p, rectTop, rectHeight, innerHeight, pageYOffset) == span * (q - p);
    if p < q {
      assert 0.0 < span * (q - p);
    } else if q < p {
      assert 0.0 < span * (p - q);
    }
  }
}
