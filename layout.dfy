/**
 * Page geometry shared by the controls and the video component: an element's
 * page offset is the sum of its own offset and those of its `offsetParent`
 * ancestors, and a pointer position over a bar is a fraction of the bar's
 * width, clamped to [0, 1].
 */
module Layout {
  import opened Wrappers
  import opened Numbers

  /**
   * An element as the pointer handlers see it: the `offsetLeft` (or
   * `offsetTop`) of the element and of each `offsetParent` above it, nearest
   * first, and the element's own `offsetWidth`.
   */
  datatype Box = Box(offsets: seq<real>, offsetWidth: real)

  /** The total offset of a chain of elements. */
  function Sum(chain: seq<real>): real
    decreases |chain|
  {
    if chain == [] then 0.0 else chain[0] + Sum(chain[1..])
  }

  /** An element nested in a container lies at its offset within the container plus the container's own. */
  lemma {:induction false} SumAppend(inner: seq<real>, outer: seq<real>)
    ensures Sum(inner + outer) == Sum(inner) + Sum(outer)
    decreases |inner|
  {
    if inner == [] {
      assert inner + outer == outer;
    } else {
      assert (inner + outer)[1..] == inner[1..] + outer;
      SumAppend(inner[1..], outer);
    }
  }

  /** One more element on the chain moves the total by its offset. */
  lemma SumStep(chain: seq<real>, i: nat)
    requires i < |chain|
    ensures Sum(chain[i..]) == chain[i] + Sum(chain[i + 1..])
  {
    assert chain[i..][1..] == chain[i + 1..];
  }

  /**
   * The page offset of the element: `offsetLeft` summed over the element and
   * every `offsetParent` until there is none.
   */
  method PageOffset(chain: seq<real>) returns (offset: real)
    ensures offset == Sum(chain)
  {
    offset := 0.0;
    var i := 0;
    while i < |chain|
      invariant 0 <= i <= |chain|
      invariant offset + Sum(chain[i..]) == Sum(chain)
    {
      SumStep(chain, i);
      offset := offset + chain[i];
      i := i + 1;
    }
  }

  /** `Math.max(0, Math.min(1, x))`. */
  function Clamp(x: real): (r: real)
    ensures 0.0 <= r <= 1.0
    ensures 0.0 <= x <= 1.0 ==> r == x
    ensures x < 0.0 ==> r == 0.0
    ensures x > 1.0 ==> r == 1.0
  {
    Max(0.0, Min(1.0, x))
  }

  /**
   * The clamped fraction `distance / width`. A zero width divides to an
   * infinity, which clamps to 1 or 0, or to `NaN` (`None`) when the distance
   * is zero too.
   */
  function Position(distance: real, width: real): (p: Option<real>)
    ensures p.None? <==> width == 0.0 && distance == 0.0
    ensures p.Some? ==> 0.0 <= p.value <= 1.0
    ensures width > 0.0 && 0.0 <= distance <= width ==> p.Some? && p.value * width == distance
    ensures width > 0.0 && distance < 0.0 ==> p == Some(0.0)
    ensures width > 0.0 && distance > width ==> p == Some(1.0)
  {
    if width != 0.0 then
      if width > 0.0 && distance > width then
        assert distance / width > 1.0;
        Some(Clamp(distance / width))
      else if width > 0.0 && distance < 0.0 then
        assert distance / width < 0.0;
        Some(Clamp(distance / width))
      else
        Some(Clamp(distance / width))
    else if distance > 0.0 then Some(1.0)
    else if distance < 0.0 then Some(0.0)
    else None
  }

  /**
   * `getEventPosition`: where the pointer is across the bar, from the bar's
   * left edge (its page offset) to its right edge.
   */
  method EventPosition(pageX: real, bar: Box) returns (p: Option<real>)
    ensures p == Position(pageX - Sum(bar.offsets), bar.offsetWidth)
  {
    var offsetLeft := PageOffset(bar.offsets);
    if bar.offsetWidth != 0.0 {
      p := Some(Clamp((pageX - offsetLeft) / bar.offsetWidth));
    } else if pageX - offsetLeft > 0.0 {
      p := Some(1.0);
    } else if pageX - offsetLeft < 0.0 {
      p := Some(0.0);
    } else {
      p := None;
    }
  }
}
