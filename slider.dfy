/**
 * The slider control (src/components/controls/Slider.js): a pointer position
 * becomes a value, either one of a list of options or a point of a numeric
 * range; a change is reported only when the value differs from the last one,
 * and a drag reports its start and its end once each.
 */
module Slider {
  import opened Wrappers
  import opened Numbers
  import opened Layout

  /**
   * A value the slider hands to `onChange`: a number, `NaN`, or `undefined`
   * (an option index outside the list).
   */
  datatype Value = Num(n: real) | NaN | Undefined

  /** JavaScript's `a !== b` on these values: `NaN` differs from everything, itself included. */
  predicate StrictlyDiffers(a: Value, b: Value) {
    a.NaN? || b.NaN? || a != b
  }

  /**
   * The props the slider reads: the current value, the numeric range
   * (`[0, 1]` by default), the options when the prop is an array, and whether
   * the optional drag callbacks are functions.
   */
  datatype Props = Props(
    value: real,
    low: real,
    high: real,
    options: Option<seq<real>>,
    hasDragStart: bool,
    hasDragStop: bool)

  /** The callbacks the slider makes, in order. */
  datatype Callback = Changed(value: Value) | DragStarted | DragStopped

  /**
   * The index `options.reduce` ends on: each option replaces the one kept so
   * far only when it is strictly nearer to `value`, so the earliest of the
   * nearest options wins.
   */
  function NearestIndex(options: seq<real>, value: real): (k: nat)
    requires options != []
    ensures k < |options|
    ensures forall j | 0 <= j < |options| :: Abs(options[k] - value) <= Abs(options[j] - value)
    ensures forall j | 0 <= j < k :: Abs(options[j] - value) > Abs(options[k] - value)
    decreases |options|
  {
    if |options| == 1 then 0
    else
      var init := options[..|options| - 1];
      var k := NearestIndex(init, value);
      assert forall j | 0 <= j < |init| :: init[j] == options[j];
      var last := |options| - 1;
      if Abs(options[last] - value) < Abs(options[k] - value) then last else k
  }

  /**
   * `getValue`: the value itself without options, else the nearest option;
   * an empty options array makes `reduce` throw.
   */
  function GetValue(props: Props): (r: Result<real, string>)
    ensures props.options.None? ==> r == Ok(props.value)
    ensures props.options == Some([]) ==> r.Err?
    ensures props.options.Some? && props.options.value != [] ==>
      r.Ok? && r.value in props.options.value
      && forall o | o in props.options.value :: Abs(r.value - props.value) <= Abs(o - props.value)
  {
    match props.options
    case None => Ok(props.value)
    case Some(options) =>
      if options == [] then Err("Reduce of empty array with no initial value")
      else Ok(options[NearestIndex(options, props.value)])
  }

  /** A tie between two options goes to the earlier one. */
  lemma TieKeepsEarlier(a: real, b: real, value: real)
    requires Abs(a - value) == Abs(b - value)
    ensures NearestIndex([a, b], value) == 0
  {
    assert [a, b][..1] == [a];
  }

  /** The option at `round((n - 1) * percent)`; `undefined` for an index outside the list. */
  function PickOption(options: seq<real>, percent: real): (v: Value)
    ensures options != [] && 0.0 <= percent <= 1.0 ==> v.Num? && v.n in options
    ensures !v.NaN?
  {
    var index := Round((|options| - 1) as real * percent);
    OptionIndexInRange(|options|, percent);
    if 0 <= index < |options| then Num(options[index]) else Undefined
  }

  /** The point at fraction `percent` of the range from `low` to `high`. */
  function RangePoint(low: real, high: real, percent: real): (x: real)
    ensures 0.0 <= percent <= 1.0 ==> Min(low, high) <= x <= Max(low, high)
  {
    RangeValueWithin(low, high, percent);
    (high - low) * percent + low
  }

  /**
   * The value `handleChange` computes for a pointer fraction (`None` for
   * `NaN`): an option with options, a point of the range without.
   */
  function ChangeValue(props: Props, percent: Option<real>): (v: Value)
    ensures props.options.Some? && props.options.value != [] && percent.Some? && 0.0 <= percent.value <= 1.0 ==>
      v.Num? && v.n in props.options.value
    ensures props.options.None? && percent.Some? && 0.0 <= percent.value <= 1.0 ==>
      v.Num? && Min(props.low, props.high) <= v.n <= Max(props.low, props.high)
    ensures percent.None? ==> !v.Num?
  {
    match props.options
    case Some(options) =>
      if percent.None? then Undefined else PickOption(options, percent.value)
    case None =>
      if percent.None? then NaN else Num(RangePoint(props.low, props.high, percent.value))
  }

  /** For a fraction in [0, 1], `round((n - 1) * percent)` is an index of a non-empty list. */
  lemma OptionIndexInRange(n: nat, percent: real)
    ensures n > 0 && 0.0 <= percent <= 1.0 ==> 0 <= Round((n - 1) as real * percent) < n
  {
    if n > 0 && 0.0 <= percent <= 1.0 {
      var m := (n - 1) as real;
      MulMono(percent, 1.0, m);
      MulMono(0.0, percent, m);
      Commute(percent, m);
      assert 0.0 <= m * percent <= m;
    }
  }

  /** A fraction in [0, 1] of the range lies between its ends. */
  lemma RangeValueWithin(low: real, high: real, percent: real)
    ensures 0.0 <= percent <= 1.0 ==> Min(low, high) <= (high - low) * percent + low <= Max(low, high)
  {
    if 0.0 <= percent <= 1.0 {
      Commute(percent, high - low);
      if high >= low {
        MulMono(percent, 1.0, high - low);
        MulMono(0.0, percent, high - low);
        assert 0.0 <= (high - low) * percent <= high - low;
      } else {
        MulMono(percent, 1.0, low - high);
        MulMono(0.0, percent, low - high);
        Negate(high - low, percent);
        assert 0.0 <= (low - high) * percent <= low - high;
        assert high - low <= (high - low) * percent <= 0.0;
      }
    }
  }

  /** `options.indexOf(value)`: the first index holding the value, or -1. */
  function IndexOf(options: seq<real>, value: real): (i: int)
    ensures -1 <= i < |options|
    ensures i == -1 <==> value !in options
    ensures i >= 0 ==> options[i] == value && forall j | 0 <= j < i :: options[j] != value
    decreases |options|
  {
    if options == [] then -1
    else if options[0] == value then 0
    else
      var r := IndexOf(options[1..], value);
      if r == -1 then -1 else r + 1
  }

  /**
   * The fraction `render` draws the bar and handle at (`None` for a `NaN` or
   * infinite quotient): the value's index over the last index with options,
   * its place along the range without.
   */
  function RenderPosition(props: Props): (p: Option<real>)
    ensures props.options.Some? ==> (p.Some? <==> |props.options.value| != 1)
    ensures props.options.None? ==> (p.Some? <==> props.low != props.high)
  {
    match props.options
    case Some(options) =>
      Ratio(IndexOf(options, props.value) as real, (|options| - 1) as real)
    case None =>
      Ratio(props.value - props.low, props.high - props.low)
  }

  /** Without options, drawing the value a fraction produced puts the handle back at that fraction. */
  lemma RenderInvertsRange(props: Props, percent: real)
    requires props.options.None? && props.low != props.high
    ensures var v := ChangeValue(props, Some(percent));
      v.Num? && RenderPosition(props.(value := v.n)) == Some(percent)
  {
    var d := props.high - props.low;
    var v := ChangeValue(props, Some(percent));
    assert v == Num(RangePoint(props.low, props.high, percent));
    assert v.n - props.low == d * percent;
    assert RenderPosition(props.(value := v.n)) == Some((d * percent) / d);
    Cancel(percent, d);
  }

  /**
   * With distinct options, drawing the option a fraction picked puts the
   * handle within half a step of that fraction.
   */
  lemma RenderNearOption(props: Props, percent: real)
    requires props.options.Some? && |props.options.value| >= 2
    requires forall i, j | 0 <= i < j < |props.options.value| :: props.options.value[i] != props.options.value[j]
    requires 0.0 <= percent <= 1.0
    ensures var v := ChangeValue(props, Some(percent));
      var step := 1.0 / (|props.options.value| - 1) as real;
      v.Num? && RenderPosition(props.(value := v.n)).Some?
      && percent - step / 2.0 <= RenderPosition(props.(value := v.n)).value <= percent + step / 2.0
  {
    var options := props.options.value;
    var last := (|options| - 1) as real;
    var index := Round(last * percent);
    OptionIndexInRange(|options|, percent);
    assert 0 <= index < |options|;
    var v := ChangeValue(props, Some(percent));
    assert v == PickOption(options, percent);
    assert Round((|options| - 1) as real * percent) == index;
    assert PickOption(options, percent) == Num(options[index]);
    var i := IndexOf(options, v.n);
    assert options[i] == options[index];
    assert i == index;
    var p := RenderPosition(props.(value := v.n)).value;
    assert p * last == index as real;
    WithinHalfStep(p, percent, last, index);
  }

  /** `index` within a half of `last * percent`, divided by `last`, is within half a step of `percent`. */
  lemma WithinHalfStep(p: real, percent: real, last: real, index: int)
    requires last >= 1.0 && p * last == index as real
    requires last * percent - 0.5 < index as real <= last * percent + 0.5
    ensures percent - (1.0 / last) / 2.0 <= p <= percent + (1.0 / last) / 2.0
  {
    Distribute(p, percent, last);
    Commute(percent, last);
    assert -0.5 < (p - percent) * last <= 0.5;
    ScaledAtMost(p - percent, last, 0.5);
    ScaledAtLeast(p - percent, last, -0.5);
    assert (1.0 / last) / 2.0 == 0.5 / last;
    assert -0.5 / last == -(0.5 / last);
  }

  /** The slider component: the last value it reported and the drag state. */
  class SliderComponent {
    /** The last value computed, so only changes are reported. */
    var lastValue: Value
    /** Whether a drag has moved since the button went down. */
    var dragging: bool
    /** Whether the document-wide `mouseup`/`mousemove` listeners are attached. */
    var listening: bool
    /** The callbacks made so far. */
    var calls: seq<Callback>

    /** The constructor: the last value starts as the `value` prop. */
    constructor(props: Props)
      ensures lastValue == Num(props.value) && !dragging && !listening && calls == []
    {
      lastValue := Num(props.value);
      dragging := false;
      listening := false;
      calls := [];
    }

    /**
     * `handleChange`: the value under the pointer is reported when it differs
     * from the last value, and becomes the last value either way.
     */
    method HandleChange(pageX: real, bar: Box, props: Props)
      modifies this
      ensures var v := ChangeValue(props, Position(pageX - Sum(bar.offsets), bar.offsetWidth));
        lastValue == v
        && calls == old(calls) + (if StrictlyDiffers(old(lastValue), v) then [Changed(v)] else [])
      ensures dragging == old(dragging) && listening == old(listening)
    {
      var percent := EventPosition(pageX, bar);
      var value := ChangeValue(props, percent);
      if StrictlyDiffers(lastValue, value) {
        calls := calls + [Changed(value)];
      }
      lastValue := value;
    }

    /** `handleClick`: a click is a change at the pointer. */
    method HandleClick(pageX: real, bar: Box, props: Props)
      modifies this
      ensures var v := ChangeValue(props, Position(pageX - Sum(bar.offsets), bar.offsetWidth));
        lastValue == v
        && calls == old(calls) + (if StrictlyDiffers(old(lastValue), v) then [Changed(v)] else [])
      ensures dragging == old(dragging) && listening == old(listening)
    {
      HandleChange(pageX, bar, props);
    }

    /** `handleMouseDown`: start following the pointer over the whole document. */
    method HandleMouseDown()
      modifies this
      ensures listening
      ensures lastValue == old(lastValue) && dragging == old(dragging) && calls == old(calls)
    {
      listening := true;
    }

    /**
     * `handleMouseMove`: a change at the pointer; the first move of a drag
     * reports the start, and the slider is dragging from then on.
     */
    method HandleMouseMove(pageX: real, bar: Box, props: Props)
      modifies this
      ensures var v := ChangeValue(props, Position(pageX - Sum(bar.offsets), bar.offsetWidth));
        lastValue == v
        && calls == old(calls) + (if StrictlyDiffers(old(lastValue), v) then [Changed(v)] else [])
          + (if !old(dragging) && props.hasDragStart then [DragStarted] else [])
      ensures dragging && listening == old(listening)
    {
      HandleChange(pageX, bar, props);
      if !dragging && props.hasDragStart {
        calls := calls + [DragStarted];
      }
      if !dragging {
        dragging := true;
      }
    }

    /** `handleMouseUp`: stop following the pointer and report the end of a drag that moved. */
    method HandleMouseUp(props: Props)
      modifies this
      ensures !listening && !dragging
      ensures calls == old(calls) + (if old(dragging) && props.hasDragStop then [DragStopped] else [])
      ensures lastValue == old(lastValue)
    {
      listening := false;
      if dragging && props.hasDragStop {
        calls := calls + [DragStopped];
      }
      dragging := false;
    }
  }
}
