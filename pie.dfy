/**
 * The interactive pie chart and its legend (src/app/ui/pie/pie.tsx): which segment is selected
 * or hovered, where that state lives, and how each segment and legend entry is drawn from it.
 */
module Pie {
  import opened Wrappers

  /** One slice of data: `ChartDataItem`. */
  datatype Segment = Segment(title: string, value: int, color: string)

  /** How a chart segment is drawn: the drop shadow of the selected one, or an opacity. */
  datatype Style = Shadow | Opacity(level: real)

  /** A chart segment with the style it is drawn with. */
  datatype Highlighted = Highlighted(segment: Segment, style: Style)

  /** A legend row: `LegendItem` with its `isActive` and `isSelected` flags. */
  datatype LegendEntry = LegendEntry(segment: Segment, isActive: bool, isSelected: bool)

  datatype Orientation = Vertical | Horizontal

  /** The value a click on segment `index` asks to select: a second click on the selected one clears it. */
  function Toggle(current: Option<nat>, index: nat): (r: Option<nat>)
    ensures r.None? <==> current == Some(index)
    ensures r.Some? ==> r.value == index
  {
    if current == Some(index) then None else Some(index)
  }

  /** From any other selection, repeated clicks on one segment alternate between selecting and clearing it. */
  lemma ToggleAlternates(current: Option<nat>, index: nat)
    requires current != Some(index)
    ensures Toggle(current, index) == Some(index)
    ensures Toggle(Toggle(current, index), index) == None
    ensures Toggle(Toggle(Toggle(current, index), index), index) == Some(index)
  {
  }

  /** A segment fades when something is selected or hovered, but not this segment. */
  predicate IsDimmed(selected: Option<nat>, hovered: Option<nat>, k: nat)
  {
    (selected.Some? || hovered.Some?) && selected != Some(k) && hovered != Some(k)
  }

  /** `dataWithHighlight`: every segment, in order, with the style the selection and hover give it. */
  function Highlight(data: seq<Segment>, selected: Option<nat>, hovered: Option<nat>): (r: seq<Highlighted>)
    ensures |r| == |data|
    ensures forall k :: 0 <= k < |r| ==> r[k].segment == data[k]
    ensures forall k :: 0 <= k < |r| ==> (r[k].style == Shadow <==> selected == Some(k))
    ensures forall k :: 0 <= k < |r| ==> (r[k].style == Opacity(0.4) <==> IsDimmed(selected, hovered, k))
    ensures forall k :: 0 <= k < |r| ==> r[k].style in {Shadow, Opacity(0.4), Opacity(1.0)}
  {
    seq(|data|, k requires 0 <= k < |data| =>
      Highlighted(data[k],
        if selected == Some(k) then Shadow
        else Opacity(if IsDimmed(selected, hovered, k) then 0.4 else 1.0)))
  }

  /** The legend rows: every segment, in order, active unless dimmed, marked when selected. */
  function Legend(data: seq<Segment>, selected: Option<nat>, hovered: Option<nat>): (r: seq<LegendEntry>)
    ensures |r| == |data|
    ensures forall k :: 0 <= k < |r| ==> r[k].segment == data[k]
    ensures forall k :: 0 <= k < |r| ==> (r[k].isSelected <==> selected == Some(k))
    ensures forall k :: 0 <= k < |r| ==> (r[k].isActive <==> !IsDimmed(selected, hovered, k))
  {
    seq(|data|, k requires 0 <= k < |data| =>
      LegendEntry(data[k], !IsDimmed(selected, hovered, k), selected == Some(k)))
  }

  /** Under the same selection and hover, the chart and the legend emphasise the same entries. */
  lemma ChartAndLegendAgree(data: seq<Segment>, selected: Option<nat>, hovered: Option<nat>, k: nat)
    requires k < |data|
    ensures Highlight(data, selected, hovered)[k].style == Shadow <==> Legend(data, selected, hovered)[k].isSelected
    ensures Highlight(data, selected, hovered)[k].style == Opacity(0.4) <==> !Legend(data, selected, hovered)[k].isActive
  {
  }

  /** At most one segment carries the selection shadow. */
  lemma AtMostOneShadow(data: seq<Segment>, selected: Option<nat>, hovered: Option<nat>, j: nat, k: nat)
    requires j < |data| && k < |data|
    requires Highlight(data, selected, hovered)[j].style == Shadow
    requires Highlight(data, selected, hovered)[k].style == Shadow
    ensures j == k
  {
  }

  /** With nothing selected or hovered, every segment is drawn fully opaque and every legend row is active. */
  lemma IdleChartIsPlain(data: seq<Segment>)
    ensures forall k :: 0 <= k < |data| ==> Highlight(data, None, None)[k].style == Opacity(1.0)
    ensures forall k :: 0 <= k < |data| ==> Legend(data, None, None)[k].isActive
  {
  }

  /** A selection that names no segment (an index past the end) fades every segment that is not hovered. */
  lemma OutOfRangeSelectionFades(data: seq<Segment>, s: nat, hovered: Option<nat>, k: nat)
    requires |data| <= s && k < |data| && hovered != Some(k)
    ensures Highlight(data, Some(s), hovered)[k].style == Opacity(0.4)
  {
  }

  /** `segmentShift`: the selected segment is pulled out by 3, the others stay in place. */
  function SegmentShift(count: nat, selected: Option<nat>): (r: seq<int>)
    ensures |r| == count
    ensures forall k :: 0 <= k < count ==> r[k] == (if selected == Some(k) then 3 else 0)
  {
    seq(count, k requires 0 <= k < count => if selected == Some(k) then 3 else 0)
  }

  function Sum(s: seq<int>): int
  {
    if s == [] then 0 else Sum(s[..|s| - 1]) + s[|s| - 1]
  }

  /** The shifts add up to 3 when the selection names a segment and to 0 otherwise: at most one segment moves. */
  lemma {:induction false} ShiftTotal(count: nat, selected: Option<nat>)
    ensures Sum(SegmentShift(count, selected)) == if selected.Some? && selected.value < count then 3 else 0
  {
    if count > 0 {
      var r := SegmentShift(count, selected);
      assert r[..count - 1] == SegmentShift(count - 1, selected);
      ShiftTotal(count - 1, selected);
    }
  }

  /** The column classes of the legend grid; `None` when no orientation/columns condition holds. */
  function GridColumns(orientation: Orientation, columns: int): (r: Option<string>)
    ensures orientation == Horizontal ==> r == Some("grid-cols-2 sm:grid-cols-3 md:grid-cols-4 lg:grid-cols-5")
    ensures orientation == Vertical ==> (r.None? <==> columns < 1)
    ensures orientation == Vertical && columns == 1 ==> r == Some("grid-cols-1")
    ensures orientation == Vertical && columns == 2 ==> r == Some("grid-cols-1 sm:grid-cols-2")
    ensures orientation == Vertical && columns > 2 ==> r == Some("grid-cols-1 sm:grid-cols-2 md:grid-cols-3")
  {
    match orientation
    case Horizontal => Some("grid-cols-2 sm:grid-cols-3 md:grid-cols-4 lg:grid-cols-5")
    case Vertical =>
      if columns == 1 then Some("grid-cols-1")
      else if columns == 2 then Some("grid-cols-1 sm:grid-cols-2")
      else if columns > 2 then Some("grid-cols-1 sm:grid-cols-2 md:grid-cols-3")
      else None
  }

  /**
   * `PieChartLegend`'s grid under its defaults: an absent `orientation` is vertical and an absent
   * `columns` is 1, so a legend given neither prop is a single column.
   */
  function LegendGrid(orientation: Option<Orientation>, columns: Option<int>): (r: Option<string>)
    ensures orientation.None? && columns.None? ==> r == Some("grid-cols-1")
    ensures columns.None? ==> r.Some?
    ensures orientation.Some? && columns.None? ==> r == GridColumns(orientation.value, 1)
    ensures orientation.Some? && columns.Some? ==> r == GridColumns(orientation.value, columns.value)
    ensures orientation.None? && columns.Some? ==> r == GridColumns(Vertical, columns.value)
  {
    var o := if orientation.None? then Vertical else orientation.value;
    var c := if columns.None? then 1 else columns.value;
    GridColumns(o, c)
  }

  /**
   * Which `columns` values matter: a horizontal legend ignores them, a vertical one tells apart
   * 1, 2 and "more than 2", and every value above 2 gives the same grid.
   */
  lemma ColumnsThatMatter(a: int, b: int)
    ensures GridColumns(Horizontal, a) == GridColumns(Horizontal, b)
    ensures a > 2 && b > 2 ==> GridColumns(Vertical, a) == GridColumns(Vertical, b)
    ensures 1 <= a <= 3 && 1 <= b <= 3 && a != b ==> GridColumns(Vertical, a) != GridColumns(Vertical, b)
  {
  }

  /** `PieChartProvider`: the selection and hover shared by every chart and legend inside it. */
  class Provider {
    var selected: Option<nat>
    var hovered: Option<nat>

    constructor()
      ensures selected == None && hovered == None
    {
      selected := None;
      hovered := None;
    }
  }

  /**
   * The selection state that `PieChart` and `PieChartLegend` each keep. The enclosing provider, the
   * `selected` prop and whether an `onSelect` prop is given are fixed for the component's life;
   * `notified` records, in order, the values handed to the parent's `onSelect`.
   */
  class SegmentState {
    const context: Provider?
    const externalSelected: Option<nat>
    const hasOnSelect: bool
    var internalSelected: Option<nat>
    var internalHovered: Option<nat>
    var notified: seq<Option<nat>>

    /** Inside a provider the component's own state is never written, so it stays empty. */
    ghost predicate Valid()
      reads this
    {
      context != null ==> internalSelected.None? && internalHovered.None?
    }

    constructor(context: Provider?, externalSelected: Option<nat>, hasOnSelect: bool)
      ensures this.context == context && this.externalSelected == externalSelected
      ensures this.hasOnSelect == hasOnSelect
      ensures internalSelected == None && internalHovered == None && notified == []
      ensures Valid()
    {
      this.context := context;
      this.externalSelected := externalSelected;
      this.hasOnSelect := hasOnSelect;
      internalSelected := None;
      internalHovered := None;
      notified := [];
    }

    /** `context?.selected ?? externalSelected ?? internalSelected`. */
    function Selected(): (s: Option<nat>)
      reads this, context
      ensures context != null && context.selected.Some? ==> s == context.selected
      ensures (context == null || context.selected.None?) ==> s == Coalesce(externalSelected, internalSelected)
    {
      Coalesce(Coalesce(if context == null then None else context.selected, externalSelected), internalSelected)
    }

    /** `context?.hovered ?? internalHovered`. */
    function Hovered(): (h: Option<nat>)
      reads this, context
      ensures context != null && Valid() ==> h == context.hovered
      ensures context == null ==> h == internalHovered
    {
      Coalesce(if context == null then None else context.hovered, internalHovered)
    }

    /** `setSelected`: the provider's setter, else the parent's `onSelect`, else the component's own state. */
    method SetSelected(v: Option<nat>)
      requires Valid()
      modifies this, context
      ensures Valid()
      ensures context != null ==> context.selected == v && context.hovered == old(context.hovered)
      ensures internalSelected == (if context == null && !hasOnSelect then v else old(internalSelected))
      ensures notified == (if context == null && hasOnSelect then old(notified) + [v] else old(notified))
      ensures internalHovered == old(internalHovered)
    {
      if context != null {
        context.selected := v;
      } else if hasOnSelect {
        notified := notified + [v];
      } else {
        internalSelected := v;
      }
    }

    /** `setHovered`: the provider's setter, else the component's own state. */
    method SetHovered(v: Option<nat>)
      requires Valid()
      modifies this, context
      ensures Valid()
      ensures context != null ==> context.hovered == v && context.selected == old(context.selected)
      ensures internalHovered == (if context == null then v else old(internalHovered))
      ensures internalSelected == old(internalSelected) && notified == old(notified)
    {
      if context != null {
        context.hovered := v;
      } else {
        internalHovered := v;
      }
    }

    /** `handleClick` on a segment or a legend row: asks to toggle that index. */
    method Click(index: nat)
      requires Valid()
      modifies this, context
      ensures Valid()
      ensures context != null ==> context.selected == Toggle(old(Selected()), index)
      ensures context != null ==> context.hovered == old(context.hovered)
      ensures internalSelected ==
                (if context == null && !hasOnSelect then Toggle(old(Selected()), index) else old(internalSelected))
      ensures notified ==
                (if context == null && hasOnSelect then old(notified) + [Toggle(old(Selected()), index)] else old(notified))
      ensures internalHovered == old(internalHovered)
    {
      SetSelected(Toggle(Selected(), index));
    }

    /** `onMouseOver` / `onMouseEnter`: hovers that index. */
    method MouseOver(index: nat)
      requires Valid()
      modifies this, context
      ensures Valid()
      ensures Hovered() == Some(index)
      ensures Selected() == old(Selected())
      ensures notified == old(notified) && internalSelected == old(internalSelected)
      ensures context != null ==> context.selected == old(context.selected)
    {
      SetHovered(Some(index));
    }

    /** `onMouseOut` / `onMouseLeave`: clears the hover. */
    method MouseOut()
      requires Valid()
      modifies this, context
      ensures Valid()
      ensures Hovered() == None
      ensures Selected() == old(Selected())
      ensures notified == old(notified) && internalSelected == old(internalSelected)
      ensures context != null ==> context.selected == old(context.selected)
    {
      SetHovered(None);
    }
  }

  /** Two components in the same provider with the same `selected` prop show the same selection and hover. */
  lemma SharedProviderAgrees(a: SegmentState, b: SegmentState)
    requires a.context != null && a.context == b.context
    requires a.Valid() && b.Valid()
    requires a.externalSelected == b.externalSelected
    ensures a.Selected() == b.Selected() && a.Hovered() == b.Hovered()
  {
  }

  /** In a standalone component without props, clicking a segment selects it and clicking it again clears it. */
  method StandaloneClicks(index: nat) returns (afterFirst: Option<nat>, afterSecond: Option<nat>)
    ensures afterFirst == Some(index) && afterSecond == None
  {
    var chart := new SegmentState(null, None, false);
    chart.Click(index);
    afterFirst := chart.Selected();
    chart.Click(index);
    afterSecond := chart.Selected();
  }

  /**
   * The species report: a chart and a legend under one provider. Clicking a legend row selects the
   * chart's segment, hovering it highlights the segment, and clicking the chart segment clears both.
   */
  method SharedSelection(index: nat, other: nat)
    returns (chartSelected: Option<nat>, chartHovered: Option<nat>, legendSelectedAfter: Option<nat>)
    ensures chartSelected == Some(index) && chartHovered == Some(other) && legendSelectedAfter == None
  {
    var provider := new Provider();
    var chart := new SegmentState(provider, None, false);
    var legend := new SegmentState(provider, None, false);
    legend.Click(index);
    legend.MouseOver(other);
    chartSelected := chart.Selected();
    chartHovered := chart.Hovered();
    chart.Click(index);
    legendSelectedAfter := legend.Selected();
  }
}
