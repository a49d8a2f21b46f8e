/** The label rule of the pie chart (src/app/ui/pie/pie.helpers.ts). */
module PieHelpers {
  import opened Wrappers

  /** A segment label: the rounded percentage and the CSS font size it is drawn with. */
  datatype Label = Label(percentage: int, fontSize: string)

  /** `Math.round`: the nearest integer, halves rounded up (towards +infinity). */
  function Round(x: real): (n: int)
    ensures n as real <= x + 0.5 < n as real + 1.0
  {
    (x + 0.5).Floor
  }

  /** The font size, in pixels, for a rounded percentage of at least 2. */
  function FontPixels(percentage: int): (px: int)
    ensures 4 <= px <= 8
  {
    if percentage >= 10 then 8
    else if percentage >= 7 then 7
    else if percentage >= 5 then 6
    else if percentage >= 3 then 5
    else 4
  }

  /** The CSS length `"<px>px"` of a one-digit pixel count. */
  function Px(px: int): (s: string)
    requires 0 <= px <= 9
    ensures |s| == 3 && s[1..] == "px" && s[0] as int - '0' as int == px
  {
    [('0' as int + px) as char] + "px"
  }

  /**
   * `formatLabelPercentage`: no label for segments whose rounded percentage is below 2,
   * otherwise the rounded percentage with a font size that grows with it.
   */
  function FormatLabelPercentage(value: real): (r: Option<Label>)
    ensures r.None? <==> Round(value) < 2
    ensures r.Some? ==> r.value.percentage == Round(value)
    ensures r.Some? ==>
      r.value.fontSize == (if Round(value) >= 10 then "8px"
                           else if Round(value) >= 7 then "7px"
                           else if Round(value) >= 5 then "6px"
                           else if Round(value) >= 3 then "5px"
                           else "4px")
  {
    var percentage := Round(value);
    if percentage < 2 then None
    else Some(Label(percentage, Px(FontPixels(percentage))))
  }

  /** Larger segments never get a smaller font. */
  lemma FontSizeMonotone(p: int, q: int)
    requires p <= q
    ensures FontPixels(p) <= FontPixels(q)
  {
  }

  /** The label size is monotone in the value too: a larger value never has a smaller label font. */
  lemma LabelMonotone(x: real, y: real)
    requires x <= y
    requires FormatLabelPercentage(x).Some?
    ensures FormatLabelPercentage(y).Some?
    ensures FormatLabelPercentage(x).value.fontSize[0] <= FormatLabelPercentage(y).value.fontSize[0]
  {
    assert Round(x) <= Round(y);
    FontSizeMonotone(Round(x), Round(y));
  }

  /** The examples the helper is specified with: 0.5, 2, 3, 5, 7 and 10 percent. */
  lemma Examples()
    ensures FormatLabelPercentage(0.5) == None
    ensures FormatLabelPercentage(2.0) == Some(Label(2, "4px"))
    ensures FormatLabelPercentage(3.0) == Some(Label(3, "5px"))
    ensures FormatLabelPercentage(5.0) == Some(Label(5, "6px"))
    ensures FormatLabelPercentage(7.0) == Some(Label(7, "7px"))
    ensures FormatLabelPercentage(10.0) == Some(Label(10, "8px"))
  {
    assert Round(0.5) == 1;
    assert Round(2.0) == 2;
    assert Round(3.0) == 3;
    assert Round(5.0) == 5;
    assert Round(7.0) == 7;
    assert Round(10.0) == 10;
  }
}
