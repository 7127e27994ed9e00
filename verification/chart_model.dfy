/**
 * The chart model base class (`MockChartModel`).  Its dataset-list add and
 * remove are the same code as the data model's and are modelled once, in
 * `ChartDatasets`; what differs is the colour conversion, which keeps the
 * alpha digits and moves them to the end.
 */
module ChartModel {
  import opened Wrappers
  import opened ArgbColor
  import ChartDataModel

  /**
   * `getHexColor(color)`: `&HAARRGGBB` becomes `#RRGGBBAA`.  The source cuts
   * the text at indices 2 and 4, which throws for a text shorter than 4.
   */
  function HexColor(color: string): (r: string)
    requires |color| >= 4
    ensures |r| == |color| - 1 && r[0] == '#'
    ensures |color| == 10 ==> |r| == 9 && multiset(r[1..]) == multiset(color[2..])
  {
    var r := "#" + color[4..] + color[2..4];
    assert r[1..] == color[4..] + color[2..4];
    assert color[2..] == color[2..4] + color[4..];
    r
  }

  /** The RGBA text is the data model's RGB text followed by the alpha digits. */
  lemma HexColorExtendsRgb(color: string)
    requires |color| >= 4
    ensures HexColor(color) == ChartDataModel.HexColor(color) + color[2..4]
  {
  }

  /**
   * On an App Inventor colour text the result reads back as the same colour,
   * alpha included: the conversion reorders the four bytes and loses nothing.
   */
  lemma HexColorRoundTrip(c: Argb)
    ensures HexColor(AppInventorText(c)) ==
              "#" + HexByte(c.red) + HexByte(c.green) + HexByte(c.blue) + HexByte(c.alpha)
    ensures ParseRgba(HexColor(AppInventorText(c))) == Some(c)
  {
    var t := AppInventorText(c);
    var h := HexColor(t);
    assert t[4..] == HexByte(c.red) + HexByte(c.green) + HexByte(c.blue);
    assert t[2..4] == HexByte(c.alpha);
    assert h[1..3] == HexByte(c.red) && h[3..5] == HexByte(c.green);
    assert h[5..7] == HexByte(c.blue) && h[7..9] == HexByte(c.alpha);
    HexByteRoundTrip(c.alpha);
    HexByteRoundTrip(c.red);
    HexByteRoundTrip(c.green);
    HexByteRoundTrip(c.blue);
  }

  /** Two different colours give two different texts. */
  lemma HexColorInjective(c: Argb, d: Argb)
    requires c != d
    ensures HexColor(AppInventorText(c)) != HexColor(AppInventorText(d))
  {
    HexColorRoundTrip(c);
    HexColorRoundTrip(d);
  }
}
