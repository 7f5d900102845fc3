/**
 The depth legend of the earthquake map (legend.onAdd). The HTML it builds
 is reduced to a sequence of entries, each a color swatch and a range label.
 */
module Legend {

  import opened Options
  import opened Colors
  import opened Classifier
  import opened Decimal

  /** The legend's own copy of the depth thresholds, ascending. */
  const Depths: seq<int> := [-10, 10, 30, 50, 70, 90]

  /** "lo–hi" for a bounded interval, "lo+" for the open-ended last one. */
  datatype Label = Range(lo: int, hi: int) | OpenEnded(lo: int)

  datatype Entry = Entry(swatch: Color, caption: Label)

  /**
   JavaScript truthiness of `depths[i + 1]`: reading past the end yields
   `undefined`, and the number 0 is falsy as well.
   */
  predicate NextIsTruthy(depths: seq<int>, i: nat) {
    i + 1 < |depths| && depths[i + 1] != 0
  }

  /** The label of entry i: bounded by the next threshold exactly when that one is truthy. */
  function LabelAt(depths: seq<int>, i: nat): (l: Label)
    requires i < |depths|
    ensures l.lo == depths[i]
    ensures l.Range? <==> NextIsTruthy(depths, i)
    ensures l.Range? ==> l.hi == depths[i + 1]
  {
    if NextIsTruthy(depths, i) then Range(depths[i], depths[i + 1]) else OpenEnded(depths[i])
  }

  /** One loop iteration: the swatch is the color of the depth one above the threshold. */
  function EntryAt(depths: seq<int>, i: nat): Entry
    requires i < |depths|
  {
    Entry(GetColor((depths[i] + 1) as real), LabelAt(depths, i))
  }

  function LegendOf(depths: seq<int>): seq<Entry> {
    seq(|depths|, k requires 0 <= k < |depths| => EntryAt(depths, k))
  }

  /** The legend the page shows: one entry per threshold, climbing the color scale one step per entry. */
  function PageLegend(): (r: seq<Entry>)
    ensures |r| == |Depths| == 6
    ensures forall i :: 0 <= i < |r| ==> r[i].caption.lo == Depths[i] && Rank(r[i].swatch) == i
  {
    LegendOf(Depths)
  }

  /** The loop over the thresholds: one entry per threshold, in threshold order. */
  method BuildLegend(depths: seq<int>) returns (entries: seq<Entry>)
    ensures |entries| == |depths|
    ensures forall k :: 0 <= k < |depths| ==>
      entries[k].swatch == GetColor((depths[k] + 1) as real) && entries[k].caption == LabelAt(depths, k)
    ensures entries == LegendOf(depths)
  {
    entries := [];
    var i := 0;
    while i < |depths|
      invariant 0 <= i <= |depths|
      invariant |entries| == i
      invariant forall k :: 0 <= k < i ==> entries[k] == EntryAt(depths, k)
    {
      entries := entries + [Entry(GetColor((depths[i] + 1) as real), LabelAt(depths, i))];
      i := i + 1;
    }
  }

  /** Without a zero threshold, the truthiness test means exactly "a next threshold exists". */
  lemma TruthyIffNextExists(depths: seq<int>, i: nat)
    requires forall k :: 0 <= k < |depths| ==> depths[k] != 0
    ensures NextIsTruthy(depths, i) <==> i + 1 < |depths|
  {
  }

  /** A zero threshold would make its predecessor's label open-ended although a next threshold exists. */
  lemma ZeroThresholdEndsLabel(depths: seq<int>, i: nat)
    requires i + 1 < |depths| && depths[i + 1] == 0
    ensures LabelAt(depths, i) == OpenEnded(depths[i])
  {
  }

  /** The legend's thresholds are the classifier's boundaries, preceded by the bottom of the first interval. */
  lemma LegendThresholdsAreBoundaries()
    ensures |Depths| == |Boundaries| + 1
    ensures forall k :: 0 <= k < |Boundaries| ==> Depths[k + 1] as real == Boundaries[k]
    ensures Depths[0] as real < Boundaries[0]
  {
  }

  /** Six entries, in the order of the thresholds, each bounded by its threshold and the next. */
  lemma LegendLabels()
    ensures |PageLegend()| == 6
    ensures forall i :: 0 <= i < 5 ==> PageLegend()[i].caption == Range(Depths[i], Depths[i + 1])
    ensures PageLegend()[5].caption == OpenEnded(90)
  {
  }

  /** Depth d lies in the interval legend entry i describes: above its threshold, and at most the next one if there is one. */
  predicate InEntryInterval(depths: seq<int>, i: nat, d: real)
    requires i < |depths|
  {
    depths[i] as real < d && (i + 1 < |depths| ==> d <= depths[i + 1] as real)
  }

  /**
   Each swatch is the color the classifier gives every depth in that entry's
   interval, and (above the lowest threshold) only those depths.
   */
  lemma LegendSwatchMatchesClassifier(i: nat, d: real)
    requires i < |Depths|
    ensures InEntryInterval(Depths, i, d) ==> GetColor(d) == PageLegend()[i].swatch
    ensures d > Depths[0] as real && GetColor(d) == PageLegend()[i].swatch ==> InEntryInterval(Depths, i, d)
  {
  }

  /** Depths at or below the lowest threshold share the first entry's swatch. */
  lemma LegendFirstSwatchBelow(d: real)
    requires d <= Depths[0] as real
    ensures GetColor(d) == PageLegend()[0].swatch
  {
  }

  /** The swatches climb the color scale one step per entry, so they are pairwise distinct and cover every color. */
  lemma LegendSwatchesOrdered()
    ensures forall i :: 0 <= i < |PageLegend()| ==> Rank(PageLegend()[i].swatch) == i
    ensures forall i, j :: 0 <= i < j < |PageLegend()| ==> Rank(PageLegend()[i].swatch) < Rank(PageLegend()[j].swatch)
    ensures forall k: nat :: k < 6 ==> PageLegend()[k].swatch == OfRank(k)
    ensures forall c: Color :: PageLegend()[Rank(c)].swatch == c
  {
    forall c: Color
      ensures PageLegend()[Rank(c)].swatch == c
    {
      OfRankOfRank(c);
    }
  }

  /** Position of the first occurrence of ch in s, or |s| when there is none. */
  function IndexOf(s: string, ch: char): (k: nat)
    ensures k <= |s|
    ensures forall j :: 0 <= j < k ==> s[j] != ch
    ensures k < |s| ==> s[k] == ch
  {
    if |s| == 0 then 0
    else if s[0] == ch then 0
    else 1 + IndexOf(s[1..], ch)
  }

  /** Reads a rendered label back; None for text that is not one. */
  function ParseLabel(s: string): Option<Label> {
    if |s| > 0 && s[|s| - 1] == '+' then
      match ParseInt(s[..|s| - 1])
      case Some(lo) => Some(OpenEnded(lo))
      case None => None
    else
      var k := IndexOf(s, '\U{2013}');
      if k < |s| then
        match (ParseInt(s[..k]), ParseInt(s[k + 1..]))
        case (Some(lo), Some(hi)) => Some(Range(lo, hi))
        case _ => None
      else None
  }

  /** The text of an open-ended label reads back as that label. */
  lemma ParseOpenEndedText(lo: int)
    ensures ParseLabel(IntToString(lo) + "+") == Some(OpenEnded(lo))
  {
    var s := IntToString(lo) + "+";
    assert s[..|s| - 1] == IntToString(lo);
    ParseIntOfIntToString(lo);
  }

  /** The text of a bounded label reads back as that label: the en dash is found right after the lower bound. */
  lemma ParseRangeText(lo: int, hi: int)
    ensures ParseLabel(IntToString(lo) + ['\U{2013}'] + IntToString(hi)) == Some(Range(lo, hi))
  {
    var a, b := IntToString(lo), IntToString(hi);
    var s := a + ['\U{2013}'] + b;
    assert s[|s| - 1] == b[|b| - 1];
    assert s[|a|] == '\U{2013}';
    assert IndexOf(s, '\U{2013}') == |a|;
    assert s[..|a|] == a;
    assert s[|a| + 1..] == b;
    ParseIntOfIntToString(lo);
    ParseIntOfIntToString(hi);
  }

  /**
   Text of a label; the HTML line break after a bounded interval is
   presentation and not modelled. Reading the text back recovers the label,
   so distinct labels render to distinct text.
   */
  function RenderLabel(l: Label): (s: string)
    ensures l.Range? ==> s == IntToString(l.lo) + ['\U{2013}'] + IntToString(l.hi)
    ensures l.OpenEnded? ==> s == IntToString(l.lo) + "+"
    ensures ParseLabel(s) == Some(l)
  {
    match l
    case Range(lo, hi) =>
      ParseRangeText(lo, hi);
      IntToString(lo) + ['\U{2013}'] + IntToString(hi)
    case OpenEnded(lo) =>
      ParseOpenEndedText(lo);
      IntToString(lo) + "+"
  }

  /** The text of the first three labels the legend holds. */
  lemma LowerLabelTexts()
    ensures RenderLabel(Range(-10, 10)) == "-10\U{2013}10"
    ensures RenderLabel(Range(10, 30)) == "10\U{2013}30"
    ensures RenderLabel(Range(30, 50)) == "30\U{2013}50"
  {
    ThresholdTexts();
  }

  /** The text of the last three labels the legend holds. */
  lemma UpperLabelTexts()
    ensures RenderLabel(Range(50, 70)) == "50\U{2013}70"
    ensures RenderLabel(Range(70, 90)) == "70\U{2013}90"
    ensures RenderLabel(OpenEnded(90)) == "90+"
  {
    ThresholdTexts();
  }

  /** The six labels as the page writes them. */
  lemma LegendText()
    ensures |PageLegend()| == 6
    ensures RenderLabel(PageLegend()[0].caption) == "-10\U{2013}10"
    ensures RenderLabel(PageLegend()[1].caption) == "10\U{2013}30"
    ensures RenderLabel(PageLegend()[2].caption) == "30\U{2013}50"
    ensures RenderLabel(PageLegend()[3].caption) == "50\U{2013}70"
    ensures RenderLabel(PageLegend()[4].caption) == "70\U{2013}90"
    ensures RenderLabel(PageLegend()[5].caption) == "90+"
    ensures Name(PageLegend()[0].swatch) == "springgreen" && Name(PageLegend()[5].swatch) == "red"
  {
    LegendLabels();
    LowerLabelTexts();
    UpperLabelTexts();
  }
}
