# Earthquake map styling — a Dafny model

The page draws the day's earthquakes on a Leaflet map. Each earthquake is a
circle marker. Its fill color comes from the earthquake's depth and its
radius from the magnitude. A legend in the corner lists six depth intervals
with their colors. This project models the four pieces of logic behind that
in `static/js/logic.js`, and proves that they agree:

- `getColor` is the depth classifier. It is a first-match-wins ladder of strict `>` tests (`Classifier.GetColor`).
- `radiusSize` is the magnitude scaler, `magnitude * 5` with no clamping (`Scaler.RadiusSize`).
- `dataStyle` is the per-feature style record (`Style.DataStyle`).
- The swatch-and-label loop of `legend.onAdd` becomes a sequence of (color, label) entries (`Legend.BuildLegend`, `Legend.PageLegend`).

The classifier and the legend each hold their own copy of the thresholds.
The classifier has them as literals and the legend as the `depths` array.
The central results check that the two copies agree. The legend's thresholds
are the classifier's boundaries. Each swatch is the color the classifier
gives every depth in that entry's interval. The swatches climb the color
scale one step per entry.

Depths and magnitudes are Dafny `real`s. The six colors form a datatype,
ordered springgreen < yellow < orange < darkorange < orangered < red
(`Colors.Rank`). The legend's HTML is reduced to entries of a swatch color
and a `Label`. A `Label` is either `Range(lo, hi)` or `OpenEnded(lo)`. It is
rendered as the text `lo–hi` or `lo+`. `Decimal` supplies JavaScript's
decimal text for integers of magnitude at most 2^53, which covers all six
thresholds.

Files: `options.dfy` (Option type), `colors.dfy`, `decimal.dfy`,
`classifier.dfy`, `scaler.dfy`, `style.dfy`, `legend.dfy`.

## Model

| member | source | states |
|---|---|---|
| Classifier.GetColor | static/js/logic.js:42-55 | total over all depths; the rank of the color is the number of boundaries 10, 30, 50, 70, 90 lying strictly below the depth |
| Classifier.GetColorIsBand | static/js/logic.js:42-55 | the six bands partition the reals, and getColor returns color c exactly when the depth lies in c's band (both directions) |
| Classifier.BoundaryInLowerBand | static/js/logic.js:43-51 | each boundary itself falls in the band below it, because every test is strict |
| Classifier.BoundaryColors | static/js/logic.js:43-54 | depths 90, 70, 50, 30, 10 give orangered, darkorange, orange, yellow, springgreen |
| Classifier.GetColorMonotone | static/js/logic.js:42-55 | a deeper earthquake never gets a color lower on the scale |
| Colors.FromNameOfName | static/js/logic.js:43-54 | every color name reads back as its color, so the six CSS names are pairwise distinct |
| Scaler.RadiusSize | static/js/logic.js:58-60 | the magnitude is recoverable from the radius (radius / 5); the radius is negative or zero exactly when the magnitude is, so nothing is clamped |
| Scaler.RadiusSizeStrictlyIncreasing | static/js/logic.js:58-60 | a larger magnitude always gives a strictly larger radius |
| Scaler.RadiusSizeInjective | static/js/logic.js:58-60 | two different magnitudes never share a radius |
| Scaler.RadiusSizeExamples | static/js/logic.js:58-60 | radii for magnitudes 0, 2 and -1 are 0, 10 and -5 |
| Style.FillColor | static/js/logic.js:92 | with a third coordinate, the fill color is the band of that depth; without one (`undefined`), every test fails and the color is springgreen |
| Style.DataStyle | static/js/logic.js:88-96 | fill color is the depth's band; the magnitude is recoverable from the radius; opacity 0.6, fillOpacity 0.5, weight 0.5 and color "black" for every feature |
| Style.DataStyleDependsOnDepthAndMagnitude | static/js/logic.js:88-96 | two features get the same style exactly when their depths classify alike and their magnitudes are equal |
| Style.DataStyleOrdered | static/js/logic.js:88-96 | a deeper and stronger earthquake is drawn no lower on the color scale and no smaller |
| Style.DataStyleExample | static/js/logic.js:88-96 | a magnitude-4 earthquake at depth 35 is drawn "orange" with radius 20 |
| Legend.LabelAt | static/js/logic.js:138 | an entry's label starts at its own threshold; it is bounded exactly when `depths[i + 1]` is truthy, and then by that next threshold |
| Legend.PageLegend | static/js/logic.js:129-142 | the page's legend has one entry per threshold of [-10, 10, 30, 50, 70, 90], in that order, and entry i's swatch is the i-th color of the scale |
| Legend.BuildLegend | static/js/logic.js:135-139 | one entry per threshold, in threshold order; entry k's swatch is the color of depth threshold+1 and its label is bounded by the next threshold when that is truthy |
| Legend.TruthyIffNextExists | static/js/logic.js:138 | with no zero threshold, the truthiness test on `depths[i + 1]` holds exactly when a next threshold exists |
| Legend.ZeroThresholdEndsLabel | static/js/logic.js:138 | a zero threshold would make the preceding label open-ended although a next threshold exists |
| Legend.LegendThresholdsAreBoundaries | static/js/logic.js:131 | the legend's thresholds after the first are exactly the classifier's boundaries, and the first lies below them all |
| Legend.LegendLabels | static/js/logic.js:131-139 | the legend has six entries; entry i < 5 is labelled from threshold i to threshold i+1, and the last is "90 and above" |
| Legend.LegendSwatchMatchesClassifier | static/js/logic.js:137 | each swatch is the color getColor gives every depth in that entry's interval, and above -10 only those depths get it |
| Legend.LegendFirstSwatchBelow | static/js/logic.js:137 | depths at or below -10 share the first entry's swatch |
| Legend.LegendSwatchesOrdered | static/js/logic.js:131-137 | swatch i is the i-th color of the scale, so the swatches are pairwise distinct, follow the classifier's order, and cover all six colors |
| Decimal.IntToString | static/js/logic.js:138 | the decimal text of an integer is digits with no leading zero, preceded by '-' exactly for negative numbers, and 0 is written "0"; together with the round trip this fixes the text uniquely |
| Decimal.ParseIntOfIntToString | static/js/logic.js:138 | reading back the decimal text of any integer gives that integer |
| Legend.RenderLabel | static/js/logic.js:138 | a bounded label is written as the decimal text of its lower bound, U+2013 and the decimal text of its upper bound; the last one as its bound followed by "+"; reading the text back recovers the label, so distinct labels render to distinct text |
| Legend.LegendText | static/js/logic.js:137-138 | the labels read "-10–10", "10–30", "30–50", "50–70", "70–90", "90+", from springgreen to red |

## Left out

- Tile layers, the map object, the base-layer switch and the overlay object (static/js/logic.js:1-39, 121-124): declarative configuration of the mapping library.
- The two `d3.json` fetches and their callbacks (static/js/logic.js:66-74, 84-115): network I/O; their only logic is calling the functions modelled here.
- `L.geoJson`, `L.circleMarker`, `bindPopup` and the popup text (static/js/logic.js:100-114): library calls and presentation.
- The legend's DOM element and `innerHTML` concatenation, including the `<i>` swatch markup, the space after it and the `<br>` after bounded labels (static/js/logic.js:130, 136-138): the legend is modelled as a sequence of (color, label) entries. The label text is the text after the browser decodes the `&ndash;` entity, so a bounded label holds the character U+2013.
- IEEE-754 arithmetic: depths and magnitudes are exact reals. `NaN` depths (which would also fall through to springgreen) and rounding in `magnitude * 5` are not modelled.
- Style.DataStyle: a `null` magnitude in the feed (which JavaScript multiplies as 0) is not modelled; the magnitude is always a number. A feature whose `geometry` or `properties` is `null` makes the source throw a TypeError at static/js/logic.js:92 or 94; every modelled feature has both, so that error path is not modelled.
- Decimal.IntToString: above 2^53 not every integer is a JavaScript number, and the text JavaScript prints is the shortest round-tripping digits padded with zeros (`String(2**60)` is "1152921504606847000"); from 10^21 it uses exponent notation ("1e+21"). The model gives the exact digits of every integer. The legend's thresholds are far below both limits.
