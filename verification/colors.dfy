/**
 The six marker colors of the earthquake map, ordered from the shallowest
 depth band to the deepest.
 */
module Colors {

  import opened Options

  datatype Color = Springgreen | Yellow | Orange | Darkorange | Orangered | Red

  /** Position of a color on the depth scale: springgreen is 0, red is 5. */
  function Rank(c: Color): (r: nat)
    ensures r < 6
  {
    match c
    case Springgreen => 0
    case Yellow => 1
    case Orange => 2
    case Darkorange => 3
    case Orangered => 4
    case Red => 5
  }

  /** The color at a given position of the depth scale. */
  function OfRank(k: nat): (c: Color)
    requires k < 6
    ensures Rank(c) == k
  {
    if k == 0 then Springgreen
    else if k == 1 then Yellow
    else if k == 2 then Orange
    else if k == 3 then Darkorange
    else if k == 4 then Orangered
    else Red
  }

  /** Rank and OfRank are inverse: the scale is a bijection onto 0..5. */
  lemma OfRankOfRank(c: Color)
    ensures OfRank(Rank(c)) == c
  {
  }

  /** The CSS color name the page writes into the style record and the legend swatch. */
  function Name(c: Color): (s: string)
    ensures |s| > 0
  {
    match c
    case Springgreen => "springgreen"
    case Yellow => "yellow"
    case Orange => "orange"
    case Darkorange => "darkorange"
    case Orangered => "orangered"
    case Red => "red"
  }

  /** Reads a CSS color name back; None for any name the page never emits. */
  function FromName(s: string): (r: Option<Color>)
    ensures r.Some? ==> Name(r.value) == s
  {
    if s == "springgreen" then Some(Springgreen)
    else if s == "yellow" then Some(Yellow)
    else if s == "orange" then Some(Orange)
    else if s == "darkorange" then Some(Darkorange)
    else if s == "orangered" then Some(Orangered)
    else if s == "red" then Some(Red)
    else None
  }

  /** Every color name is read back as the color it names, so distinct colors have distinct names. */
  lemma FromNameOfName(c: Color)
    ensures FromName(Name(c)) == Some(c)
    ensures forall d: Color :: Name(d) == Name(c) ==> d == c
  {
  }
}
