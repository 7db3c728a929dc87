/** The tag badge: its background colour, the contrasting text colour read off that
    background, and the link it carries. */
module TagBadge {
  import opened Wrappers
  import opened Text
  import opened Types
  import TagValidators

  /** The background of a tag without a colour. */
  const FALLBACK_COLOR := "#6e7781"
  const BLACK := "#000000"
  const WHITE := "#ffffff"

  datatype Rgb = Rgb(r: nat, g: nat, b: nat)

  /** The value of one hexadecimal digit, either case. */
  function HexValue(c: char): (v: nat)
    requires IsHexDigit(c)
    ensures v < 16
  {
    if IsDigit(c) then c as int - '0' as int
    else if 'a' <= c <= 'f' then c as int - 'a' as int + 10
    else c as int - 'A' as int + 10
  }

  /** `parseInt(xy, 16)` of two hexadecimal digits. */
  function ByteValue(x: char, y: char): (v: nat)
    requires IsHexDigit(x) && IsHexDigit(y)
    ensures v < 256
  {
    16 * HexValue(x) + HexValue(y)
  }

  predicate HexDigits(s: string) {
    forall k :: 0 <= k < |s| ==> IsHexDigit(s[k])
  }

  /** The six digits `/^#?([a-f\d]{2})([a-f\d]{2})([a-f\d]{2})$/i` captures, when it matches. */
  function ColorDigits(hex: string): (d: Option<string>)
    ensures d.Some? <==> (|hex| == 7 && hex[0] == '#' && HexDigits(hex[1..])) || (|hex| == 6 && HexDigits(hex))
    ensures d.Some? ==> |d.value| == 6 && HexDigits(d.value) && (d.value == hex || d.value == hex[1..])
  {
    if |hex| == 7 && hex[0] == '#' && HexDigits(hex[1..]) then Some(hex[1..])
    else if |hex| == 6 && HexDigits(hex) then Some(hex)
    else None
  }

  /** `hexToRgb`: the three channels, each below 256, or nothing when the pattern fails. */
  function HexToRgb(hex: string): (c: Option<Rgb>)
    ensures c.Some? <==> ColorDigits(hex).Some?
    ensures c.Some? ==> c.value.r < 256 && c.value.g < 256 && c.value.b < 256
  {
    match ColorDigits(hex)
    case None => None
    case Some(d) => Some(Rgb(ByteValue(d[0], d[1]), ByteValue(d[2], d[3]), ByteValue(d[4], d[5])))
  }

  /** Every colour the tag schemas accept is one the badge can read. */
  lemma ValidatedColorsParse(color: string)
    requires TagValidators.IsHexColor(color)
    ensures HexToRgb(color).Some?
  {
    assert forall k :: 0 <= k < 6 ==> color[1..][k] == color[k + 1];
  }

  /** The lower-case digit of a value below 16. */
  function HexDigit(v: nat): (c: char)
    requires v < 16
    ensures IsHexDigit(c) && HexValue(c) == v
  {
    if v < 10 then ('0' as int + v) as char else ('a' as int + v - 10) as char
  }

  /** A channel as two lower-case digits. */
  function ByteHex(v: nat): (s: string)
    requires v < 256
    ensures |s| == 2 && HexDigits(s) && ByteValue(s[0], s[1]) == v
  {
    [HexDigit(v / 16), HexDigit(v % 16)]
  }

  /** Reading back a colour written as `#rrggbb` gives the channels it was written from. */
  lemma HexToRgbInverts(c: Rgb)
    requires c.r < 256 && c.g < 256 && c.b < 256
    ensures HexToRgb("#" + ByteHex(c.r) + ByteHex(c.g) + ByteHex(c.b)) == Some(c)
  {
    var hex := "#" + ByteHex(c.r) + ByteHex(c.g) + ByteHex(c.b);
    var d := hex[1..];
    assert d == ByteHex(c.r) + ByteHex(c.g) + ByteHex(c.b);
    assert d[0] == ByteHex(c.r)[0] && d[1] == ByteHex(c.r)[1];
    assert d[2] == ByteHex(c.g)[0] && d[3] == ByteHex(c.g)[1];
    assert d[4] == ByteHex(c.b)[0] && d[5] == ByteHex(c.b)[1];
    assert ColorDigits(hex) == Some(d);
  }

  /** `(0.299 r + 0.587 g + 0.114 b) / 255 > 0.5` as the browser evaluates it in doubles.
      Scaled to integers the test is `299 r + 587 g + 114 b > 127500`; of the triples whose
      exact sum is the boundary 127500, only (218, 58, 248) rounds above 0.5 in doubles
      (to 0.5000000000000001), so it is light as well. */
  predicate Light(c: Rgb) {
    299 * c.r + 587 * c.g + 114 * c.b > 127500 || (c.r == 218 && c.g == 58 && c.b == 248)
  }

  /** `getContrastColor`: black text on a light background or on a colour it cannot read,
      white text on a dark one. */
  function ContrastColor(hex: string): (text: string)
    ensures HexToRgb(hex).None? ==> text == BLACK
    ensures HexToRgb(hex).Some? ==> (text == BLACK <==> Light(HexToRgb(hex).value))
    ensures text == BLACK || text == WHITE
  {
    match HexToRgb(hex)
    case None => BLACK
    case Some(c) => if Light(c) then BLACK else WHITE
  }

  /** White reads as light and black as dark, and a brighter channel never turns light
      into dark. */
  lemma LightnessMonotone(c: Rgb, d: Rgb)
    requires c.r <= d.r && c.g <= d.g && c.b <= d.b
    ensures Light(c) ==> Light(d)
    ensures Light(Rgb(255, 255, 255)) && !Light(Rgb(0, 0, 0))
  {
  }

  /** The badge: the tag's name on its colour, or on the fallback colour when it has
      none (an empty colour is kept as it is), and the tag filter link when asked for. */
  datatype Badge = Badge(name: string, background: string, textColor: string, href: Option<string>)

  function TagBadge(tag: TagView, asLink: bool): (b: Badge)
    ensures b.name == tag.name
    ensures b.background == if tag.color.Some? then tag.color.value else FALLBACK_COLOR
    ensures b.textColor == ContrastColor(b.background)
    ensures b.href.Some? <==> asLink
    ensures asLink ==> b.href.value == "/?tag=" + tag.slug
  {
    var bg := tag.color.GetOr(FALLBACK_COLOR);
    Badge(tag.name, bg, ContrastColor(bg), if asLink then Some("/?tag=" + tag.slug) else None)
  }

  /** A tag with no colour is drawn on the fallback grey, which is readable. */
  lemma FallbackReadable()
    ensures HexToRgb(FALLBACK_COLOR).Some?
  {
    assert FALLBACK_COLOR[1..] == "6e7781";
    assert HexDigits(FALLBACK_COLOR[1..]);
  }
}
