/**
 * `to_anstyle_color` of src/assets/mod.rs: a theme colour `#RRGGBBAA` as a terminal
 * colour. Alpha 0 encodes a palette number in red, alpha 1 the terminal's default
 * colour, and any other alpha a true colour.
 */
module Assets {
  import opened Base

  newtype U8 = x: int | 0 <= x < 256

  /** `syntect::highlighting::Color`. */
  datatype ThemeColor = ThemeColor(r: U8, g: U8, b: U8, a: U8)

  /** The eight colours of `anstyle::AnsiColor` that have their own escape codes. */
  datatype AnsiColor = Black | Red | Green | Yellow | Blue | Magenta | Cyan | White

  /** `anstyle::Color`. */
  datatype Color = Ansi(named: AnsiColor) | Ansi256(index: U8) | Rgb(red: U8, green: U8, blue: U8)

  /** The named colour of palette numbers 0 to 7, in palette order. */
  function NamedColor(n: U8): (c: AnsiColor)
    requires n < 8
  {
    [Black, Red, Green, Yellow, Blue, Magenta, Cyan, White][n]
  }

  /** `to_anstyle_color`. */
  function ToAnstyleColor(color: ThemeColor): (r: Option<Color>)
    ensures color.a == 0 && color.r < 8 ==> r == Some(Ansi(NamedColor(color.r)))
    ensures color.a == 0 && color.r >= 8 ==> r == Some(Ansi256(color.r))
    ensures color.a == 1 ==> r == None
    ensures color.a > 1 ==> r == Some(Rgb(color.r, color.g, color.b))
  {
    if color.a == 0 then
      Some(match color.r
           case 0 => Ansi(Black)
           case 1 => Ansi(Red)
           case 2 => Ansi(Green)
           case 3 => Ansi(Yellow)
           case 4 => Ansi(Blue)
           case 5 => Ansi(Magenta)
           case 6 => Ansi(Cyan)
           case 7 => Ansi(White)
           case n => Ansi256(n))
    else if color.a == 1 then None
    else Some(Rgb(color.r, color.g, color.b))
  }

  /** Only alpha 1 gives no colour; the green and blue channels matter only to a true
      colour (alpha above 1); and the palette numbers 0 to 255 all give distinct colours. */
  lemma ColorChannels(c: ThemeColor, d: ThemeColor)
    ensures ToAnstyleColor(c).None? <==> c.a == 1
    ensures c.a <= 1 && c.r == d.r && c.a == d.a ==> ToAnstyleColor(c) == ToAnstyleColor(d)
    ensures c.a == 0 && d.a == 0 && c.r != d.r ==> ToAnstyleColor(c) != ToAnstyleColor(d)
    ensures c.a > 1 && d.a > 1 ==>
              (ToAnstyleColor(c) == ToAnstyleColor(d) <==> c.r == d.r && c.g == d.g && c.b == d.b)
  {
    if c.a == 0 && d.a == 0 && c.r != d.r && c.r < 8 && d.r < 8 {
      assert NamedColor(c.r) != NamedColor(d.r);
    }
  }
}
