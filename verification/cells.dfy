/** Spreadsheet cells and the pandas conversions the loader applies to them:
    `astype(int)`, `astype(float)`, `astype(str)` and the percent-string rate. */
module Cells {
  import opened Results
  import opened Text

  /** A cell as the spreadsheet reader hands it over: empty (NaN), numeric or text. */
  datatype Cell = Blank | Number(x: real) | Str(s: string)

  /** Python's own number parsing and float rendering, which this model does
      not reimplement: `int(s)`, `float(s)` (None where Python raises) and `str(x)`. */
  datatype Parsers = Parsers(
    parseInt: string -> Option<int>,
    parseFloat: string -> Option<real>,
    render: real -> string)

  /** Conversion of a float to int, which drops the fraction toward zero. */
  function Trunc(x: real): (r: int)
    ensures 0.0 <= x ==> 0 <= r && r as real <= x < r as real + 1.0
    ensures x < 0.0 ==> r <= 0 && r as real - 1.0 < x <= r as real
  {
    if x >= 0.0 then x.Floor else -((-x).Floor)
  }

  /** `astype(int)`: numbers are truncated, text is parsed, an empty cell raises. */
  function AsInt(c: Cell, p: Parsers): (r: Option<int>)
    ensures c.Blank? ==> r.None?
    ensures c.Number? ==> r.Some?
    ensures c.Number? && 0.0 <= c.x ==> 0 <= r.value && r.value as real <= c.x < r.value as real + 1.0
    ensures c.Number? && c.x < 0.0 ==> r.value <= 0 && c.x <= r.value as real < c.x + 1.0
    ensures c.Number? && c.x == c.x.Floor as real ==> r == Some(c.x.Floor)
  {
    match c
    case Blank => None
    case Number(x) => Some(Trunc(x))
    case Str(s) => p.parseInt(s)
  }

  /** `astype(float)`: numbers pass through unchanged, text is parsed. */
  function AsFloat(c: Cell, p: Parsers): (r: Option<real>)
    ensures c.Blank? ==> r.None?
    ensures c.Number? ==> r == Some(c.x)
  {
    match c
    case Blank => None
    case Number(x) => Some(x)
    case Str(s) => p.parseFloat(s)
  }

  /** `astype(str)`: an empty cell becomes the text "nan". */
  function AsStr(c: Cell, p: Parsers): (r: string)
    ensures c.Str? ==> r == c.s
  {
    match c
    case Blank => "nan"
    case Number(x) => p.render(x)
    case Str(s) => s
  }

  /** The late rate: `astype(str).str.replace('%', '').astype(float)`. */
  function PercentRate(c: Cell, p: Parsers): (r: Option<real>)
    ensures c.Blank? ==> r == p.parseFloat("nan")
    ensures c.Str? && '%' !in c.s ==> r == p.parseFloat(c.s)
    ensures c.Number? && '%' !in p.render(c.x) ==> r == p.parseFloat(p.render(c.x))
  {
    var s := AsStr(c, p);
    if '%' !in s then
      StripPercentKeepsPlain(s);
      p.parseFloat(StripPercent(s))
    else
      p.parseFloat(StripPercent(s))
  }

  /** "12.5%" and "12.5" give the same late rate, whatever the parser. */
  lemma PercentRateIgnoresSuffix(s: string, p: Parsers)
    ensures PercentRate(Str(s + "%"), p) == PercentRate(Str(s), p)
  {
    StripPercentSuffix(s);
  }

  /** A numeric cell and its `%`-suffixed rendering give the same late rate. */
  lemma PercentRateNumberOrText(x: real, p: Parsers)
    ensures PercentRate(Str(p.render(x) + "%"), p) == PercentRate(Number(x), p)
  {
    StripPercentSuffix(p.render(x));
  }

  /** Where Python reads back what it rendered, a numeric late rate is kept exactly. */
  lemma PercentRateOfNumber(x: real, p: Parsers)
    requires '%' !in p.render(x)
    requires p.parseFloat(p.render(x)) == Some(x)
    ensures PercentRate(Number(x), p) == Some(x)
    ensures PercentRate(Str(p.render(x) + "%"), p) == Some(x)
  {
    StripPercentKeepsPlain(p.render(x));
    StripPercentSuffix(p.render(x));
  }
}
