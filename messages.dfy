/**
 The telegram messages of a check, as values, and their text. Python formats
 the numbers and the datetime inside the f-strings; the text is therefore given
 in terms of formatting functions supplied by the caller: one for the mean and
 the last value (floats, such as "65.0"), one for the configured bounds (kept
 as given, integers such as "70" in the shipped configuration) and one for the
 datetime.
 */
module Messages {
  import opened Wrappers
  import opened Decimal
  import opened Readings
  import opened Thresholds

  /** A piece of message text: literal characters, a measured temperature, a configured bound or a datetime. */
  datatype Piece = Lit(chars: string) | Celsius(degrees: real) | Bound(milli: int) | Time(at: Instant)

  /** How Python prints a float temperature, a configured bound and a datetime. */
  datatype Formats = Formats(degrees: real -> string, bound: int -> string, time: Instant -> string)

  /** The two kinds of message a check sends. Bounds are in milli-degrees. */
  datatype Message =
    | CouldNotMeasure(sensor: string, since: Instant)
    | Warning(sensor: string, period: int, average: real, last: real,
              minValue: Option<int>, maxValue: Option<int>)

  /** The text after "Soll: ", appended piece by piece as `_get_warning_message` does. */
  function SollPieces(minValue: Option<int>, maxValue: Option<int>): (r: seq<Piece>)
    ensures r == [] <==> minValue.None? && maxValue.None?
    ensures minValue.Some? ==> Bound(minValue.value) in r
    ensures maxValue.Some? ==> Bound(maxValue.value) in r
    ensures forall p :: p in r && p.Bound? ==>
              (minValue.Some? && p.milli == minValue.value) || (maxValue.Some? && p.milli == maxValue.value)
    ensures forall p :: p in r ==> !p.Celsius? && !p.Time?
  {
    var low :=
      if minValue.Some? then
        [Lit("> "), Bound(minValue.value), Lit("°C")] +
        (if maxValue.Some? then [Lit(", ")] else [Lit(".")])
      else [];
    var high :=
      if maxValue.Some? then [Lit("< "), Bound(maxValue.value), Lit("°C.")]
      else [];
    low + high
  }

  /** The pieces of a message; a warning ends in its "Soll:" pieces. */
  function Pieces(m: Message): (r: seq<Piece>)
    ensures m.CouldNotMeasure? ==> Time(m.since) in r && forall p :: p in r ==> !p.Celsius? && !p.Bound?
    ensures m.Warning? ==>
              var soll := SollPieces(m.minValue, m.maxValue);
              |soll| < |r| && r[|r| - |soll|..] == soll && Celsius(m.average) in r && Celsius(m.last) in r
  {
    match m
    case CouldNotMeasure(sensor, since) =>
      [Lit("Konnte seit "), Time(since), Lit(" Sekunden keine Temperatur von " + sensor + " messen!")]
    case Warning(sensor, period, average, last, minValue, maxValue) =>
      [Lit(sensor + ": Durchschnittliche Temperatur in den letzten " + IntToDecimal(period) + " Sekunden: "),
       Celsius(average), Lit("°C.\nLetzter gemessener Wert: "), Celsius(last), Lit("°C.\nSoll: ")]
      + SollPieces(minValue, maxValue)
  }

  /** The characters of a piece sequence, given how Python prints its values. */
  function Render(ps: seq<Piece>, fmt: Formats): string {
    if ps == [] then ""
    else
      var head := match ps[0]
        case Lit(chars) => chars
        case Celsius(degrees) => fmt.degrees(degrees)
        case Bound(milli) => fmt.bound(milli)
        case Time(at) => fmt.time(at);
      head + Render(ps[1..], fmt)
  }

  function MessageText(m: Message, fmt: Formats): string {
    Render(Pieces(m), fmt)
  }

  lemma {:induction false} RenderConcat(x: seq<Piece>, y: seq<Piece>, fmt: Formats)
    ensures Render(x + y, fmt) == Render(x, fmt) + Render(y, fmt)
  {
    if x == [] {
      assert x + y == y;
    } else {
      assert (x + y)[1..] == x[1..] + y;
      RenderConcat(x[1..], y, fmt);
    }
  }

  lemma RenderLit(chars: string, fmt: Formats)
    ensures Render([Lit(chars)], fmt) == chars
  {
    assert [Lit(chars)][1..] == [];
  }

  lemma RenderBound(before: string, milli: int, after: string, fmt: Formats)
    ensures Render([Lit(before), Bound(milli), Lit(after)], fmt)
            == before + fmt.bound(milli) + after
  {
    var ps := [Lit(before), Bound(milli), Lit(after)];
    assert ps[1..] == [Bound(milli), Lit(after)];
    assert ps[1..][1..] == [Lit(after)];
    RenderLit(after, fmt);
  }

  /** The "Soll:" suffix for each combination of configured bounds. */
  lemma SollSuffixTable(minValue: Option<int>, maxValue: Option<int>, fmt: Formats)
    ensures minValue.Some? && maxValue.None? ==>
              Render(SollPieces(minValue, maxValue), fmt)
              == "> " + fmt.bound(minValue.value) + "°C."
    ensures minValue.None? && maxValue.Some? ==>
              Render(SollPieces(minValue, maxValue), fmt)
              == "< " + fmt.bound(maxValue.value) + "°C."
    ensures minValue.Some? && maxValue.Some? ==>
              Render(SollPieces(minValue, maxValue), fmt)
              == "> " + fmt.bound(minValue.value) + "°C, < " + fmt.bound(maxValue.value) + "°C."
    ensures minValue.None? && maxValue.None? ==>
              Render(SollPieces(minValue, maxValue), fmt) == ""
  {
    var low :=
      if minValue.Some? then
        [Lit("> "), Bound(minValue.value), Lit("°C")] +
        (if maxValue.Some? then [Lit(", ")] else [Lit(".")])
      else [];
    var high :=
      if maxValue.Some? then [Lit("< "), Bound(maxValue.value), Lit("°C.")]
      else [];
    assert SollPieces(minValue, maxValue) == low + high;
    RenderConcat(low, high, fmt);
    if minValue.Some? {
      var tail := if maxValue.Some? then ", " else ".";
      RenderConcat([Lit("> "), Bound(minValue.value), Lit("°C")], [Lit(tail)], fmt);
      RenderBound("> ", minValue.value, "°C", fmt);
      RenderLit(tail, fmt);
    }
    if maxValue.Some? {
      RenderBound("< ", maxValue.value, "°C.", fmt);
    }
  }

  /** Every warning ends in the "Soll:" suffix of the bounds it was built with. */
  lemma WarningEndsWithSoll(sensor: string, period: int, average: real, last: real,
                            minValue: Option<int>, maxValue: Option<int>,
                            fmt: Formats)
    ensures var text := MessageText(Warning(sensor, period, average, last, minValue, maxValue), fmt);
            var soll := Render(SollPieces(minValue, maxValue), fmt);
            |soll| <= |text| && text[|text| - |soll|..] == soll
  {
    var front := [Lit(sensor + ": Durchschnittliche Temperatur in den letzten " + IntToDecimal(period) + " Sekunden: "),
                  Celsius(average), Lit("°C.\nLetzter gemessener Wert: "), Celsius(last), Lit("°C.\nSoll: ")];
    RenderConcat(front, SollPieces(minValue, maxValue), fmt);
  }
}
