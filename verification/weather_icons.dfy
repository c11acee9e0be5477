/** The weather-code to icon table and its fallback. */
module WeatherIcons {

  /** One constructor per distinct emoji of the table, plus the fallback. */
  datatype Icon = Sunny | PartlyCloudy | Cloudy | Fog | SunShower | Rain | Snow | Thunderstorm | Unknown

  /** `WEATHER_ICONS`, key by key. */
  const IconTable: map<int, Icon> := map[
    0 := Sunny, 1 := PartlyCloudy, 2 := PartlyCloudy, 3 := Cloudy,
    45 := Fog, 48 := Fog,
    51 := SunShower, 53 := SunShower, 55 := SunShower,
    61 := Rain, 63 := Rain, 65 := Rain,
    71 := Snow, 73 := Snow, 75 := Snow,
    80 := SunShower, 81 := Rain, 82 := Rain,
    95 := Thunderstorm
  ]

  /** The codes each icon stands for, grouped by icon: an independent
      description of the same table, read column-wise. */
  function CodesOf(icon: Icon): set<int> {
    match icon
    case Sunny => {0}
    case PartlyCloudy => {1, 2}
    case Cloudy => {3}
    case Fog => {45, 48}
    case SunShower => {51, 53, 55, 80}
    case Rain => {61, 63, 65, 81, 82}
    case Snow => {71, 73, 75}
    case Thunderstorm => {95}
    case Unknown => {}
  }

  /** `WEATHER_ICONS[code] || '❓'`: the table entry, or the unknown icon for a
      code the table lacks (no entry is falsy, see `GlyphsAreNonEmpty`). */
  function IconFor(code: int): (icon: Icon)
    ensures icon == Unknown <==> code !in IconTable
    ensures icon != Unknown ==> code in CodesOf(icon)
  {
    if code in IconTable then IconTable[code] else Unknown
  }

  /** Every code listed under an icon maps back to that icon. */
  lemma IconForInvertsCodesOf(icon: Icon, code: int)
    requires code in CodesOf(icon)
    ensures IconFor(code) == icon
  {
  }

  /** The examples the table is known for. */
  lemma KnownCodes()
    ensures IconFor(95) == Thunderstorm
    ensures IconFor(45) == Fog && IconFor(48) == Fog
  {
  }

  /** Codes next to or beyond the table fall back to the unknown icon. */
  lemma UnlistedCodes()
    ensures IconFor(4) == Unknown && IconFor(96) == Unknown
  {
  }

  /** The emoji the page shows for each icon. */
  function Glyph(icon: Icon): string {
    match icon
    case Sunny => "\U{2600}\U{FE0F}"
    case PartlyCloudy => "\U{26C5}\U{FE0F}"
    case Cloudy => "\U{2601}\U{FE0F}"
    case Fog => "\U{1F32B}\U{FE0F}"
    case SunShower => "\U{1F326}"
    case Rain => "\U{1F327}"
    case Snow => "\U{2744}\U{FE0F}"
    case Thunderstorm => "\U{26C8}\U{FE0F}"
    case Unknown => "\U{2753}"
  }

  /** Table entries are non-empty strings, hence truthy: the `||` fallback only
      fires for codes missing from the table. */
  lemma GlyphsAreNonEmpty(icon: Icon)
    ensures |Glyph(icon)| > 0
  {
  }

  /** Distinct icons have distinct emoji, so the enumeration loses nothing. */
  lemma GlyphIsInjective(a: Icon, b: Icon)
    requires Glyph(a) == Glyph(b)
    ensures a == b
  {
  }
}
