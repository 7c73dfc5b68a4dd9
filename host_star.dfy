/** How a host star is drawn: its position, visual radius and color
    (hwo-frontend/src/Components/HostStar.js). */
module HostStar {
  import opened Common
  import opened Catalog

  /** The star sits 99 units further along z than its catalog position. */
  const StarZOffset: real := 99.0
  /** Scale applied to the catalog position (1: unchanged). */
  const PositionScale: real := 1.0
  /** Visual radius of a star of one solar radius. */
  const StarScale: real := 0.25

  /** A `THREE.Color` built from a hex string, as its red, green and blue
      components (0 to 255). */
  datatype Color = Rgb(r: int, g: int, b: int)

  const Blue: Color := Rgb(0x58, 0x75, 0xe1)        // #5875e1, O
  const BluishWhite: Color := Rgb(0x7f, 0xa9, 0xff) // #7fa9ff, B
  const White: Color := Rgb(0xc0, 0xdd, 0xff)       // #c0ddff, A
  const YellowishWhite: Color := Rgb(0xff, 0xf8, 0xdc) // #fff8dc, F
  const Yellow: Color := Rgb(0xff, 0xec, 0xb3)      // #ffecb3, G
  const LightOrange: Color := Rgb(0xff, 0xb3, 0x66) // #ffb366, K
  const OrangishRed: Color := Rgb(0xff, 0x70, 0x43) // #ff7043, M
  const RedBrown: Color := Rgb(0xff, 0x63, 0x47)    // #ff6347, L
  const DarkBrown: Color := Rgb(0x8a, 0x5a, 0x44)   // #8a5a44, T
  const DwarfWhite: Color := Rgb(0xf0, 0xf0, 0xf0)  // #f0f0f0, D
  const Grey: Color := Rgb(0xc0, 0xc0, 0xc0)        // #c0c0c0, default

  /** What the component draws for one star. */
  datatype StarRender = StarRender(position: Vec3, size: real, color: Color)

  /** `starSize`: the radius scaled by 0.25 when it is a positive number,
      and 0.25 itself otherwise. */
  function StarSize(starRadius: Option<real>): (size: real)
    ensures size > 0.0
    ensures FinitePositive(starRadius) ==> size == starRadius.value * StarScale
    ensures !FinitePositive(starRadius) ==> size == StarScale
  {
    if FinitePositive(starRadius) then starRadius.value * StarScale else StarScale
  }

  /** `colorsAreEqual`: componentwise comparison, which is equality of colors. */
  function ColorsAreEqual(c1: Color, c2: Color): (eq: bool)
    ensures eq <==> c1 == c2
  {
    c1.r == c2.r && c1.g == c2.g && c1.b == c2.b
  }

  /** The one-letter codes the spectral table knows. */
  const SpectralLetters: seq<string> := ["O", "B", "A", "F", "G", "K", "M", "L", "T", "D"]

  /** `getSpectralTypeColor`: the `switch` over the one-letter spectral code.
      Exactly the known codes get a color of their own; every other code, and
      a missing one, gets grey. */
  function SpectralTypeColor(spectralType: Option<string>): (c: Color)
    ensures c != Grey <==> spectralType.Some? && spectralType.value in SpectralLetters
  {
    match spectralType
    case Some("O") => Blue
    case Some("B") => BluishWhite
    case Some("A") => White
    case Some("F") => YellowishWhite
    case Some("G") => Yellow
    case Some("K") => LightOrange
    case Some("M") => OrangishRed
    case Some("L") => RedBrown
    case Some("T") => DarkBrown
    case Some("D") => DwarfWhite
    case _ => Grey
  }

  /** `getTemperatureColor`: the descending threshold ladder. A missing
      temperature compares as 0 against every threshold and falls through to
      grey. */
  function TemperatureColor(teff: Option<real>): (c: Color)
    ensures c == Grey <==> teff.None? || teff.value < 550.0
  {
    var t := if teff.Some? then teff.value else 0.0;
    if t >= 33000.0 then Blue
    else if t >= 10000.0 then BluishWhite
    else if t >= 7300.0 then White
    else if t >= 6000.0 then YellowishWhite
    else if t >= 5300.0 then Yellow
    else if t >= 3900.0 then LightOrange
    else if t >= 2300.0 then OrangishRed
    else if t >= 1300.0 then RedBrown
    else if t >= 550.0 then DarkBrown
    else Grey
  }

  /** The ladder's thresholds, coolest first. */
  const Thresholds: seq<real> := [550.0, 1300.0, 2300.0, 3900.0, 5300.0, 6000.0, 7300.0, 10000.0, 33000.0]

  /** The spectral letters of the ladder's bands, coolest first: band k
      (1 to 9) starts at Thresholds[k - 1]. */
  const BandLetters: seq<string> := ["T", "L", "M", "K", "G", "F", "A", "B", "O"]

  /** How many thresholds of `ts` lie at or below `t`. */
  function CountAtOrBelow(ts: seq<real>, t: real): (n: nat)
    ensures n <= |ts|
  {
    if ts == [] then 0
    else (if ts[0] <= t then 1 else 0) + CountAtOrBelow(ts[1..], t)
  }

  /** The band a temperature falls in: 0 below 550 or when missing, 9 at
      33000 and above. */
  function Band(teff: Option<real>): (k: nat)
    ensures k <= 9
  {
    CountAtOrBelow(Thresholds, if teff.Some? then teff.value else 0.0)
  }

  /** The color of a band: grey for band 0, otherwise the spectral table's
      color of the band's letter. */
  function BandColor(k: nat): Color
    requires k <= 9
  {
    if k == 0 then Grey else SpectralTypeColor(Some(BandLetters[k - 1]))
  }

  /** Raising the temperature never lowers the band. */
  lemma {:induction false} CountAtOrBelowMonotone(ts: seq<real>, t1: real, t2: real)
    requires t1 <= t2
    ensures CountAtOrBelow(ts, t1) <= CountAtOrBelow(ts, t2)
  {
    if ts != [] {
      CountAtOrBelowMonotone(ts[1..], t1, t2);
    }
  }

  /** The ladder is monotone: a hotter star never lands in a cooler band. */
  lemma BandMonotone(t1: real, t2: real)
    requires t1 <= t2
    ensures Band(Some(t1)) <= Band(Some(t2))
  {
    CountAtOrBelowMonotone(Thresholds, t1, t2);
  }

  /** The ladder's color is the color of the band the temperature falls in,
      which for bands 1 to 9 is the spectral table's color of that band's
      letter. */
  lemma TemperatureColorIsBandColor(teff: Option<real>)
    ensures TemperatureColor(teff) == BandColor(Band(teff))
  {
    var t := if teff.Some? then teff.value else 0.0;
    var k :=
      if t >= 33000.0 then 9 else if t >= 10000.0 then 8 else if t >= 7300.0 then 7
      else if t >= 6000.0 then 6 else if t >= 5300.0 then 5 else if t >= 3900.0 then 4
      else if t >= 2300.0 then 3 else if t >= 1300.0 then 2 else if t >= 550.0 then 1 else 0;
    CountOfSorted(Thresholds, t, k);
    assert Band(teff) == k;
    BandColorTable(k);
    assert TemperatureColor(teff) == [Grey, DarkBrown, RedBrown, OrangishRed, LightOrange, Yellow,
                                      YellowishWhite, White, BluishWhite, Blue][k];
  }

  /** The band colors, coolest first. */
  lemma BandColorTable(k: nat)
    requires k <= 9
    ensures BandColor(k) == [Grey, DarkBrown, RedBrown, OrangishRed, LightOrange, Yellow,
                             YellowishWhite, White, BluishWhite, Blue][k]
  {
    if k > 0 {
      assert BandLetters[k - 1] == ["T", "L", "M", "K", "G", "F", "A", "B", "O"][k - 1];
    }
  }

  /** In an ascending list, `t` has exactly `k` entries at or below it when
      it lies between the k-th and the (k+1)-th. */
  lemma {:induction false} CountOfSorted(ts: seq<real>, t: real, k: nat)
    requires forall i, j :: 0 <= i < j < |ts| ==> ts[i] <= ts[j]
    requires k <= |ts|
    requires k == 0 || ts[k - 1] <= t
    requires k == |ts| || t < ts[k]
    ensures CountAtOrBelow(ts, t) == k
  {
    if ts != [] {
      if k == 0 {
        CountOfSorted(ts[1..], t, 0);
      } else {
        CountOfSorted(ts[1..], t, k - 1);
      }
    }
  }

  /** Distinct bands have distinct colors, so the band can be read back from
      the ladder's color. */
  lemma BandColorInjective(k1: nat, k2: nat)
    requires k1 <= 9 && k2 <= 9
    requires BandColor(k1) == BandColor(k2)
    ensures k1 == k2
  {
    BandOfBandColor(k1);
    BandOfBandColor(k2);
  }

  /** Reads the band back from a ladder color. */
  function BandOfColor(c: Color): nat {
    if c == Blue then 9 else if c == BluishWhite then 8 else if c == White then 7
    else if c == YellowishWhite then 6 else if c == Yellow then 5 else if c == LightOrange then 4
    else if c == OrangishRed then 3 else if c == RedBrown then 2 else if c == DarkBrown then 1 else 0
  }

  lemma BandOfBandColor(k: nat)
    requires k <= 9
    ensures BandOfColor(BandColor(k)) == k
  {
    if k > 0 {
      var letter := BandLetters[k - 1];
      assert letter == ["T", "L", "M", "K", "G", "F", "A", "B", "O"][k - 1];
    }
  }

  /** A temperature in the band that starts at `Thresholds[k - 1]` gets the
      spectral color of that band's letter: "G" and 5300 <= teff < 6000, for
      instance. */
  lemma LadderMatchesSpectralTable(k: nat, teff: real)
    requires 1 <= k <= 9
    requires Thresholds[k - 1] <= teff
    requires k == 9 || teff < Thresholds[k]
    ensures TemperatureColor(Some(teff)) == SpectralTypeColor(Some(BandLetters[k - 1]))
  {
    TemperatureColorIsBandColor(Some(teff));
  }

  /** The white-dwarf color is never produced by the ladder. */
  lemma DwarfWhiteNotOnLadder(teff: Option<real>)
    ensures TemperatureColor(teff) != SpectralTypeColor(Some("D"))
  {
  }

  /** The color resolution: start from the spectral color and replace it by
      the temperature color when the two differ. Either way the result is the
      temperature color. */
  function StarColor(spectralType: Option<string>, teff: Option<real>): (c: Color)
    ensures ColorsAreEqual(c, TemperatureColor(teff))
  {
    var specTypeColor := SpectralTypeColor(spectralType);
    var temperatureColor := TemperatureColor(teff);
    if !ColorsAreEqual(specTypeColor, temperatureColor) then temperatureColor else specTypeColor
  }

  /** The spectral type never changes the star's color. */
  lemma SpectralTypeIrrelevant(s1: Option<string>, s2: Option<string>, teff: Option<real>)
    ensures StarColor(s1, teff) == StarColor(s2, teff)
  {
  }

  /** The host star component: nothing when a coordinate is null, otherwise
      the star at its catalog position moved 99 along z, with its size and
      color. */
  function RenderHostStar(star: CatalogRow): (r: Option<StarRender>)
    ensures r.None? <==> star.x.None? || star.y.None? || star.z.None?
    ensures r.Some? ==> r.value.position == Vec3(star.x.value, star.y.value, star.z.value + StarZOffset)
    ensures r.Some? ==> r.value.size == StarSize(star.starRadius) && r.value.size > 0.0
    ensures r.Some? ==> r.value.color == TemperatureColor(star.temperature)
  {
    if star.x.None? || star.y.None? || star.z.None? then None
    else
      var position := Vec3(star.x.value, star.y.value, star.z.value + StarZOffset);
      var scaledPosition := position.Scale(PositionScale);
      Some(StarRender(scaledPosition, StarSize(star.starRadius), StarColor(star.spectralType, star.temperature)))
  }
}
