/** Aura colours: full-scale channels with a brightness, loaded from and printed to plain RGB. Division is
    exact and rounds halves to even. */
module Color {
  import opened Delimited
  import opened Text

  const DEFAULT_COLOR_SCALE_ASUS := 128

  datatype Rgb = Rgb(r: int, g: int, b: int)
  datatype Rgbb = Rgbb(r: int, g: int, b: int, br: int, scale: int)

  function Max(x: int, y: int): int {
    if x < y then y else x
  }

  function Min(x: int, y: int): int {
    if x < y then x else y
  }

  function Peak(c: Rgb): int {
    Max(Max(c.r, c.g), c.b)
  }

  // ---- rounding --------------------------------------------------------------------------------

  /** `round(n / d)`. */
  function RoundDiv(n: int, d: int): int
    requires d != 0
  {
    var top, bottom := if d < 0 then -n else n, if d < 0 then -d else d;
    var q, rest := top / bottom, top % bottom;
    if 2 * rest < bottom || (2 * rest == bottom && q % 2 == 0) then q else q + 1
  }

  function Abs(x: int): int {
    if x < 0 then -x else x
  }

  /** A nearest integer, and at a tie the even one. */
  predicate Rounded(n: int, d: int, k: int) {
    2 * Abs(k * d - n) <= d && (2 * Abs(k * d - n) == d ==> k % 2 == 0)
  }

  lemma RoundIsRounded(n: int, d: int)
    requires d > 0
    ensures Rounded(n, d, RoundDiv(n, d))
  {
    assert n == n / d * d + n % d;
    assert (n / d + 1) * d == n / d * d + d;
  }

  lemma RoundNear(n: int, d: int)
    requires d > 0
    ensures 2 * Abs(RoundDiv(n, d) * d - n) <= d
  {
    RoundIsRounded(n, d);
  }

  /** Rounding gives the nearest integer, of two equally near ones the even one, and nothing else. */
  lemma RoundIff(n: int, d: int, k: int)
    requires d > 0
    ensures RoundDiv(n, d) == k <==> Rounded(n, d, k)
  {
    var q := RoundDiv(n, d);
    RoundIsRounded(n, d);
    if k < q {
      NotBoth(n, d, k, q);
    } else if q < k {
      NotBoth(n, d, q, k);
    }
  }

  /** Two nearest integers would be neighbours at a tie, and one of them odd. */
  lemma NotBoth(n: int, d: int, q: int, k: int)
    requires d > 0 && q < k
    ensures !(Rounded(n, d, q) && Rounded(n, d, k))
  {
    var x := k - q;
    assert x * d == k * d - q * d;
    if x >= 2 {
      MulLess(2, x, d);
    }
    Neighbours(n, d, q, k, q * d, k * d);
  }

  lemma Neighbours(n: int, d: int, q: int, k: int, qd: int, kd: int)
    requires d > 0 && q < k && if k == q + 1 then kd - qd == d else kd - qd >= 2 * d
    ensures 2 * Abs(qd - n) <= d && 2 * Abs(kd - n) <= d ==>
              2 * Abs(qd - n) == d && 2 * Abs(kd - n) == d && k == q + 1
  {
  }

  /** Nearer than half: no tie to look at. */
  lemma RoundIs(n: int, d: int, k: int)
    requires d > 0 && 2 * Abs(k * d - n) < d
    ensures RoundDiv(n, d) == k
  {
    RoundIff(n, d, k);
  }

  lemma MulLess(x: int, y: int, d: int)
    requires x <= y && d >= 0
    ensures x * d <= y * d
  {
  }

  function ScaleValueInt(value: int, scale: int, scaleFrom: int): int {
    if scaleFrom == scale then value
    else if scaleFrom == 0 then 0
    else Min(RoundDiv(value * scale, scaleFrom), scale)
  }

  // ---- colours ---------------------------------------------------------------------------------

  function Scaled(c: Rgb, scale: int, scaleFrom: int): Rgb {
    Rgb(ScaleValueInt(c.r, scale, scaleFrom), ScaleValueInt(c.g, scale, scaleFrom), ScaleValueInt(c.b, scale, scaleFrom))
  }

  function Normalised(c: Rgb, scale: int): Rgb {
    if Peak(c) > scale then Scaled(c, scale, Peak(c)) else c
  }

  function Loaded(c: Rgb, scale: int): Rgbb {
    var n := Normalised(c, scale);
    var full := Scaled(n, scale, Peak(n));
    Rgbb(full.r, full.g, full.b, Peak(n), scale)
  }

  function Printed(c: Rgbb): Rgb {
    Normalised(Scaled(Rgb(c.r, c.g, c.b), c.br, c.scale), c.scale)
  }

  function Brightened(c: Rgbb, br: int): Rgbb {
    c.(br := Max(0, Min(br, c.scale)))
  }

  class ColorRGBB {
    var r: int
    var g: int
    var b: int
    var br: int
    var scale: int

    constructor (scale: int)
      ensures Contents() == Loaded(Rgb(0, 0, 0), scale).(br := scale)
    {
      r, g, b := 0, 0, 0;
      this.scale := scale;
      br := scale;
      new;
      var _ := FromRgbwb(Rgb(0, 0, 0), None);
      br := scale;
    }

    function Contents(): Rgbb
      reads this
    {
      Rgbb(r, g, b, br, scale)
    }

    method FromRgbwb(rgb: Rgb, newScale: Option<int>) returns (brightness: int)
      modifies this
      ensures var s := if newScale.Some? && newScale.value != 0 then newScale.value else old(scale);
              Contents() == Loaded(rgb, s)
      ensures brightness == br
    {
      if newScale.Some? && newScale.value != 0 {
        scale := newScale.value;
      }
      var c := rgb;
      var peak := Max(Max(c.r, c.g), c.b);
      if peak > scale {
        c := Rgb(ScaleValueInt(c.r, scale, peak), ScaleValueInt(c.g, scale, peak), ScaleValueInt(c.b, scale, peak));
      }
      br := Max(Max(c.r, c.g), c.b);
      r, g, b := ScaleValueInt(c.r, scale, br), ScaleValueInt(c.g, scale, br), ScaleValueInt(c.b, scale, br);
      brightness := br;
    }

    method SetBrightness(br: int)
      modifies this`br
      ensures Contents() == Brightened(old(Contents()), br)
    {
      this.br := Max(0, Min(br, scale));
    }

    method ToRgb() returns (c: Rgb)
      ensures c == Printed(Contents())
    {
      c := Rgb(ScaleValueInt(r, br, scale), ScaleValueInt(g, br, scale), ScaleValueInt(b, br, scale));
      if Peak(c) > scale {
        c := Scaled(c, scale, Peak(c));
      }
    }
  }

  // ---- one channel -----------------------------------------------------------------------------

  /** Scaling up from `peak` and down again returns the channel: the first rounding is off by at most half
      of `peak`, which is less than half of the scale. */
  lemma ChannelRoundTrip(c: int, peak: int, scale: int)
    requires c <= peak && 0 < peak <= scale
    ensures ScaleValueInt(ScaleValueInt(c, scale, peak), peak, scale) == c
    ensures ScaleValueInt(c, scale, peak) <= scale
    ensures c == peak ==> ScaleValueInt(c, scale, peak) == scale
  {
    if peak < scale {
      var up := RoundDiv(c * scale, peak);
      RoundNear(c * scale, peak);
      MulLess(c, peak, scale);
      assert (scale + 1) * peak == peak * scale + peak;
      if up > scale {
        MulLess(scale + 1, up, peak);
      }
      RoundIs(up * peak, scale, c);
      if c == peak {
        RoundIs(c * scale, peak, scale);
      }
    }
  }

  /** Scaling down keeps below the new peak, and the full channel becomes the peak. */
  lemma ChannelDown(c: int, peak: int, scale: int)
    requires 0 <= peak <= scale && 0 < scale && c <= scale
    ensures ScaleValueInt(c, peak, scale) <= peak
    ensures c == scale ==> ScaleValueInt(c, peak, scale) == peak
    ensures peak == 0 ==> ScaleValueInt(c, peak, scale) == 0
  {
    if c == scale {
      RoundIs(c * peak, scale, peak);
    }
    if peak == 0 {
      RoundIs(c * peak, scale, 0);
    }
  }

  /** With a negative peak every channel is stored full, and printed as the peak. */
  lemma NegativePeak(c: int, peak: int, scale: int)
    requires c <= peak < 0 < scale
    ensures ScaleValueInt(c, scale, peak) == scale && ScaleValueInt(scale, peak, scale) == peak
  {
    var up := RoundDiv(-(c * scale), -peak);
    RoundNear(-(c * scale), -peak);
    MulLess(-peak, -c, scale);
    assert -peak * scale == -(peak * scale) && -c * scale == -(c * scale);
    assert (scale - 1) * -peak == scale * -peak + peak;
    if up < scale {
      MulLess(up, scale - 1, -peak);
    }
    RoundIs(scale * peak, scale, peak);
  }

  // ---- whole colours ---------------------------------------------------------------------------

  predicate Uniform(c: Rgb) {
    c.r == c.g == c.b
  }

  lemma NormalisedPeak(c: Rgb, scale: int)
    requires scale > 0
    ensures Peak(Normalised(c, scale)) == Min(Peak(c), scale)
    ensures Uniform(c) ==> Uniform(Normalised(c, scale))
  {
    var peak := Peak(c);
    if peak > scale {
      ChannelDown(c.r, scale, peak);
      ChannelDown(c.g, scale, peak);
      ChannelDown(c.b, scale, peak);
    }
  }

  /** Printing a loaded colour gives back exactly the channels it was loaded from, brought down to the
      scale where they exceed it, if and only if some channel is positive or all are the same. */
  lemma RoundTripIff(c: Rgb, scale: int)
    requires scale > 0
    ensures Printed(Loaded(c, scale)) == Normalised(c, scale) <==> Peak(c) > 0 || Uniform(c)
  {
    var n := Normalised(c, scale);
    NormalisedPeak(c, scale);
    var peak := Peak(n);
    if peak > 0 {
      ChannelRoundTrip(n.r, peak, scale);
      ChannelRoundTrip(n.g, peak, scale);
      ChannelRoundTrip(n.b, peak, scale);
    } else if peak < 0 {
      NegativePeak(n.r, peak, scale);
      NegativePeak(n.g, peak, scale);
      NegativePeak(n.b, peak, scale);
    } else {
      ChannelDown(0, 0, scale);
    }
  }

  /** A colour that does not survive: black with one channel below zero. */
  lemma NegativeChannelLost()
    ensures Printed(Loaded(Rgb(0, -1, 0), DEFAULT_COLOR_SCALE_ASUS)) != Normalised(Rgb(0, -1, 0), DEFAULT_COLOR_SCALE_ASUS)
  {
    RoundTripIff(Rgb(0, -1, 0), DEFAULT_COLOR_SCALE_ASUS);
  }

  /** Channels within the scale come back exactly. */
  lemma ExactRoundTrip(c: Rgb, scale: int)
    requires 0 <= c.r <= scale && 0 <= c.g <= scale && 0 <= c.b <= scale && 0 < scale
    ensures Printed(Loaded(c, scale)) == c
  {
    RoundTripIff(c, scale);
  }

  /** A colour with a positive channel is stored with a full one, whatever its brightness. */
  lemma LoadedIsFull(c: Rgb, scale: int)
    requires scale > 0 && Peak(c) > 0
    ensures var l := Loaded(c, scale); Peak(Rgb(l.r, l.g, l.b)) == scale && l.br == Min(Peak(c), scale)
  {
    var n := Normalised(c, scale);
    NormalisedPeak(c, scale);
    ChannelRoundTrip(n.r, Peak(n), scale);
    ChannelRoundTrip(n.g, Peak(n), scale);
    ChannelRoundTrip(n.b, Peak(n), scale);
  }

  /** The brightness set on such a colour is the brightest channel printed, is read back from it, and a
      further print changes nothing. */
  lemma BrightnessSurvives(c: Rgb, scale: int, br: int)
    requires scale > 0 && Peak(c) > 0
    ensures var level := Max(0, Min(br, scale));
            var wire := Printed(Brightened(Loaded(c, scale), br));
            && Peak(wire) == level
            && Loaded(wire, scale).br == level
            && Printed(Loaded(wire, scale)) == wire
  {
    var l := Loaded(c, scale);
    LoadedIsFull(c, scale);
    var level := Max(0, Min(br, scale));
    ChannelDown(l.r, level, scale);
    ChannelDown(l.g, level, scale);
    ChannelDown(l.b, level, scale);
    RoundTripIff(Printed(Brightened(l, br)), scale);
  }

  // ---- channel by channel ------------------------------------------------------------------------

  /** Scaled from its own or a higher peak, a channel becomes the nearest one; the cap does not come in. */
  lemma ScaledNearest(c: int, scale: int, peak: int)
    requires c <= peak && 0 < peak && 0 <= scale
    ensures Rounded(c * scale, peak, ScaleValueInt(c, scale, peak))
  {
    if peak == scale {
      assert Rounded(c * scale, peak, c);
    } else {
      var k := RoundDiv(c * scale, peak);
      RoundIsRounded(c * scale, peak);
      MulLess(c, peak, scale);
      assert (scale + 1) * peak == peak * scale + peak;
      if k > scale {
        MulLess(scale + 1, k, peak);
      }
    }
  }

  /** Bringing a colour down to the scale keeps the proportions of its channels. */
  lemma NormalisedNearest(c: Rgb, scale: int)
    requires scale > 0
    ensures var n := Normalised(c, scale);
            if Peak(c) <= scale then n == c
            else Rounded(c.r * scale, Peak(c), n.r) && Rounded(c.g * scale, Peak(c), n.g) && Rounded(c.b * scale, Peak(c), n.b)
  {
    if Peak(c) > scale {
      ScaledNearest(c.r, scale, Peak(c));
      ScaledNearest(c.g, scale, Peak(c));
      ScaledNearest(c.b, scale, Peak(c));
    }
  }

  /** Loading a colour that is not black stores its channels as parts of the brightest one, which is full. */
  lemma LoadedNearest(c: Rgb, scale: int)
    requires scale > 0 && 0 < Peak(c) <= scale
    ensures var l := Loaded(c, scale);
            && l.br == Peak(c) && l.scale == scale
            && Rounded(c.r * scale, Peak(c), l.r) && Rounded(c.g * scale, Peak(c), l.g) && Rounded(c.b * scale, Peak(c), l.b)
  {
    ScaledNearest(c.r, scale, Peak(c));
    ScaledNearest(c.g, scale, Peak(c));
    ScaledNearest(c.b, scale, Peak(c));
  }

  /** Black has no brightness; below it, every channel is stored full under a negative one. */
  lemma LoadedDark(c: Rgb, scale: int)
    requires scale > 0 && Peak(c) <= 0
    ensures Loaded(c, scale) == if Peak(c) == 0 then Rgbb(0, 0, 0, 0, scale) else Rgbb(scale, scale, scale, Peak(c), scale)
  {
    if Peak(c) < 0 {
      NegativePeak(c.r, Peak(c), scale);
      NegativePeak(c.g, Peak(c), scale);
      NegativePeak(c.b, Peak(c), scale);
    }
  }

  /** Printing brings the channels down to the brightness. */
  lemma PrintedNearest(l: Rgbb)
    requires 0 <= l.br <= l.scale && 0 < l.scale && l.r <= l.scale && l.g <= l.scale && l.b <= l.scale
    ensures var c := Printed(l);
            Rounded(l.r * l.br, l.scale, c.r) && Rounded(l.g * l.br, l.scale, c.g) && Rounded(l.b * l.br, l.scale, c.b)
  {
    ScaledNearest(l.r, l.br, l.scale);
    ScaledNearest(l.g, l.br, l.scale);
    ScaledNearest(l.b, l.br, l.scale);
    ChannelDown(l.r, l.br, l.scale);
    ChannelDown(l.g, l.br, l.scale);
    ChannelDown(l.b, l.br, l.scale);
  }

  lemma BrightenedWithin(c: Rgbb, br: int)
    requires c.scale >= 0
    ensures Brightened(c, br) == c.(br := if br < 0 then 0 else if br > c.scale then c.scale else br)
  {
  }

  // ---- zones -----------------------------------------------------------------------------------

  /** A channel that is no number makes the comparison of channels fail. */
  datatype Parsed = NoColors | Colors(colors: seq<Rgbb>) | TypeError

  /** The complete triples; None where a number is missing in one. */
  function Triples(channels: seq<Option<int>>): Option<seq<Rgb>>
    decreases |channels|
  {
    if |channels| < 3 then Some([])
    else if channels[0].None? || channels[1].None? || channels[2].None? then None
    else
      var rest := Triples(channels[3..]);
      if rest.None? then None
      else Some([Rgb(channels[0].value, channels[1].value, channels[2].value)] + rest.value)
  }

  /** A zero scale means the default one. */
  function ScaleOr(scale: int): int {
    if scale == 0 then DEFAULT_COLOR_SCALE_ASUS else scale
  }

  function Zones(colors: seq<Rgb>, scale: int): seq<Rgbb> {
    seq(|colors|, i requires 0 <= i < |colors| => Loaded(colors[i], ScaleOr(scale)))
  }

  function Channels(parts: seq<string>, lenient: string -> Option<int>): (r: seq<Option<int>>)
    ensures |r| == |parts|
  {
    seq(|parts|, i requires 0 <= i < |parts| => SafeInt(parts[i], lenient, None))
  }

  function ParsedChannels(channels: seq<Option<int>>, scale: int): Parsed {
    match Triples(channels)
    case None => TypeError
    case Some(colors) => if colors == [] then NoColors else Colors(Zones(colors, scale))
  }

  method ParseColors(text: string, delimiter: string, scale: int, lenient: string -> Option<int>) returns (r: Parsed)
    requires delimiter != ""
    ensures r == match CleanString(text)
                 case None => NoColors
                 case Some(t) => ParsedChannels(Channels(Split(t, delimiter), lenient), scale)
  {
    var clean := CleanString(text);
    if clean.None? {
      return NoColors;
    }
    var channels := Channels(Split(clean.value, delimiter), lenient);
    r := ParseChannels(channels, scale);
  }

  /** The triples of a list of which `done` has been read and `rest` has not. */
  ghost function After(done: seq<Rgb>, rest: seq<Option<int>>): Option<seq<Rgb>> {
    if Triples(rest).None? then None else Some(done + Triples(rest).value)
  }

  lemma AfterNone(channels: seq<Option<int>>)
    ensures After([], channels[0..]) == Triples(channels)
  {
    assert channels[0..] == channels;
    if Triples(channels).Some? {
      assert [] + Triples(channels).value == Triples(channels).value;
    }
  }

  lemma AfterOneMore(done: seq<Rgb>, channels: seq<Option<int>>, i: nat)
    requires i + 2 < |channels| && channels[i].Some? && channels[i + 1].Some? && channels[i + 2].Some?
    ensures var c := Rgb(channels[i].value, channels[i + 1].value, channels[i + 2].value);
            After(done, channels[i..]) == After(done + [c], channels[i + 3..])
  {
    assert channels[i..][3..] == channels[i + 3..];
    var rest := Triples(channels[i + 3..]);
    if rest.Some? {
      var c := Rgb(channels[i].value, channels[i + 1].value, channels[i + 2].value);
      assert done + ([c] + rest.value) == done + [c] + rest.value;
    }
  }

  method ParseChannels(channels: seq<Option<int>>, scale: int) returns (r: Parsed)
    ensures r == ParsedChannels(channels, scale)
  {
    var colors: seq<Rgbb> := [];
    ghost var done: seq<Rgb> := [];
    var i := 0;
    AfterNone(channels);
    while i + 2 < |channels|
      invariant 0 <= i <= |channels|
      invariant colors == Zones(done, scale)
      invariant Triples(channels) == After(done, channels[i..])
      decreases |channels| - i
    {
      if channels[i].None? || channels[i + 1].None? || channels[i + 2].None? {
        return TypeError;
      }
      var c := Rgb(channels[i].value, channels[i + 1].value, channels[i + 2].value);
      AfterOneMore(done, channels, i);
      var zone := LoadZone(c, scale);
      OneMoreZone(done, c, scale);
      colors := colors + [zone];
      done := done + [c];
      i := i + 3;
    }
    r := if colors == [] then NoColors else Colors(colors);
  }

  method LoadZone(c: Rgb, scale: int) returns (zone: Rgbb)
    ensures zone == Loaded(c, ScaleOr(scale))
  {
    var color := new ColorRGBB(DEFAULT_COLOR_SCALE_ASUS);
    var _ := color.FromRgbwb(c, Some(scale));
    zone := color.Contents();
  }

  lemma OneMoreZone(colors: seq<Rgb>, c: Rgb, scale: int)
    ensures Zones(colors + [c], scale) == Zones(colors, scale) + [Loaded(c, ScaleOr(scale))]
  {
  }

  function Flattened(colors: seq<Rgb>): seq<Option<int>> {
    if colors == [] then []
    else [Some(colors[0].r), Some(colors[0].g), Some(colors[0].b)] + Flattened(colors[1..])
  }

  lemma FlattenCons(c: Rgb, rest: seq<Rgb>)
    ensures Flattened([c] + rest) == [Some(c.r), Some(c.g), Some(c.b)] + Flattened(rest)
  {
    assert ([c] + rest)[1..] == rest;
  }

  lemma WholeTriples(channels: seq<Option<int>>)
    requires |channels| >= 3
    ensures var tail := channels[3..];
            channels[..|channels| / 3 * 3] == [channels[0], channels[1], channels[2]] + tail[..|tail| / 3 * 3]
  {
  }

  lemma {:induction false} TriplesFlatten(channels: seq<Option<int>>)
    requires forall i | 0 <= i < |channels| :: channels[i].Some?
    ensures Triples(channels).Some?
    ensures Flattened(Triples(channels).value) == channels[..|channels| / 3 * 3]
    decreases |channels|
  {
    if |channels| >= 3 {
      TriplesFlatten(channels[3..]);
      FlattenCons(Rgb(channels[0].value, channels[1].value, channels[2].value), Triples(channels[3..]).value);
      WholeTriples(channels);
    }
  }

  lemma {:induction false} TriplesWithin(channels: seq<Option<int>>, scale: int)
    requires forall i | 0 <= i < |channels| :: channels[i].Some? && 0 <= channels[i].value <= scale
    ensures Triples(channels).Some?
    ensures forall c | c in Triples(channels).value :: 0 <= c.r <= scale && 0 <= c.g <= scale && 0 <= c.b <= scale
    decreases |channels|
  {
    if |channels| >= 3 {
      TriplesWithin(channels[3..], scale);
    }
  }

  /** Printing the parsed zones of a channel list within the scale reproduces the list, less an incomplete
      last triple. */
  lemma ZonesRoundTrip(channels: seq<Option<int>>, scale: int)
    requires scale > 0 && |channels| >= 3
    requires forall i | 0 <= i < |channels| :: channels[i].Some? && 0 <= channels[i].value <= scale
    ensures var r := ParsedChannels(channels, scale);
            r.Colors?
            && Flattened(seq(|r.colors|, i requires 0 <= i < |r.colors| => Printed(r.colors[i])))
               == channels[..|channels| / 3 * 3]
  {
    TriplesFlatten(channels);
    TriplesWithin(channels, scale);
    var colors := Triples(channels).value;
    var zones := Zones(colors, scale);
    var printed := seq(|zones|, i requires 0 <= i < |zones| => Printed(zones[i]));
    forall i | 0 <= i < |colors| ensures printed[i] == colors[i] {
      assert colors[i] in colors;
      ExactRoundTrip(colors[i], scale);
    }
    assert printed == colors;
  }

  lemma {:induction false} TriplesEach(channels: seq<Option<int>>)
    ensures Triples(channels).None? <==> exists i :: 0 <= i < |channels| / 3 * 3 && channels[i].None?
    ensures Triples(channels).Some? ==>
              && |Triples(channels).value| == |channels| / 3
              && forall k | 0 <= k < |channels| / 3 ::
                   var c := Triples(channels).value[k];
                   Some(c.r) == channels[3 * k] && Some(c.g) == channels[3 * k + 1] && Some(c.b) == channels[3 * k + 2]
    decreases |channels|
  {
    if |channels| >= 3 {
      var rest := channels[3..];
      TriplesEach(rest);
      assert |rest| / 3 == |channels| / 3 - 1;
      if i :| 0 <= i < |channels| / 3 * 3 && channels[i].None? && i >= 3 {
        assert rest[i - 3].None?;
      }
      if Triples(channels).Some? {
        forall k | 0 < k < |channels| / 3
          ensures var c := Triples(channels).value[k];
                  Some(c.r) == channels[3 * k] && Some(c.g) == channels[3 * k + 1] && Some(c.b) == channels[3 * k + 2]
        {
          assert Triples(channels).value[k] == Triples(rest).value[k - 1];
          assert rest[3 * (k - 1)] == channels[3 * k];
        }
      }
    }
  }

  /** Three channels to a colour, in order: fewer than three make none, a missing number in a complete triple fails,
      and an incomplete last triple is left out. A scale of zero means 128. */
  lemma ParsedEach(channels: seq<Option<int>>, scale: int)
    ensures var r := ParsedChannels(channels, scale);
            && (r.NoColors? <==> |channels| < 3)
            && (r.TypeError? <==> exists i :: 0 <= i < |channels| / 3 * 3 && channels[i].None?)
            && (r.Colors? ==> |r.colors| == |channels| / 3)
    ensures var r := ParsedChannels(channels, scale);
            r.Colors? ==>
              forall k | 0 <= k < |channels| / 3 ::
                channels[3 * k].Some? && channels[3 * k + 1].Some? && channels[3 * k + 2].Some?
                && r.colors[k] == Loaded(Rgb(channels[3 * k].value, channels[3 * k + 1].value, channels[3 * k + 2].value),
                                         if scale == 0 then 128 else scale)
  {
    TriplesEach(channels);
  }
}
