/** The display settings the Solar System module drives on its bodies:
    hint markers and labels, orbit lines, the scale of minor bodies, and
    the orbit colour style. Each is stated as the arena it produces; the
    SolarSystem class carries them out with loops over `systemPlanets`. */
module Display {
  import opened Wrappers
  import opened Text
  import opened Bodies

  /** The two per-body markers whose setters act only when the overall
      query disagrees with the requested value. */
  datatype Marker = Hints | Labels

  function Shown(b: Body, m: Marker): bool {
    match m
    case Hints => b.flagHints
    case Labels => b.flagLabels
  }

  function WithShown(b: Body, m: Marker, on: bool): Body {
    match m
    case Hints => b.(flagHints := on)
    case Labels => b.(flagLabels := on)
  }

  /** getFlagHints / getFlagLabels: whether any loaded body shows the
      marker. */
  predicate AnyShown(bodies: seq<Body>, planets: seq<nat>, m: Marker)
    requires HandlesIn(planets, |bodies|)
  {
    exists i :: 0 <= i < |planets| && Shown(bodies[planets[i]], m)
  }

  /** Every loaded body with the marker set to `on`. */
  function ShowAll(bodies: seq<Body>, planets: seq<nat>, m: Marker, on: bool): seq<Body> {
    seq(|bodies|, i requires 0 <= i < |bodies| => if i in planets then WithShown(bodies[i], m, on) else bodies[i])
  }

  /** setFlagHints / setFlagLabels: when the query differs from `on`, every
      loaded body gets `on` and the change is signalled (second
      component); otherwise nothing happens. */
  function SetShown(bodies: seq<Body>, planets: seq<nat>, m: Marker, on: bool): (seq<Body>, bool)
    requires HandlesIn(planets, |bodies|)
  {
    if AnyShown(bodies, planets, m) != on then (ShowAll(bodies, planets, m, on), true)
    else (bodies, false)
  }

  /** After the setter the query answers `on`, except that with no body
      loaded it answers false; the signal is emitted exactly when the query
      answered otherwise before. The other marker, the links and every
      other field stay as they were. */
  lemma SetShownReaches(bodies: seq<Body>, planets: seq<nat>, m: Marker, on: bool)
    requires HandlesIn(planets, |bodies|)
    ensures var (r, emitted) := SetShown(bodies, planets, m, on);
      |r| == |bodies| && AnyShown(r, planets, m) == (on && planets != []) &&
      (emitted <==> AnyShown(bodies, planets, m) != on)
    ensures var r := SetShown(bodies, planets, m, on).0;
      SameLinks(bodies, r) &&
      forall i :: 0 <= i < |bodies| ==> r[i] == WithShown(bodies[i], m, Shown(r[i], m))
  {
    var (r, emitted) := SetShown(bodies, planets, m, on);
    if emitted {
      if planets != [] {
        assert r[planets[0]] == WithShown(bodies[planets[0]], m, on);
      }
    }
  }

  /** A second call with the same value does nothing and signals nothing,
      as long as some body is loaded. */
  lemma SetShownTwice(bodies: seq<Body>, planets: seq<nat>, m: Marker, on: bool)
    requires HandlesIn(planets, |bodies|) && planets != []
    ensures var r := SetShown(bodies, planets, m, on).0;
      |r| == |bodies| && SetShown(r, planets, m, on) == (r, false)
  {
    SetShownReaches(bodies, planets, m, on);
  }

  /** The orbit flag setFlagOrbits(`on`) gives loaded body `h`: every body
      gets `on` when orbits are turned off or nothing (or the Sun) is
      selected; otherwise only the selected body, or, unless orbits are
      isolated, the selected body and the bodies whose parent it is. */
  function OrbitShown(bodies: seq<Body>, h: nat, on: bool, selected: Option<nat>, sun: Option<nat>, isolated: bool): bool
    requires h < |bodies|
  {
    if !on || selected.None? || selected == sun then on
    else if isolated then selected == Some(h)
    else selected == Some(h) || selected == bodies[h].parent
  }

  /** The arena after setFlagOrbits(`on`). */
  function OrbitsShown(bodies: seq<Body>, planets: seq<nat>, on: bool, selected: Option<nat>, sun: Option<nat>, isolated: bool): seq<Body> {
    seq(|bodies|, i requires 0 <= i < |bodies| =>
          if i in planets then bodies[i].(flagOrbits := OrbitShown(bodies, i, on, selected, sun, isolated))
          else bodies[i])
  }

  /** Turning orbits off hides every loaded body's orbit; with nothing (or
      the Sun) selected, every loaded body follows the flag. Bodies not
      loaded are untouched and only orbit flags change. */
  lemma OrbitsUnselected(bodies: seq<Body>, planets: seq<nat>, on: bool, selected: Option<nat>, sun: Option<nat>, isolated: bool)
    ensures var r := OrbitsShown(bodies, planets, on, selected, sun, isolated);
      |r| == |bodies| &&
      (forall i :: 0 <= i < |bodies| ==> r[i] == bodies[i].(flagOrbits := r[i].flagOrbits)) &&
      (forall i :: 0 <= i < |bodies| && i !in planets ==> r[i] == bodies[i])
    ensures !on || selected.None? || selected == sun ==>
      var r := OrbitsShown(bodies, planets, on, selected, sun, isolated);
      forall i :: 0 <= i < |bodies| && i in planets ==> r[i].flagOrbits == on
  {
  }

  /** With orbits on and a body other than the Sun selected: isolated, only
      the selected body shows its orbit; otherwise exactly the selected
      body and its satellites (the bodies whose parent it is) do. Either
      way the selected body's orbit is shown when it is loaded. */
  lemma OrbitsOfSelection(bodies: seq<Body>, planets: seq<nat>, s: nat, sun: Option<nat>, isolated: bool)
    requires Some(s) != sun
    ensures var r := OrbitsShown(bodies, planets, true, Some(s), sun, isolated);
      forall i :: 0 <= i < |bodies| && i in planets ==>
        (r[i].flagOrbits <==> i == s || (!isolated && bodies[i].parent == Some(s)))
    ensures s < |bodies| && s in planets ==> OrbitsShown(bodies, planets, true, Some(s), sun, isolated)[s].flagOrbits
  {
  }

  /** Isolating orbits only ever hides orbits: every body showing its
      orbit with isolation on also shows it with isolation off. */
  lemma {:induction false} IsolationNarrows(bodies: seq<Body>, planets: seq<nat>, on: bool, selected: Option<nat>, sun: Option<nat>)
    ensures forall i :: 0 <= i < |bodies| ==>
      OrbitsShown(bodies, planets, on, selected, sun, true)[i].flagOrbits ==>
      OrbitsShown(bodies, planets, on, selected, sun, false)[i].flagOrbits
  {
  }

  /** Whether setFlagMinorBodyScale / setMinorBodyScale rescale body `h`:
      any body other than the Moon whose type is neither planet nor star. */
  predicate Rescalable(bodies: seq<Body>, h: nat, moon: Option<nat>)
    requires h < |bodies|
  {
    Some(h) != moon && bodies[h].typeName != "planet" && bodies[h].typeName != "star"
  }

  /** The arena with every loaded rescalable body drawn at `scale`. */
  function Rescaled(bodies: seq<Body>, planets: seq<nat>, moon: Option<nat>, scale: real): seq<Body> {
    seq(|bodies|, i requires 0 <= i < |bodies| =>
          if i in planets && Rescalable(bodies, i, moon) then bodies[i].(sphereScale := scale) else bodies[i])
  }

  /** Rescaling reaches exactly the loaded minor bodies: the planets, stars,
      the Moon and bodies not loaded keep their scale and everything else;
      the rescaled bodies change only in scale. */
  lemma RescaleSparesMajor(bodies: seq<Body>, planets: seq<nat>, moon: Option<nat>, scale: real)
    ensures var r := Rescaled(bodies, planets, moon, scale);
      |r| == |bodies| && SameLinks(bodies, r) &&
      forall i :: 0 <= i < |bodies| ==>
        if i in planets && Rescalable(bodies, i, moon) then r[i] == bodies[i].(sphereScale := scale)
        else r[i] == bodies[i]
  {
  }

  /** A later rescale overrides an earlier one: turning the scale on and
      back off leaves every minor body at scale 1 and the rest as they
      were. */
  lemma RescaleOverrides(bodies: seq<Body>, planets: seq<nat>, moon: Option<nat>, s1: real, s2: real)
    ensures Rescaled(Rescaled(bodies, planets, moon, s1), planets, moon, s2) == Rescaled(bodies, planets, moon, s2)
  {
    var r1 := Rescaled(bodies, planets, moon, s1);
    assert forall i :: 0 <= i < |bodies| ==> r1[i].typeName == bodies[i].typeName;
  }

  /** The three orbit colour styles. */
  datatype OrbitColorStyle = OneColor | Groups | MajorPlanets

  /** setOrbitColorStyle: the style a name selects, ignoring letter case;
      any unknown name selects one colour. */
  function ParseStyle(style: string): OrbitColorStyle {
    var l := ToLower(style);
    if l == "groups" then Groups
    else if l == "major_planets" then MajorPlanets
    else OneColor
  }

  /** getOrbitColorStyle: the name of a style. */
  function StyleName(s: OrbitColorStyle): string {
    match s
    case OneColor => "one_color"
    case Groups => "groups"
    case MajorPlanets => "major_planets"
  }

  /** Lower-casing leaves a string without capital letters as it is. */
  lemma LowerFixed(s: string)
    requires forall i :: 0 <= i < |s| ==> !('A' <= s[i] <= 'Z')
    ensures ToLower(s) == s
  {
  }

  /** The style names round-trip: reading back a style gives its name,
      which selects the same style again; and a name selects the style
      whose name is its lower-case form, or one colour when there is
      none. */
  lemma StyleRoundTrip(s: OrbitColorStyle, style: string)
    ensures ParseStyle(StyleName(s)) == s
    ensures StyleName(ParseStyle(style)) == ToLower(style) ||
            (StyleName(ParseStyle(style)) == "one_color" && ToLower(style) !in {"groups", "major_planets"})
  {
    LowerFixed(StyleName(s));
  }
}
