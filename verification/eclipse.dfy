/** How much of the Sun's light reaches the observer, given the bodies
    that may stand in front of it. Each body is reduced to three apparent
    quantities: the Sun's angular radius R, the body's angular radius r
    and the angular distance d between their centres (all in radians on
    the unit sphere around the observer). */
module Eclipse {
  import opened Wrappers
  import opened Lists
  import opened Elements
  import opened Bodies
  import opened Positions

  function Scale(v: Vec3, k: real): Vec3 {
    Vec3(v.x * k, v.y * k, v.z * k)
  }

  /** The apparent geometry of one body against the Sun, as seen from
      `observerPos`: the Sun (drawn at its light-time position `sunPos`) of
      radius `sunRadius`, the body centred at `centre` with radius `radius`.
      Result: (R, r, d). */
  function Apparent(length: Vec3 -> real, sunPos: Vec3, observerPos: Vec3, sunRadius: real,
                    centre: Vec3, radius: real): (real, real, real)
  {
    var toSun := Sub(sunPos, observerPos);
    var toBody := Sub(centre, observerPos);
    var bigL := length(toSun);
    var smallL := length(toBody);
    var u1 := Scale(toSun, Quot(1.0, bigL));
    var u2 := Scale(toBody, Quot(1.0, smallL));
    (Quot(sunRadius, bigL), Quot(radius, smallL), length(Sub(u1, u2)))
  }

  function Sq(x: real): real { x * x }

  /** The fraction of the Sun's disc (radius `bigR`) left visible by a disc
      of radius `r` at distance `d`: all of it when the discs do not
      overlap, none when the body covers the Sun, one less the ratio of the
      areas when the body lies inside the Sun's disc, and otherwise the
      partial-overlap formula `partial`, which this model leaves abstract. */
  function Illumination(bigR: real, r: real, d: real, partial: (real, real, real) -> real): real {
    if d >= bigR + r then 1.0
    else if d <= r - bigR then 0.0
    else if d <= bigR - r then 1.0 - Quot(Sq(r), Sq(bigR))
    else partial(bigR, r, d)
  }

  /** Illumination is a fraction: for nonnegative radii and distance, and
      a partial-overlap formula that gives a fraction, the result lies in
      [0, 1]. */
  lemma IlluminationBounds(bigR: real, r: real, d: real, partial: (real, real, real) -> real)
    requires bigR > 0.0 && r >= 0.0 && d >= 0.0
    requires 0.0 <= partial(bigR, r, d) <= 1.0
    ensures 0.0 <= Illumination(bigR, r, d, partial) <= 1.0
  {
    if d < bigR + r && d > r - bigR && d <= bigR - r {
      SquareOrder(r, bigR);
      AreaRatio(Sq(r), Sq(bigR));
    }
  }

  /** A body of no radius blocks no light, wherever it stands. */
  lemma NoRadius(bigR: real, d: real, partial: (real, real, real) -> real)
    requires bigR > 0.0 && d >= 0.0
    ensures Illumination(bigR, 0.0, d, partial) == 1.0
  {
  }

  /** A body whose disc covers the whole Sun blocks all of its light; one
      whose disc lies strictly within the Sun's blocks a part, the ratio of
      the areas. */
  lemma CoverAndTransit(bigR: real, r: real, d: real, partial: (real, real, real) -> real)
    requires bigR > 0.0 && r > 0.0 && d >= 0.0
    ensures d <= r - bigR ==> Illumination(bigR, r, d, partial) == 0.0
    ensures d <= bigR - r && r < bigR ==>
      0.0 < Illumination(bigR, r, d, partial) < 1.0 &&
      (1.0 - Illumination(bigR, r, d, partial)) * Sq(bigR) == Sq(r)
  {
    if d <= bigR - r && r < bigR {
      SquareOrder(r, bigR);
      AreaRatio(Sq(r), Sq(bigR));
    }
  }

  lemma ProductLt(a: real, b: real, c: real, d: real)
    requires 0.0 <= a < c && 0.0 <= b < d
    ensures a * b < c * d
  {
    assert a * b <= a * d;
    assert a * d < c * d;
  }

  /** Squaring keeps the order of nonnegative radii. */
  lemma SquareOrder(r: real, bigR: real)
    requires 0.0 <= r <= bigR
    ensures 0.0 <= Sq(r) <= Sq(bigR)
    ensures r > 0.0 ==> Sq(r) > 0.0
    ensures r < bigR ==> Sq(r) < Sq(bigR)
  {
    if r > 0.0 {
      ProductLt(0.0, 0.0, r, r);
    } else {
      assert r == 0.0;
    }
    if r < bigR {
      ProductLt(r, r, bigR, bigR);
    }
  }

  lemma AboveOne(q: real, c: real)
    requires q > 1.0 && c > 0.0
    ensures q * c > c
  {
    assert (q - 1.0) * c > 0.0;
  }

  lemma BelowZero(q: real, c: real)
    requires q < 0.0 && c > 0.0
    ensures q * c < 0.0
  {
  }

  /** The ratio of two areas, the smaller over the larger, is a fraction;
      strictly between 0 and 1 when the smaller is strictly smaller and not
      empty. */
  lemma AreaRatio(small: real, large: real)
    requires 0.0 <= small <= large && large > 0.0
    ensures 0.0 <= Quot(small, large) <= 1.0
    ensures 0.0 < small < large ==> 0.0 < Quot(small, large) < 1.0
  {
    var q := Quot(small, large);
    assert q * large == small;
    if q < 0.0 {
      BelowZero(q, large);
      assert false;
    }
    if q > 1.0 {
      AboveOne(q, large);
      assert false;
    }
    if 0.0 < small < large {
      assert q != 0.0;
      assert q != 1.0;
    }
  }

  /** Whether loaded body `h` is considered as an occluder: neither the Sun
      nor the planet the observer stands on. */
  predicate Occludes(h: nat, sun: nat, current: Option<nat>) {
    h != sun && current != Some(h)
  }

  /** The illumination left by body `h`. */
  function IlluminationBy(bodies: seq<Body>, h: nat, sun: nat, length: Vec3 -> real, sunPos: Vec3,
                          observerPos: Vec3, centre: nat -> Vec3, partial: (real, real, real) -> real): real
    requires h < |bodies| && sun < |bodies|
  {
    var g := Apparent(length, sunPos, observerPos, bodies[sun].radius, centre(h), bodies[h].radius);
    Illumination(g.0, g.1, g.2, partial)
  }

  /** getEclipseFactor: the least illumination left by any loaded body
      other than the Sun and the observer's planet, starting from full
      light. The Sun must be loaded (its radius is read). */
  method EclipseFactor(bodies: seq<Body>, planets: seq<nat>, sun: nat, current: Option<nat>,
                       length: Vec3 -> real, sunPos: Vec3, observerPos: Vec3, centre: nat -> Vec3,
                       partial: (real, real, real) -> real) returns (f: real)
    requires HandlesIn(planets, |bodies|) && sun < |bodies|
    ensures f <= 1.0
    ensures forall k :: 0 <= k < |planets| && Occludes(planets[k], sun, current) ==>
      f <= IlluminationBy(bodies, planets[k], sun, length, sunPos, observerPos, centre, partial)
    ensures f == 1.0 ||
            exists k :: 0 <= k < |planets| && Occludes(planets[k], sun, current) &&
              f == IlluminationBy(bodies, planets[k], sun, length, sunPos, observerPos, centre, partial)
  {
    f := 1.0;
    for k := 0 to |planets|
      invariant f <= 1.0
      invariant forall j :: 0 <= j < k && Occludes(planets[j], sun, current) ==>
        f <= IlluminationBy(bodies, planets[j], sun, length, sunPos, observerPos, centre, partial)
      invariant f == 1.0 ||
                exists j :: 0 <= j < k && Occludes(planets[j], sun, current) &&
                  f == IlluminationBy(bodies, planets[j], sun, length, sunPos, observerPos, centre, partial)
    {
      var p := planets[k];
      if !Occludes(p, sun, current) {
        continue;
      }
      var illumination := IlluminationBy(bodies, p, sun, length, sunPos, observerPos, centre, partial);
      if illumination < f {
        f := illumination;
      }
    }
  }
}
