/** Solar-system bodies and the catalogue that owns them.

    The source keeps bodies behind shared pointers: `systemPlanets` lists
    the loaded ones, each body lists its `satellites` and points to its
    `parent`. The model keeps every body ever created in an arena
    (`bodies`), whose index is the body's identity, and lists handles
    (indices) where the source lists pointers. Orbit objects are kept the
    same way: `orbitStore` holds every orbit created, `orbits` the live
    list the source keeps. */
module Bodies {
  import opened Wrappers
  import opened Records
  import opened Text
  import opened Lists
  import opened Elements
  import opened CoordFuncs

  /** The class the loader instantiates for a section. */
  datatype BodyKind = OrdinaryBody | MinorPlanetBody | CometBody

  /** The types of section that become minor planets (unless named after
      Pluto, which has its own series). */
  const MinorPlanetTypes: set<string> :=
    {"asteroid", "dwarf planet", "cubewano", "plutino", "scattered disc object", "Oort cloud object"}

  /** The class a section of type `typeName` for the body `englishName`
      becomes. */
  function KindOf(typeName: string, englishName: string): (k: BodyKind)
    ensures k == MinorPlanetBody <==> typeName in MinorPlanetTypes && !Contains(englishName, "Pluto")
    ensures k == CometBody <==> typeName == "comet"
  {
    if typeName in MinorPlanetTypes && !Contains(englishName, "Pluto") then MinorPlanetBody
    else if typeName == "comet" then CometBody
    else OrdinaryBody
  }

  /** Whether a type places the body at or after `isAsteroid` in the
      planet-type order (star, planet, moon, observer and artificial come
      before it; every other type, known or not, after). */
  predicate IsMinorType(typeName: string) {
    typeName !in {"star", "planet", "moon", "observer", "artificial"}
  }

  /** The brightness parameters of a body: an ordinary body has an absolute
      magnitude (-99 when absent); a minor planet or comet has an absolute
      magnitude and a slope parameter, or none at all. */
  datatype Magnitude = NoMagnitude | AbsoluteOnly(h: real) | WithSlope(h: real, slope: real)

  /** A slope parameter kept when it lies in [0, `hi`], replaced by
      `fallback` otherwise. */
  function ClampedSlope(slope: real, hi: real, fallback: real): (g: real)
    ensures 0.0 <= slope <= hi ==> g == slope
    ensures !(0.0 <= slope <= hi) ==> g == fallback
  {
    if 0.0 <= slope && slope <= hi then slope else fallback
  }

  /** The magnitude parameters a section gives a body of the kind `k`:
      minor planets use the H-G system (slope in [0, 1], default 0.15),
      comets the g-k system (slope in [0, 20], default 4.0). */
  function MagnitudeOf(k: BodyKind, r: Record): (m: Magnitude)
    ensures k == OrdinaryBody ==> m == AbsoluteOnly(Real(r, "absolute_magnitude", -99.0))
    ensures k != OrdinaryBody ==> (m.WithSlope? <==> Real(r, "absolute_magnitude", -99.0) > -99.0)
    ensures k != OrdinaryBody && !m.WithSlope? ==> m == NoMagnitude
    ensures m.WithSlope? ==> m.h == Real(r, "absolute_magnitude", -99.0)
    ensures m.WithSlope? && k == MinorPlanetBody ==> 0.0 <= m.slope <= 1.0
    ensures m.WithSlope? && k == CometBody ==> 0.0 <= m.slope <= 20.0
    ensures m.WithSlope? && k == MinorPlanetBody && 0.0 <= Real(r, "slope_parameter", 0.15) <= 1.0 ==>
      m.slope == Real(r, "slope_parameter", 0.15)
    ensures m.WithSlope? && k == CometBody && 0.0 <= Real(r, "slope_parameter", 4.0) <= 20.0 ==>
      m.slope == Real(r, "slope_parameter", 4.0)
  {
    var h := Real(r, "absolute_magnitude", -99.0);
    match k
    case OrdinaryBody => AbsoluteOnly(h)
    case MinorPlanetBody =>
      if h > -99.0 then WithSlope(h, ClampedSlope(Real(r, "slope_parameter", 0.15), 1.0, 0.15)) else NoMagnitude
    case CometBody =>
      if h > -99.0 then WithSlope(h, ClampedSlope(Real(r, "slope_parameter", 4.0), 20.0, 4.0)) else NoMagnitude
  }

  /** The semi-major axis a minor planet or comet records (ordinary bodies
      record none): a minor planet's as given (0 when absent), a comet's
      derived from the raw pericenter distance when its orbit is closed and
      the distance is given. */
  function SemiMajorAxisOf(k: BodyKind, r: Record): (a: Option<real>)
    ensures k == OrdinaryBody ==> a.None?
    ensures k == MinorPlanetBody ==> a == Some(Real(r, "orbit_SemiMajorAxis", 0.0))
    ensures k == CometBody ==>
      (a.Some? <==> Real(r, "orbit_Eccentricity", 0.0) < 1.0 && Real(r, "orbit_PericenterDistance", Absent) > 0.0)
    ensures k == CometBody && a.Some? ==>
      a.value > 0.0 && a.value * (1.0 - Real(r, "orbit_Eccentricity", 0.0)) == Real(r, "orbit_PericenterDistance", Absent)
  {
    match k
    case OrdinaryBody => None
    case MinorPlanetBody => Some(Real(r, "orbit_SemiMajorAxis", 0.0))
    case CometBody =>
      var e := Real(r, "orbit_Eccentricity", 0.0);
      var q := Real(r, "orbit_PericenterDistance", Absent);
      if e < 1.0 && q > 0.0 then Some(q / (1.0 - e)) else None
  }

  /** The orientation of the rotation axis, in radians: obliquity and
      ascending node of the equator, or the J2000 north pole's right
      ascension and declination (converted to obliquity and node by
      spherical geometry that is not part of this model). */
  datatype Axis = EquatorAxis(obliquity: real, ascendingNode: real) | NorthPoleAxis(ra: real, de: real)

  /** The axis a section describes: a north pole with nonzero right
      ascension or declination takes precedence over the equator elements. */
  function AxisOf(r: Record): (a: Axis)
    ensures a.NorthPoleAxis? <==> Real(r, "rot_pole_ra", 0.0) != 0.0 || Real(r, "rot_pole_de", 0.0) != 0.0
    ensures a.EquatorAxis? ==>
      a == EquatorAxis(Real(r, "rot_obliquity", 0.0) * Deg, Real(r, "rot_equator_ascending_node", 0.0) * Deg)
    ensures a.NorthPoleAxis? ==> a == NorthPoleAxis(Real(r, "rot_pole_ra", 0.0) * Deg, Real(r, "rot_pole_de", 0.0) * Deg)
  {
    var ra := Real(r, "rot_pole_ra", 0.0) * Deg;
    var de := Real(r, "rot_pole_de", 0.0) * Deg;
    if ra != 0.0 || de != 0.0 then NorthPoleAxis(ra, de)
    else EquatorAxis(Real(r, "rot_obliquity", 0.0) * Deg, Real(r, "rot_equator_ascending_node", 0.0) * Deg)
  }

  /** Rotation elements: period in days, offset, epoch (Julian day), axis,
      precession rate in radians per day, and the period over which the
      orbit is drawn. */
  datatype Rotation = Rotation(period: real, offset: real, epoch: real, axis: Axis,
                               precessionRate: real, visualizationPeriod: real)

  /** The rotation elements of a section: the rotation period is given in
      hours and defaults to the orbital period, itself defaulting to 24
      hours; the precession rate is given in degrees per Julian century. */
  function RotationOf(r: Record): (rot: Rotation)
    ensures rot.period * 24.0 == Real(r, "rot_periode", Real(r, "orbit_Period", 24.0))
    ensures rot.precessionRate * 36525.0 == Real(r, "rot_precession_rate", 0.0) * Deg
    ensures rot.epoch == Real(r, "rot_epoch", J2000) && rot.axis == AxisOf(r)
  {
    Rotation(Real(r, "rot_periode", Real(r, "orbit_Period", 24.0)) / 24.0,
             Real(r, "rot_rotation_offset", 0.0),
             Real(r, "rot_epoch", J2000),
             AxisOf(r),
             Real(r, "rot_precession_rate", 0.0) * Pi / (180.0 * 36525.0),
             Real(r, "orbit_visualization_period", 0.0))
  }

  /** A ring system, inner and outer radius in AU. */
  datatype Ring = Ring(inner: real, outer: real)

  /** The rings a section declares (sizes given in km). */
  function RingsOf(r: Record): (g: Option<Ring>)
    ensures g.Some? <==> Flag(r, "rings", false)
    ensures g.Some? ==> g.value.inner * AU == Real(r, "ring_inner_size", 0.0)
                        && g.value.outer * AU == Real(r, "ring_outer_size", 0.0)
  {
    if Flag(r, "rings", false) then Some(Ring(Real(r, "ring_inner_size", 0.0) / AU, Real(r, "ring_outer_size", 0.0) / AU))
    else None
  }

  /** An orbit object: elliptical or comet elements. */
  datatype Orbit = EllipticalOrbit(ell: EllipticalElements) | CometOrbit(comet: CometElements)

  /** A solar-system body. `parent`, `satellites` and `orbit` are handles
      into the catalogue's arenas. `posJDE` is the (ephemeris) Julian day
      the position was last computed for, `transJD`/`transJDE` the days the
      rotation matrix was last computed for. */
  datatype Body = Body(
    englishName: string, nameI18n: string, typeName: string, kind: BodyKind,
    parent: Option<nat>, satellites: seq<nat>,
    posFunc: PosFunc, osculating: Option<string>, orbit: Option<nat>,
    closeOrbit: bool, hidden: bool, radius: real,
    magnitude: Magnitude, semiMajorAxis: Option<real>, rotation: Rotation, rings: Option<Ring>,
    flagHints: bool, flagLabels: bool, flagOrbits: bool, sphereScale: real,
    posJDE: real, transJD: real, transJDE: real)

  /** Whether an orbit drawn for the body closes: as the section says
      (default yes), but never for an orbit element set with e >= 1. */
  function CloseOrbitOf(funcName: string, r: Record): (b: bool)
    ensures b ==> Flag(r, "closeOrbit", true)
    ensures (funcName == "ell_orbit" || funcName == "comet_orbit") && Real(r, "orbit_Eccentricity", 0.0) >= 1.0 ==> !b
    ensures !(funcName == "ell_orbit" || funcName == "comet_orbit") ==> b == Flag(r, "closeOrbit", true)
  {
    Flag(r, "closeOrbit", true)
      && !((funcName == "ell_orbit" || funcName == "comet_orbit") && Real(r, "orbit_Eccentricity", 0.0) >= 1.0)
  }

  /** The body a section describes, before it is linked into the
      catalogue (no parent, satellites or orbit handle yet). */
  function NewBody(englishName: string, r: Record, posFunc: PosFunc, funcName: string): (b: Body)
    ensures b.englishName == englishName && b.nameI18n == englishName && b.typeName == Str(r, "type", "")
    ensures b.kind == KindOf(b.typeName, englishName) && b.magnitude == MagnitudeOf(b.kind, r)
    ensures b.parent.None? && b.satellites == [] && b.orbit.None?
    ensures b.posFunc == posFunc && b.osculating == OsculatingFunction(funcName)
    ensures b.radius * AU == Real(r, "radius", 0.0)
  {
    var typeName := Str(r, "type", "");
    var kind := KindOf(typeName, englishName);
    Body(englishName, englishName, typeName, kind, None, [], posFunc, OsculatingFunction(funcName), None,
         CloseOrbitOf(funcName, r), Flag(r, "hidden", false), Real(r, "radius", 0.0) / AU,
         MagnitudeOf(kind, r), SemiMajorAxisOf(kind, r), RotationOf(r), RingsOf(r),
         false, false, false, 1.0, 0.0, 0.0, 0.0)
  }

  /** Every handle in `hs` refers into an arena of `n` entries. */
  predicate HandlesIn(hs: seq<nat>, n: nat) {
    forall i :: 0 <= i < |hs| ==> hs[i] < n
  }

  /** The state the loader builds: the body and orbit arenas, the live
      lists `systemPlanets` (`planets`), `orbits` and `minorBodies`, and the
      `sun`, `earth` and `moon` aliases. */
  datatype Catalogue = Catalogue(
    bodies: seq<Body>, planets: seq<nat>,
    orbitStore: seq<Orbit>, orbits: seq<nat>,
    minorBodies: seq<string>,
    sun: Option<nat>, earth: Option<nat>, moon: Option<nat>)

  const EmptyCatalogue := Catalogue([], [], [], [], [], None, None, None)

  /** Body `i` is linked consistently: its parent was created before it,
      each of its satellites names it as parent, and its orbit exists. */
  ghost predicate Linked(c: Catalogue, i: nat)
    requires i < |c.bodies|
  {
    (c.bodies[i].parent.Some? ==> c.bodies[i].parent.value < i) &&
    (forall s :: s in c.bodies[i].satellites ==> s < |c.bodies| && c.bodies[s].parent == Some(i)) &&
    (c.bodies[i].orbit.Some? ==> c.bodies[i].orbit.value < |c.orbitStore|)
  }

  /** The catalogue invariant: live lists hold valid handles without
      repetition, and every body is linked consistently (so the parent
      relation has no cycle). */
  ghost predicate Valid(c: Catalogue) {
    HandlesIn(c.planets, |c.bodies|) && NoDup(c.planets) &&
    HandlesIn(c.orbits, |c.orbitStore|) && NoDup(c.orbits) &&
    (forall i :: 0 <= i < |c.bodies| ==> Linked(c, i)) &&
    (c.sun.Some? ==> c.sun.value < |c.bodies|) &&
    (c.earth.Some? ==> c.earth.value < |c.bodies|) &&
    (c.moon.Some? ==> c.moon.value < |c.bodies|)
  }

  /** Two arenas of the same size whose bodies have the same links
      (parent, satellites, orbit): they differ at most in per-body state
      such as display flags, scale and computed times. */
  predicate SameLinks(a: seq<Body>, b: seq<Body>) {
    |a| == |b| &&
    forall i :: 0 <= i < |a| ==>
      a[i].parent == b[i].parent && a[i].satellites == b[i].satellites && a[i].orbit == b[i].orbit
  }

  /** Changing per-body state that is not a link keeps the catalogue
      invariant. */
  lemma ValidSameLinks(c: Catalogue, b: seq<Body>)
    requires Valid(c) && SameLinks(c.bodies, b)
    ensures Valid(c.(bodies := b))
  {
    var d := c.(bodies := b);
    forall i | 0 <= i < |b|
      ensures Linked(d, i)
    {
      assert Linked(c, i);
    }
  }

  /** The position in `planets` of the first body called `name`. */
  function FindPos(bodies: seq<Body>, planets: seq<nat>, name: string): (k: Option<nat>)
    requires HandlesIn(planets, |bodies|)
    ensures k.Some? ==> k.value < |planets| && bodies[planets[k.value]].englishName == name
    ensures k.Some? ==> forall j :: 0 <= j < k.value ==> bodies[planets[j]].englishName != name
    ensures k.None? <==> forall j :: 0 <= j < |planets| ==> bodies[planets[j]].englishName != name
    decreases |planets|
  {
    if planets == [] then None
    else if bodies[planets[0]].englishName == name then Some(0)
    else
      match FindPos(bodies, planets[1..], name)
      case None => None
      case Some(k) => Some(k + 1)
  }

  /** searchByEnglishName: the first loaded body called `name`, if any. */
  function FindByEnglishName(bodies: seq<Body>, planets: seq<nat>, name: string): (h: Option<nat>)
    requires HandlesIn(planets, |bodies|)
    ensures h.Some? ==> h.value in planets && bodies[h.value].englishName == name
    ensures h.None? <==> forall j :: 0 <= j < |planets| ==> bodies[planets[j]].englishName != name
  {
    match FindPos(bodies, planets, name)
    case None => None
    case Some(k) => Some(planets[k])
  }
}
