/** Orbital elements read from a catalogue section for the two element
    formats, `ell_orbit` (elliptical orbits, mostly of moons) and
    `comet_orbit` (comets and minor bodies). Angles are stored in radians,
    distances of `ell_orbit` in AU (the file gives km). */
module Elements {
  import opened Records
  import opened Wrappers

  /** M_PI */
  const Pi: real := 3.14159265358979323846
  /** Radians per degree, `M_PI/180.0`. */
  const Deg: real := Pi / 180.0
  /** Kilometres per astronomical unit. */
  const AU: real := 149597870.691
  /** The J2000.0 epoch as a Julian day. */
  const J2000: real := 2451545.0
  /** The Gaussian gravitational constant (radians per day). */
  const Gauss: real := 0.01720209895
  /** The sentinel `-1e100` a read uses as default to mean "absent"; any
      value at or below it counts as absent. */
  const Absent: real := -10000000000000000000000000000000000000000000000000000000000000000000000000000000000000000000000000000.0

  /** Floating-point division as the model takes it: a zero divisor yields 0
      where IEEE arithmetic yields an infinity or NaN. */
  function Quot(x: real, y: real): (q: real)
    ensures y != 0.0 ==> q * y == x
  {
    if y == 0.0 then 0.0 else x / y
  }

  /** Why a section is passed over with a diagnostic. */
  datatype SkipReason =
    | ParentNotFound      // the declared parent is not loaded (yet)
    | NoDistance          // neither orbit_PericenterDistance nor orbit_SemiMajorAxis
    | NoPericenterTime    // no orbit_TimeAtPericenter and not both orbit_Epoch and orbit_MeanAnomaly

  /** Why loading stops the whole program. */
  datatype HaltReason =
    | UnknownCoordFunc(name: string)   // `exit(-1)` on an unregistered coord_func
    | NullParent                       // a parentless section dereferences its parent

  /** The outcome of reading one group of values from a section. */
  datatype Derivation<T> = Derived(value: T) | Skip(why: SkipReason) | Halt(reason: HaltReason)

  datatype EllipticalElements = EllipticalElements(
    pericenterDistance: real, eccentricity: real, inclination: real, ascendingNode: real,
    argOfPericenter: real, meanAnomaly: real, period: real, epoch: real,
    semiMajorAxis: real, meanMotion: real, longOfPericenter: real, meanLongitude: real)

  datatype CometElements = CometElements(
    pericenterDistance: real, eccentricity: real, inclination: real, ascendingNode: real,
    argOfPericenter: real, timeAtPericenter: real, orbitGoodDays: real, meanMotion: real,
    semiMajorAxis: real)

  /** The mean motion Kepler's third law gives for a Sun-centred orbit with
      pericenter distance `q` and semi-major axis `a` (radians per day). */
  function GaussMeanMotion(e: real, q: real, a: real, sqrt: real -> real): real {
    if e == 1.0 then Gauss * Quot(1.5, q) * sqrt(Quot(0.5, q))
    else if a > 0.0 then Quot(Gauss, a * sqrt(a))
    else Quot(Gauss, -a * sqrt(-a))
  }

  /** Pericenter distance and semi-major axis, in file units divided by
      `unit`, from whichever of the two the section gives (the pericenter
      distance when it is positive). */
  function Distances(e: real, qIn: real, aIn: real, unit: real): (qa: (real, real))
    requires unit > 0.0
    ensures e != 1.0 ==> qa.0 == qa.1 * (1.0 - e)
    ensures e == 1.0 ==> qa.1 == 0.0 || qa.0 == 0.0
    ensures qIn > 0.0 ==> qa.0 == qIn / unit
    ensures qIn <= 0.0 ==> qa.1 == aIn / unit
  {
    if qIn <= 0.0 then (aIn / unit * (1.0 - e), aIn / unit)
    else if e == 1.0 then (qIn / unit, 0.0)
    else (qIn / unit, qIn / unit / (1.0 - e))
  }

  /** Mean motion and period of an `ell_orbit`: the mean motion as given,
      else derived from the period as given, else from Kepler's law; the
      one not given is derived from the other. */
  function Revolution(mmIn: real, periodIn: real, kepler: real): (mp: (real, real))
    ensures OneRevolution(mp.1, mp.0)
    ensures mmIn > Absent ==> mp.0 == mmIn
    ensures mmIn <= Absent && periodIn > Absent ==> mp.1 == periodIn
    ensures mmIn <= Absent && periodIn <= Absent ==> mp.0 == kepler
  {
    if mmIn > Absent then (mmIn, Quot(2.0 * Pi, mmIn))
    else if periodIn > Absent then (Quot(2.0 * Pi, periodIn), periodIn)
    else (kepler, Quot(2.0 * Pi, kepler))
  }

  /** The elements of an `ell_orbit` section. `parent` is None when the
      section declares no parent, else whether that parent has a parent
      itself. */
  function EllipticalFrom(r: Record, parent: Option<bool>, sqrt: real -> real): (d: Derivation<EllipticalElements>)
    ensures d.Skip? <==> Real(r, "orbit_PericenterDistance", Absent) <= 0.0 && Real(r, "orbit_SemiMajorAxis", Absent) <= Absent
    ensures d.Skip? ==> d.why == NoDistance
    ensures d.Halt? <==> !d.Skip? && parent.None?
    ensures d.Halt? ==> d.reason == NullParent
    ensures d.Derived? ==> EllipticalConsistent(d.value)
    ensures d.Derived? ==> d.value.eccentricity == Real(r, "orbit_Eccentricity", 0.0)
    ensures d.Derived? && Real(r, "orbit_PericenterDistance", Absent) > 0.0 ==>
      d.value.pericenterDistance == Real(r, "orbit_PericenterDistance", Absent) / AU
    ensures d.Derived? && Real(r, "orbit_PericenterDistance", Absent) <= 0.0 ==>
      d.value.semiMajorAxis == Real(r, "orbit_SemiMajorAxis", Absent) / AU
    ensures d.Derived? && Real(r, "orbit_MeanMotion", Absent) > Absent ==>
      d.value.meanMotion == Real(r, "orbit_MeanMotion", Absent)
    ensures d.Derived? && Real(r, "orbit_MeanMotion", Absent) <= Absent && Real(r, "orbit_Period", Absent) > Absent ==>
      d.value.period == Real(r, "orbit_Period", Absent)
    ensures d.Derived? && Real(r, "orbit_MeanMotion", Absent) <= Absent && Real(r, "orbit_Period", Absent) <= Absent ==>
      d.value.meanMotion == GaussMeanMotion(d.value.eccentricity, d.value.pericenterDistance, d.value.semiMajorAxis, sqrt)
    ensures d.Derived? ==> d.value.epoch == Real(r, "orbit_Epoch", J2000)
    ensures d.Derived? ==> d.value.inclination == Real(r, "orbit_Inclination", 0.0) * Deg
    ensures d.Derived? ==> d.value.ascendingNode == Real(r, "orbit_AscendingNode", 0.0) * Deg
    ensures d.Derived? ==> d.value.longOfPericenter == Longitudes(r, d.value.ascendingNode).0
    ensures d.Derived? ==> d.value.meanLongitude == Longitudes(r, d.value.ascendingNode).1
  {
    var e := Real(r, "orbit_Eccentricity", 0.0);
    var qIn := Real(r, "orbit_PericenterDistance", Absent);
    var aIn := Real(r, "orbit_SemiMajorAxis", Absent);
    if qIn <= 0.0 && aIn <= Absent then Skip(NoDistance)
    else if parent.None? then Halt(NullParent)
    else
      var qa := Distances(e, qIn, aIn, AU);
      var mp := Revolution(Real(r, "orbit_MeanMotion", Absent), Real(r, "orbit_Period", Absent),
                           GaussMeanMotion(e, qa.0, qa.1, sqrt));
      var node := Real(r, "orbit_AscendingNode", 0.0) * Deg;
      var lon := Longitudes(r, node);
      var longPeri, meanLong := lon.0, lon.1;
      Derived(EllipticalElements(qa.0, e, Real(r, "orbit_Inclination", 0.0) * Deg, node, longPeri - node,
                                 meanLong - longPeri, mp.1, Real(r, "orbit_Epoch", J2000), qa.1, mp.0,
                                 longPeri, meanLong))
  }

  /** Longitude of pericenter and mean longitude of an `ell_orbit`, in
      radians: from the argument of pericenter and the ascending node
      `node` when the argument is given, else the longitude as given; from
      the mean anomaly when it is given, else the mean longitude as given. */
  function Longitudes(r: Record, node: real): (lon: (real, real))
    ensures Real(r, "orbit_ArgOfPericenter", Absent) > Absent ==>
      lon.0 - node == Real(r, "orbit_ArgOfPericenter", Absent) * Deg
    ensures Real(r, "orbit_ArgOfPericenter", Absent) <= Absent ==>
      lon.0 == Real(r, "orbit_LongOfPericenter", 0.0) * Deg
    ensures Real(r, "orbit_MeanAnomaly", Absent) > Absent ==>
      lon.1 - lon.0 == Real(r, "orbit_MeanAnomaly", Absent) * Deg
    ensures Real(r, "orbit_MeanAnomaly", Absent) <= Absent ==>
      lon.1 == Real(r, "orbit_MeanLongitude", 0.0) * Deg
  {
    var argIn := Real(r, "orbit_ArgOfPericenter", Absent);
    var longPeri := if argIn <= Absent then Real(r, "orbit_LongOfPericenter", 0.0) * Deg else argIn * Deg + node;
    var mIn := Real(r, "orbit_MeanAnomaly", Absent);
    (longPeri, if mIn <= Absent then Real(r, "orbit_MeanLongitude", 0.0) * Deg else mIn * Deg + longPeri)
  }

  /** The angles of derived `ell_orbit` elements are those the section
      gives, in radians: the argument of pericenter when given, else the
      longitude of pericenter; the mean anomaly when given, else the mean
      longitude. */
  lemma EllipticalAngles(r: Record, parent: Option<bool>, sqrt: real -> real)
    requires EllipticalFrom(r, parent, sqrt).Derived?
    ensures var x := EllipticalFrom(r, parent, sqrt).value;
      (Real(r, "orbit_ArgOfPericenter", Absent) > Absent ==> x.argOfPericenter == Real(r, "orbit_ArgOfPericenter", Absent) * Deg) &&
      (Real(r, "orbit_ArgOfPericenter", Absent) <= Absent ==> x.longOfPericenter == Real(r, "orbit_LongOfPericenter", 0.0) * Deg) &&
      (Real(r, "orbit_MeanAnomaly", Absent) > Absent ==> x.meanAnomaly == Real(r, "orbit_MeanAnomaly", Absent) * Deg) &&
      (Real(r, "orbit_MeanAnomaly", Absent) <= Absent ==> x.meanLongitude == Real(r, "orbit_MeanLongitude", 0.0) * Deg)
  {
    var x := EllipticalFrom(r, parent, sqrt).value;
    var lon := Longitudes(r, x.ascendingNode);
    assert x.longOfPericenter == lon.0 && x.meanLongitude == lon.1;
    assert EllipticalConsistent(x);
  }

  /** A period and a mean motion that make one full revolution (2 pi
      radians), whenever the mean motion is not zero. */
  predicate OneRevolution(period: real, meanMotion: real) {
    meanMotion != 0.0 ==> period * meanMotion == 2.0 * Pi
  }

  /** The relations every elliptical derivation keeps: pericenter distance
      and semi-major axis agree through the eccentricity (a parabola has no
      semi-major axis), period and mean motion make one revolution, and the
      longitudes are the angles summed. */
  predicate EllipticalConsistent(x: EllipticalElements) {
    (x.eccentricity != 1.0 ==> x.pericenterDistance == x.semiMajorAxis * (1.0 - x.eccentricity)) &&
    (x.eccentricity == 1.0 ==> x.semiMajorAxis == 0.0 || x.pericenterDistance == 0.0) &&
    OneRevolution(x.period, x.meanMotion) &&
    x.longOfPericenter == x.argOfPericenter + x.ascendingNode &&
    x.meanLongitude == x.meanAnomaly + x.longOfPericenter
  }

  /** The section gives a positive pericenter distance or a semi-major
      axis. */
  predicate DistanceGiven(r: Record) {
    Real(r, "orbit_PericenterDistance", Absent) > 0.0 || Real(r, "orbit_SemiMajorAxis", Absent) > Absent
  }

  /** The section gives a mean motion or a period. */
  predicate MotionGiven(r: Record) {
    Real(r, "orbit_MeanMotion", Absent) > Absent || Real(r, "orbit_Period", Absent) > Absent
  }

  /** The section gives the time of pericenter, or an epoch and a mean
      anomaly to derive it from. */
  predicate PericenterTimeGiven(r: Record) {
    Real(r, "orbit_TimeAtPericenter", Absent) > Absent ||
    (Real(r, "orbit_Epoch", Absent) > Absent && Real(r, "orbit_MeanAnomaly", Absent) > Absent)
  }

  /** The elements of a `comet_orbit` section (distances in AU as given).
      `parent` is as for EllipticalFrom. A section without distances is
      skipped; a parentless one without mean motion or period stops the
      program there; then one without a pericenter time is skipped; and a
      parentless one stops the program at the end. A satellite without mean
      motion or period is kept. */
  function CometFrom(r: Record, parent: Option<bool>, sqrt: real -> real): (d: Derivation<CometElements>)
    ensures d == Skip(NoDistance) <==> !DistanceGiven(r)
    ensures d == Skip(NoPericenterTime) <==>
      DistanceGiven(r) && (parent.Some? || MotionGiven(r)) && !PericenterTimeGiven(r)
    ensures d.Halt? <==> DistanceGiven(r) && parent.None? && (!MotionGiven(r) || PericenterTimeGiven(r))
    ensures d.Derived? <==> DistanceGiven(r) && parent.Some? && PericenterTimeGiven(r)
    ensures d.Halt? ==> d.reason == NullParent
    ensures d.Derived? ==> d.value.eccentricity == Real(r, "orbit_Eccentricity", 0.0)
    ensures d.Derived? && Real(r, "orbit_PericenterDistance", Absent) > 0.0 ==>
      d.value.pericenterDistance == Real(r, "orbit_PericenterDistance", Absent)
    ensures d.Derived? && Real(r, "orbit_PericenterDistance", Absent) <= 0.0 ==>
      d.value.semiMajorAxis == Real(r, "orbit_SemiMajorAxis", Absent)
    ensures d.Derived? ==> CometConsistent(d.value)
    ensures d.Derived? && Real(r, "orbit_MeanMotion", Absent) > Absent ==>
      d.value.meanMotion == Real(r, "orbit_MeanMotion", Absent) * Deg
    ensures d.Derived? && Real(r, "orbit_TimeAtPericenter", Absent) <= Absent ==>
      MeanAnomalyAt(Real(r, "orbit_Epoch", Absent), Real(r, "orbit_MeanAnomaly", Absent) * Deg, d.value)
    ensures d.Derived? && Real(r, "orbit_TimeAtPericenter", Absent) > Absent ==>
      d.value.timeAtPericenter == Real(r, "orbit_TimeAtPericenter", Absent)
    ensures (parent == Some(true) && Real(r, "orbit_MeanMotion", Absent) <= Absent
             && Real(r, "orbit_Period", Absent) <= Absent && d.Derived?) ==>
      d.value.meanMotion == Real(r, "orbit_MeanMotion", Absent)
    ensures d.Derived? && Real(r, "orbit_MeanMotion", Absent) <= Absent && Real(r, "orbit_Period", Absent) > Absent ==>
      OneRevolution(Real(r, "orbit_Period", Absent), d.value.meanMotion)
    ensures (parent == Some(false) && Real(r, "orbit_MeanMotion", Absent) <= Absent
             && Real(r, "orbit_Period", Absent) <= Absent && d.Derived?) ==>
      d.value.meanMotion == GaussMeanMotion(d.value.eccentricity, d.value.pericenterDistance, d.value.semiMajorAxis, sqrt)
    ensures d.Derived? ==> d.value.inclination == Real(r, "orbit_Inclination", 0.0) * Deg
    ensures d.Derived? ==> d.value.ascendingNode == Real(r, "orbit_AscendingNode", 0.0) * Deg
    ensures d.Derived? ==> d.value.argOfPericenter == Real(r, "orbit_ArgOfPericenter", 0.0) * Deg
    ensures d.Derived? ==> d.value.orbitGoodDays == Real(r, "orbit_good", 1000.0)
  {
    var e := Real(r, "orbit_Eccentricity", 0.0);
    var qIn := Real(r, "orbit_PericenterDistance", Absent);
    var aIn := Real(r, "orbit_SemiMajorAxis", Absent);
    if qIn <= 0.0 && aIn <= Absent then Skip(NoDistance)
    else
      var mmIn := Real(r, "orbit_MeanMotion", Absent);
      var periodIn := Real(r, "orbit_Period", Absent);
      if mmIn <= Absent && periodIn <= Absent && parent.None? then Halt(NullParent)
      else
        var qa := Distances(e, qIn, aIn, 1.0);
        var mm := CometMeanMotion(mmIn, periodIn, parent, GaussMeanMotion(e, qa.0, qa.1, sqrt));
        var tpIn := Real(r, "orbit_TimeAtPericenter", Absent);
        var epoch := Real(r, "orbit_Epoch", Absent);
        var mIn := Real(r, "orbit_MeanAnomaly", Absent);
        if tpIn <= Absent && (epoch <= Absent || mIn <= Absent) then Skip(NoPericenterTime)
        else if parent.None? then Halt(NullParent)
        else
          Derived(CometElements(qa.0, e, Real(r, "orbit_Inclination", 0.0) * Deg,
                                Real(r, "orbit_AscendingNode", 0.0) * Deg,
                                Real(r, "orbit_ArgOfPericenter", 0.0) * Deg,
                                PericenterTime(tpIn, epoch, mIn, mm), Real(r, "orbit_good", 1000.0), mm, qa.1))
  }

  /** Mean motion of a `comet_orbit` in radians per day: as given (in
      degrees per day), else from the period, else, for a body whose parent
      has no parent, from Kepler's law; a satellite's missing mean motion is
      only warned about and keeps the value read. */
  function CometMeanMotion(mmIn: real, periodIn: real, parent: Option<bool>, kepler: real): (mm: real)
    requires mmIn > Absent || periodIn > Absent || parent.Some?
    ensures mmIn > Absent ==> mm == mmIn * Deg
    ensures mmIn <= Absent && periodIn > Absent ==> OneRevolution(periodIn, mm)
    ensures mmIn <= Absent && periodIn <= Absent ==> mm == (if parent.value then mmIn else kepler)
  {
    if mmIn > Absent then mmIn * Deg
    else if periodIn > Absent then Quot(2.0 * Pi, periodIn)
    else if parent.value then mmIn
    else kepler
  }

  /** Time of pericenter passage: as given, else the epoch less the time the
      mean anomaly took to accumulate. */
  function PericenterTime(tpIn: real, epoch: real, mIn: real, mm: real): (tp: real)
    ensures tpIn > Absent ==> tp == tpIn
    ensures tpIn <= Absent ==> MeanMotionCovers(epoch - tp, mm, mIn * Deg)
  {
    if tpIn <= Absent then epoch - Quot(mIn * Deg, mm) else tpIn
  }

  /** Moving at `meanMotion` for `days` sweeps the angle `angle`, whenever
      the mean motion is not zero. */
  predicate MeanMotionCovers(days: real, meanMotion: real, angle: real) {
    meanMotion != 0.0 ==> days * meanMotion == angle
  }

  /** The comet orbit has mean anomaly `m` at the Julian day `epoch`. */
  predicate MeanAnomalyAt(epoch: real, m: real, x: CometElements) {
    MeanMotionCovers(epoch - x.timeAtPericenter, x.meanMotion, m)
  }

  /** Pericenter distance and semi-major axis agree through the eccentricity. */
  predicate CometConsistent(x: CometElements) {
    (x.eccentricity != 1.0 ==> x.pericenterDistance == x.semiMajorAxis * (1.0 - x.eccentricity)) &&
    (x.eccentricity == 1.0 ==> x.semiMajorAxis == 0.0 || x.pericenterDistance == 0.0)
  }
}
