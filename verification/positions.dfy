/** Which moment each body's position and orientation are computed for.

    Positions come from an ephemeris the model does not contain: `helio`
    gives the heliocentric ecliptic position of body `i` when each body `k`
    was last computed for the day `times[k]` (a body's position depends on
    its parent's), and `length` is the Euclidean norm. The model tracks the
    day each body was last computed for (`posJDE`) and the days its
    rotation matrix was computed for (`transJD`, `transJDE`). */
module Positions {
  import opened Lists
  import opened Elements
  import opened Bodies

  datatype Vec3 = Vec3(x: real, y: real, z: real)

  function Sub(a: Vec3, b: Vec3): Vec3 {
    Vec3(a.x - b.x, a.y - b.y, a.z - b.z)
  }

  const Zero := Vec3(0.0, 0.0, 0.0)

  /** The speed of light in km/s. */
  const SpeedOfLight: real := 299792.458

  /** Days light takes to cross one AU. */
  const LightDaysPerAU: real := AU / (SpeedOfLight * 86400.0)

  /** Days light takes to cross `distance` AU. */
  function LightDays(distance: real): real {
    distance * LightDaysPerAU
  }

  /** The days every body of the arena was last computed for. */
  function Times(bodies: seq<Body>): (t: seq<real>)
    ensures |t| == |bodies| && forall i :: 0 <= i < |bodies| ==> t[i] == bodies[i].posJDE
  {
    seq(|bodies|, i requires 0 <= i < |bodies| => bodies[i].posJDE)
  }

  /** `computePosition(t)` on body `i`: it is now at its position for day `t`. */
  function SetTime(bodies: seq<Body>, i: nat, t: real): (r: seq<Body>)
    requires i < |bodies|
    ensures |r| == |bodies|
  {
    bodies[i := bodies[i].(posJDE := t)]
  }

  /** `computeTransMatrix(jd, jde)` on body `i`: its rotation is now the
      one for universal day `jd` and dynamical day `jde`. */
  function SetRotationTime(bodies: seq<Body>, i: nat, jd: real, jde: real): (r: seq<Body>)
    requires i < |bodies|
    ensures |r| == |bodies|
  {
    bodies[i := bodies[i].(transJD := jd, transJDE := jde)]
  }

  /** Every body of `ps`, in order, computed for day `t`. */
  function AllAt(bodies: seq<Body>, ps: seq<nat>, t: real): (r: seq<Body>)
    requires HandlesIn(ps, |bodies|)
    ensures |r| == |bodies|
  {
    if ps == [] then bodies
    else SetTime(AllAt(bodies, ps[..|ps| - 1], t), ps[|ps| - 1], t)
  }

  /** Light travel time, in days, from body `p` (as the arena now stands)
      to the point `from`. */
  function LightTime(helio: (seq<real>, nat) -> Vec3, length: Vec3 -> real, bodies: seq<Body>, p: nat, from: Vec3): real {
    LightDays(length(Sub(helio(Times(bodies), p), from)))
  }

  /** The light-time pass: each body of `ps` in order recomputed for
      `dateJDE` less its light time to `obsPos`, measured on the arena as it
      stands when that body's turn comes (so after the bodies before it have
      moved). */
  function CorrectedPass(helio: (seq<real>, nat) -> Vec3, length: Vec3 -> real,
                         bodies: seq<Body>, ps: seq<nat>, obsPos: Vec3, dateJDE: real): (r: seq<Body>)
    requires HandlesIn(ps, |bodies|)
    ensures |r| == |bodies|
  {
    if ps == [] then bodies
    else
      var b := CorrectedPass(helio, length, bodies, ps[..|ps| - 1], obsPos, dateJDE);
      var p := ps[|ps| - 1];
      SetTime(b, p, dateJDE - LightTime(helio, length, b, p, obsPos))
  }

  /** The observer probe of the light-time branch, on the arena `computed`
      where every body is computed for `dateJDE`: the observer is computed
      for the moment its light left the Sun and reset to `dateJDE`. The
      result is that arena, the observer's position at `dateJDE` and the
      shift of the Sun this makes (the Sun's light-time position). */
  function ObserverProbe(helio: (seq<real>, nat) -> Vec3, length: Vec3 -> real,
                         computed: seq<Body>, observer: nat, dateJDE: real)
    : (res: (seq<Body>, Vec3, Vec3))
    requires observer < |computed|
    ensures |res.0| == |computed|
  {
    var obsPos := helio(Times(computed), observer);
    var shifted := SetTime(computed, observer, dateJDE - LightDays(length(obsPos)));
    var before := helio(Times(shifted), observer);
    (SetTime(shifted, observer, dateJDE), obsPos, Sub(obsPos, before))
  }

  /** computePositions: the arena afterwards and `lightTimeSunPosition`. */
  function ComputePositions(helio: (seq<real>, nat) -> Vec3, length: Vec3 -> real,
                            bodies: seq<Body>, planets: seq<nat>, observer: nat, dateJDE: real, lightTime: bool)
    : (res: (seq<Body>, Vec3))
    requires HandlesIn(planets, |bodies|) && observer < |bodies|
    ensures |res.0| == |bodies|
    ensures !lightTime ==> res.1 == Zero
  {
    if lightTime then
      var probe := ObserverProbe(helio, length, AllAt(bodies, planets, dateJDE), observer, dateJDE);
      (CorrectedPass(helio, length, probe.0, planets, probe.1, dateJDE), probe.2)
    else (AllAt(bodies, planets, dateJDE), Zero)
  }

  /** computeTransMatrices: each body of `ps` gets its rotation computed
      for `dateJD` and `dateJDE`, both shifted back by its light time to
      `observerPos` when light travel time is on. */
  function TransPass(helio: (seq<real>, nat) -> Vec3, length: Vec3 -> real, bodies: seq<Body>, ps: seq<nat>,
                     dateJD: real, dateJDE: real, lightTime: bool, observerPos: Vec3): (r: seq<Body>)
    requires HandlesIn(ps, |bodies|)
    ensures |r| == |bodies|
  {
    if ps == [] then bodies
    else
      var b := TransPass(helio, length, bodies, ps[..|ps| - 1], dateJD, dateJDE, lightTime, observerPos);
      var p := ps[|ps| - 1];
      var corr := if lightTime then LightTime(helio, length, b, p, observerPos) else 0.0;
      SetRotationTime(b, p, dateJD - corr, dateJDE - corr)
  }

  /** The universal time matching `dateJDE`, given ΔT in seconds. */
  function UniversalDay(dateJDE: real, deltaT: real -> real): real {
    dateJDE - deltaT(dateJDE) / 86400.0
  }

  /** Without light travel time, every loaded body is computed for the
      same day, and nothing else in the arena changes. */
  lemma {:induction false} AllAtTimes(bodies: seq<Body>, ps: seq<nat>, t: real)
    requires HandlesIn(ps, |bodies|)
    ensures forall i :: 0 <= i < |ps| ==> AllAt(bodies, ps, t)[ps[i]].posJDE == t
    ensures forall k :: 0 <= k < |bodies| && k !in ps ==> AllAt(bodies, ps, t)[k] == bodies[k]
  {
    if ps != [] {
      AllAtTimes(bodies, ps[..|ps| - 1], t);
      forall i | 0 <= i < |ps| - 1
        ensures ps[..|ps| - 1][i] == ps[i]
      {
      }
    }
  }

  /** Light time: when light travel time is on, no body is computed for a
      day later than `dateJDE`; bodies not loaded keep their time. */
  lemma {:induction false} CorrectedNotLater(helio: (seq<real>, nat) -> Vec3, length: Vec3 -> real,
                                             bodies: seq<Body>, ps: seq<nat>, obsPos: Vec3, dateJDE: real)
    requires HandlesIn(ps, |bodies|)
    requires forall v :: length(v) >= 0.0
    ensures forall i :: 0 <= i < |ps| ==> CorrectedPass(helio, length, bodies, ps, obsPos, dateJDE)[ps[i]].posJDE <= dateJDE
    ensures forall k :: 0 <= k < |bodies| && k !in ps ==> CorrectedPass(helio, length, bodies, ps, obsPos, dateJDE)[k] == bodies[k]
  {
    if ps != [] {
      var init := ps[..|ps| - 1];
      CorrectedNotLater(helio, length, bodies, init, obsPos, dateJDE);
      var b := CorrectedPass(helio, length, bodies, init, obsPos, dateJDE);
      var p := ps[|ps| - 1];
      assert length(Sub(helio(Times(b), p), obsPos)) >= 0.0;
      assert LightDaysPerAU > 0.0;
      forall i | 0 <= i < |ps| - 1
        ensures init[i] == ps[i]
      {
      }
    }
  }

  /** The observer is reset: the final light-time pass starts from an arena
      where every loaded body and the observer are at `dateJDE`. */
  lemma ObserverReset(helio: (seq<real>, nat) -> Vec3, length: Vec3 -> real,
                      bodies: seq<Body>, planets: seq<nat>, observer: nat, dateJDE: real)
    requires HandlesIn(planets, |bodies|) && observer < |bodies|
    ensures var b := ObserverProbe(helio, length, AllAt(bodies, planets, dateJDE), observer, dateJDE).0;
      b[observer].posJDE == dateJDE && forall i :: 0 <= i < |planets| ==> b[planets[i]].posJDE == dateJDE
  {
    AllAtTimes(bodies, planets, dateJDE);
  }

  /** Light time off: every loaded body is computed for `dateJDE`, bodies
      not loaded are untouched, and the Sun is not shifted. */
  lemma LightTimeOff(helio: (seq<real>, nat) -> Vec3, length: Vec3 -> real,
                     bodies: seq<Body>, planets: seq<nat>, observer: nat, dateJDE: real)
    requires HandlesIn(planets, |bodies|) && observer < |bodies|
    ensures var res := ComputePositions(helio, length, bodies, planets, observer, dateJDE, false);
      res.1 == Zero &&
      (forall i :: 0 <= i < |planets| ==> res.0[planets[i]].posJDE == dateJDE) &&
      (forall k :: 0 <= k < |bodies| && k !in planets ==> res.0[k] == bodies[k])
  {
    AllAtTimes(bodies, planets, dateJDE);
  }

  /** Rotation matrices: every loaded body's two days differ by exactly ΔT
      (dynamical less universal time), both are shifted by the same
      correction, and without light travel time they are `dateJD` and
      `dateJDE` themselves. */
  lemma {:induction false} TransDays(helio: (seq<real>, nat) -> Vec3, length: Vec3 -> real, bodies: seq<Body>, ps: seq<nat>,
                                     dateJDE: real, deltaT: real -> real, lightTime: bool, observerPos: Vec3)
    requires HandlesIn(ps, |bodies|)
    ensures var r := TransPass(helio, length, bodies, ps, UniversalDay(dateJDE, deltaT), dateJDE, lightTime, observerPos);
      forall i :: 0 <= i < |ps| ==>
        r[ps[i]].transJDE - r[ps[i]].transJD == deltaT(dateJDE) / 86400.0 &&
        (!lightTime ==> r[ps[i]].transJDE == dateJDE)
    ensures var r := TransPass(helio, length, bodies, ps, UniversalDay(dateJDE, deltaT), dateJDE, lightTime, observerPos);
      forall k :: 0 <= k < |bodies| && k !in ps ==> r[k] == bodies[k]
  {
    if ps != [] {
      TransDays(helio, length, bodies, ps[..|ps| - 1], dateJDE, deltaT, lightTime, observerPos);
      forall i | 0 <= i < |ps| - 1
        ensures ps[..|ps| - 1][i] == ps[i]
      {
      }
    }
  }
  /** None of the passes changes a link (parent, satellites, orbit). */
  lemma {:induction false} AllAtLinks(bodies: seq<Body>, ps: seq<nat>, t: real)
    requires HandlesIn(ps, |bodies|)
    ensures SameLinks(bodies, AllAt(bodies, ps, t))
  {
    if ps != [] {
      AllAtLinks(bodies, ps[..|ps| - 1], t);
    }
  }

  lemma {:induction false} CorrectedLinks(helio: (seq<real>, nat) -> Vec3, length: Vec3 -> real,
                                          bodies: seq<Body>, ps: seq<nat>, obsPos: Vec3, dateJDE: real)
    requires HandlesIn(ps, |bodies|)
    ensures SameLinks(bodies, CorrectedPass(helio, length, bodies, ps, obsPos, dateJDE))
  {
    if ps != [] {
      CorrectedLinks(helio, length, bodies, ps[..|ps| - 1], obsPos, dateJDE);
    }
  }

  lemma {:induction false} TransLinks(helio: (seq<real>, nat) -> Vec3, length: Vec3 -> real, bodies: seq<Body>, ps: seq<nat>,
                                      dateJD: real, dateJDE: real, lightTime: bool, observerPos: Vec3)
    requires HandlesIn(ps, |bodies|)
    ensures SameLinks(bodies, TransPass(helio, length, bodies, ps, dateJD, dateJDE, lightTime, observerPos))
  {
    if ps != [] {
      TransLinks(helio, length, bodies, ps[..|ps| - 1], dateJD, dateJDE, lightTime, observerPos);
    }
  }
}
