/** The loops of the SolarSystem methods, each a walk over `systemPlanets`
    (here `planets`) that updates the bodies of the arena one at a time,
    and the removal of a body. Each is proved equal to the specification
    function of the Loader, Positions or Display module it carries out;
    the class then installs the resulting arena. */
module Passes {
  import opened Wrappers
  import opened Lists
  import opened Bodies
  import opened Loader
  import opened Positions
  import opened Display

  /** Every body of `planets`, in order, computed for day `t`. */
  method ComputeAll(bodies: seq<Body>, planets: seq<nat>, t: real) returns (arena: seq<Body>)
    requires HandlesIn(planets, |bodies|)
    ensures arena == AllAt(bodies, planets, t)
  {
    arena := bodies;
    for k := 0 to |planets|
      invariant arena == AllAt(bodies, planets[..k], t)
    {
      assert planets[..k + 1][..k] == planets[..k];
      arena := SetTime(arena, planets[k], t);
    }
    assert planets[..|planets|] == planets;
  }

  /** Every body of `planets`, in order, computed for `dateJDE` less its
      light time to `obsPos`. */
  method CorrectAll(helio: (seq<real>, nat) -> Vec3, length: Vec3 -> real, bodies: seq<Body>, planets: seq<nat>,
                    obsPos: Vec3, dateJDE: real) returns (arena: seq<Body>)
    requires HandlesIn(planets, |bodies|)
    ensures arena == CorrectedPass(helio, length, bodies, planets, obsPos, dateJDE)
  {
    arena := bodies;
    for k := 0 to |planets|
      invariant arena == CorrectedPass(helio, length, bodies, planets[..k], obsPos, dateJDE)
    {
      assert planets[..k + 1][..k] == planets[..k];
      var p := planets[k];
      var correction := LightTime(helio, length, arena, p, obsPos);
      arena := SetTime(arena, p, dateJDE - correction);
    }
    assert planets[..|planets|] == planets;
  }

  /** The position part of computePositions, on the arena: every loaded
      body computed for `dateJDE`; with light travel time, the observer
      probed for the Sun's shift and every loaded body recomputed for its
      light time. */
  method PositionPass(helio: (seq<real>, nat) -> Vec3, length: Vec3 -> real, bodies: seq<Body>, planets: seq<nat>,
                      observer: nat, dateJDE: real, lightTime: bool) returns (arena: seq<Body>, sunShift: Vec3)
    requires HandlesIn(planets, |bodies|) && observer < |bodies|
    ensures (arena, sunShift) == Positions.ComputePositions(helio, length, bodies, planets, observer, dateJDE, lightTime)
    ensures SameLinks(bodies, arena)
  {
    var computed := ComputeAll(bodies, planets, dateJDE);
    AllAtLinks(bodies, planets, dateJDE);
    arena, sunShift := computed, Zero;
    if lightTime {
      var probe, obsPosJDE;
      probe, obsPosJDE, sunShift := ProbeObserver(helio, length, computed, observer, dateJDE);
      arena := CorrectAll(helio, length, probe, planets, obsPosJDE, dateJDE);
      CorrectedLinks(helio, length, probe, planets, obsPosJDE, dateJDE);
    }
  }

  /** The observer's light-time probe in computePositions: the observer is
      computed for its own light time, its position there taken, and then
      computed for `dateJDE` again. */
  method ProbeObserver(helio: (seq<real>, nat) -> Vec3, length: Vec3 -> real, computed: seq<Body>, observer: nat,
                       dateJDE: real) returns (probe: seq<Body>, obsPosJDE: Vec3, sunShift: Vec3)
    requires observer < |computed|
    ensures (probe, obsPosJDE, sunShift) == ObserverProbe(helio, length, computed, observer, dateJDE)
    ensures SameLinks(computed, probe)
  {
    obsPosJDE := helio(Times(computed), observer);
    var obsDist := length(obsPosJDE);
    var shifted := SetTime(computed, observer, dateJDE - LightDays(obsDist));
    var obsPosJDEbefore := helio(Times(shifted), observer);
    sunShift := Sub(obsPosJDE, obsPosJDEbefore);
    probe := SetTime(shifted, observer, dateJDE);
  }

  /** The loops of computeTransMatrices: each body of `planets`, in order,
      gets its rotation computed for `dateJD` and `dateJDE`, both less its
      light time to `observerPos` when light travel time is on. */
  method TransAll(helio: (seq<real>, nat) -> Vec3, length: Vec3 -> real, bodies: seq<Body>, planets: seq<nat>,
                  dateJD: real, dateJDE: real, lightTime: bool, observerPos: Vec3) returns (arena: seq<Body>)
    requires HandlesIn(planets, |bodies|)
    ensures arena == TransPass(helio, length, bodies, planets, dateJD, dateJDE, lightTime, observerPos)
    ensures SameLinks(bodies, arena)
  {
    arena := bodies;
    if lightTime {
      for k := 0 to |planets|
        invariant arena == TransPass(helio, length, bodies, planets[..k], dateJD, dateJDE, true, observerPos)
      {
        assert planets[..k + 1][..k] == planets[..k];
        var p := planets[k];
        var correction := LightTime(helio, length, arena, p, observerPos);
        arena := SetRotationTime(arena, p, dateJD - correction, dateJDE - correction);
      }
    } else {
      for k := 0 to |planets|
        invariant arena == TransPass(helio, length, bodies, planets[..k], dateJD, dateJDE, false, observerPos)
      {
        assert planets[..k + 1][..k] == planets[..k];
        var p := planets[k];
        arena := SetRotationTime(arena, p, dateJD, dateJDE);
      }
    }
    assert planets[..|planets|] == planets;
    TransLinks(helio, length, bodies, planets, dateJD, dateJDE, lightTime, observerPos);
  }

  /** The clean-up loop after a failing minor file: the satellites of
      every loaded minor body are dropped. */
  method DropMinorSatellites(c: Catalogue) returns (arena: seq<Body>)
    requires Valid(c)
    ensures arena == ClearAfterFailure(c).bodies
  {
    var planets := c.planets;
    arena := c.bodies;
    for k := 0 to |planets|
      invariant |arena| == |c.bodies|
      invariant forall i :: 0 <= i < |arena| ==>
        arena[i] == if i in planets[..k] && IsMinorType(c.bodies[i].typeName)
                    then c.bodies[i].(satellites := []) else c.bodies[i]
    {
      var p := planets[k];
      assert planets[..k + 1] == planets[..k] + [p];
      if IsMinorType(arena[p].typeName) {
        arena := arena[p := arena[p].(satellites := [])];
      }
    }
    assert planets[..|planets|] == planets;
  }

  /** The recount of `shadowPlanetCount` over the loaded bodies. */
  method CountShadows(c: Catalogue) returns (n: nat)
    requires HandlesIn(c.planets, |c.bodies|)
    ensures n == ShadowCount(c, |c.planets|)
  {
    n := 0;
    for i := 0 to |c.planets|
      invariant n == ShadowCount(c, i)
    {
      var p := c.planets[i];
      if c.bodies[p].parent != c.sun || c.bodies[p].satellites != [] {
        n := n + 1;
      }
    }
  }

  /** The loop of setFlagHints / setFlagLabels: every body of `planets`
      gets marker `m` set to `on`. */
  method MarkAll(bodies: seq<Body>, planets: seq<nat>, m: Marker, on: bool) returns (arena: seq<Body>)
    requires HandlesIn(planets, |bodies|)
    ensures arena == ShowAll(bodies, planets, m, on)
    ensures SameLinks(bodies, arena)
  {
    arena := bodies;
    for k := 0 to |planets|
      invariant |arena| == |bodies|
      invariant forall i :: 0 <= i < |arena| ==>
        arena[i] == if i in planets[..k] then WithShown(bodies[i], m, on) else bodies[i]
    {
      var p := planets[k];
      assert planets[..k + 1] == planets[..k] + [p];
      arena := arena[p := WithShown(arena[p], m, on)];
    }
    assert planets[..|planets|] == planets;
  }

  /** The loops of setFlagOrbits: every body of `planets` gets `on`, or
      only the selected body does, or the selected body and the bodies
      whose parent it is do; the rest get false. */
  method OrbitFlags(bodies: seq<Body>, planets: seq<nat>, on: bool, selected: Option<nat>, sun: Option<nat>,
                    isolated: bool) returns (arena: seq<Body>)
    requires HandlesIn(planets, |bodies|)
    ensures arena == OrbitsShown(bodies, planets, on, selected, sun, isolated)
    ensures SameLinks(bodies, arena)
  {
    arena := bodies;
    if !on || selected.None? || selected == sun {
      for k := 0 to |planets|
        invariant OrbitsSetUpTo(bodies, planets, arena, k, on, selected, sun, isolated)
      {
        var p := planets[k];
        OrbitStep(bodies, planets, arena, k, on, selected, sun, isolated);
        arena := arena[p := arena[p].(flagOrbits := on)];
      }
    } else if isolated {
      for k := 0 to |planets|
        invariant OrbitsSetUpTo(bodies, planets, arena, k, on, selected, sun, isolated)
      {
        var p := planets[k];
        OrbitStep(bodies, planets, arena, k, on, selected, sun, isolated);
        var shown := if selected == Some(p) then on else false;
        arena := arena[p := arena[p].(flagOrbits := shown)];
      }
    } else {
      for k := 0 to |planets|
        invariant OrbitsSetUpTo(bodies, planets, arena, k, on, selected, sun, isolated)
      {
        var p := planets[k];
        OrbitStep(bodies, planets, arena, k, on, selected, sun, isolated);
        var shown := if selected == Some(p) || selected == arena[p].parent then on else false;
        arena := arena[p := arena[p].(flagOrbits := shown)];
      }
    }
    OrbitsDone(bodies, planets, arena, on, selected, sun, isolated);
  }

  /** The first `k` bodies of `planets` have had their orbit flag set as
      setFlagOrbits sets it; every other body is as it was. */
  ghost predicate OrbitsSetUpTo(bodies: seq<Body>, planets: seq<nat>, arena: seq<Body>, k: nat, on: bool,
                                selected: Option<nat>, sun: Option<nat>, isolated: bool)
    requires k <= |planets|
  {
    |arena| == |bodies| &&
    forall i :: 0 <= i < |arena| ==>
      arena[i] == if i in planets[..k]
                  then bodies[i].(flagOrbits := OrbitShown(bodies, i, on, selected, sun, isolated))
                  else bodies[i]
  }

  /** One step of the setFlagOrbits loops: the next body gets its flag. */
  lemma OrbitStep(bodies: seq<Body>, planets: seq<nat>, arena: seq<Body>, k: nat, on: bool,
                  selected: Option<nat>, sun: Option<nat>, isolated: bool)
    requires HandlesIn(planets, |bodies|) && k < |planets|
    requires OrbitsSetUpTo(bodies, planets, arena, k, on, selected, sun, isolated)
    ensures arena[planets[k]].parent == bodies[planets[k]].parent
    ensures var p := planets[k];
      OrbitsSetUpTo(bodies, planets, arena[p := arena[p].(flagOrbits := OrbitShown(bodies, p, on, selected, sun, isolated))],
                    k + 1, on, selected, sun, isolated)
  {
    assert planets[..k + 1] == planets[..k] + [planets[k]];
  }

  /** After the whole list the arena is the one setFlagOrbits specifies. */
  lemma OrbitsDone(bodies: seq<Body>, planets: seq<nat>, arena: seq<Body>, on: bool,
                   selected: Option<nat>, sun: Option<nat>, isolated: bool)
    requires OrbitsSetUpTo(bodies, planets, arena, |planets|, on, selected, sun, isolated)
    ensures arena == OrbitsShown(bodies, planets, on, selected, sun, isolated)
    ensures SameLinks(bodies, arena)
  {
    assert planets[..|planets|] == planets;
  }

  /** The loop of setFlagMinorBodyScale / setMinorBodyScale: every body of
      `planets` other than the Moon, the planets and the stars is drawn at
      `scale`. */
  method RescaleAll(bodies: seq<Body>, planets: seq<nat>, moon: Option<nat>, scale: real) returns (arena: seq<Body>)
    requires HandlesIn(planets, |bodies|)
    ensures arena == Rescaled(bodies, planets, moon, scale)
    ensures SameLinks(bodies, arena)
  {
    arena := bodies;
    for k := 0 to |planets|
      invariant |arena| == |bodies|
      invariant forall i :: 0 <= i < |arena| ==>
        arena[i] == if i in planets[..k] && Rescalable(bodies, i, moon) then bodies[i].(sphereScale := scale) else bodies[i]
    {
      var p := planets[k];
      assert planets[..k + 1] == planets[..k] + [p];
      if Some(p) == moon {
        continue;
      }
      if arena[p].typeName != "planet" && arena[p].typeName != "star" {
        arena := arena[p := arena[p].(sphereScale := scale)];
      }
    }
    assert planets[..|planets|] == planets;
  }

  /** Body `i` drawn at `scale` (setSphereScale). */
  function ScaledAt(bodies: seq<Body>, i: nat, scale: real): (r: seq<Body>)
    requires i < |bodies|
    ensures SameLinks(bodies, r) && r[i].sphereScale == scale
    ensures forall k :: 0 <= k < |bodies| && k != i ==> r[k] == bodies[k]
  {
    bodies[i := bodies[i].(sphereScale := scale)]
  }

  /** The removal removePlanet(`name`) performs on a catalogue: the first
      loaded body with that English name leaves `systemPlanets`, and its
      orbit (if it has one) leaves `orbits`. The second component tells
      whether a body was found. */
  function Removal(c: Catalogue, name: string): (res: (Catalogue, bool))
    requires Valid(c)
    ensures res.1 <==> exists j :: 0 <= j < |c.planets| && c.bodies[c.planets[j]].englishName == name
    ensures !res.1 ==> res.0 == c
  {
    match FindByEnglishName(c.bodies, c.planets, name)
    case None => (c, false)
    case Some(h) =>
      var orbits := if c.bodies[h].orbit.Some? then RemoveOne(c.orbits, c.bodies[h].orbit.value) else c.orbits;
      (c.(planets := RemoveOne(c.planets, h), orbits := orbits), true)
  }

  /** A removal keeps the catalogue invariant and leaves the arena, the
      minor-body names and the aliases as they were (so the satellites of
      the removed body keep it as their parent). */
  lemma RemovalValid(c: Catalogue, name: string)
    requires Valid(c)
    ensures var d := Removal(c, name).0;
      Valid(d) && d.bodies == c.bodies && d.orbitStore == c.orbitStore && d.minorBodies == c.minorBodies &&
      d.sun == c.sun && d.earth == c.earth && d.moon == c.moon
  {
    match FindByEnglishName(c.bodies, c.planets, name)
    case None =>
    case Some(h) =>
      var d := Removal(c, name).0;
      RemoveOneNoDup(c.planets, h);
      if c.bodies[h].orbit.Some? {
        RemoveOneNoDup(c.orbits, c.bodies[h].orbit.value);
      }
      FewerValid(c, d.planets, d.orbits);
  }

  /** Dropping handles from the live lists keeps the catalogue invariant. */
  lemma FewerValid(c: Catalogue, planets: seq<nat>, orbits: seq<nat>)
    requires Valid(c) && NoDup(planets) && NoDup(orbits)
    requires forall x :: x in planets ==> x in c.planets
    requires forall o :: o in orbits ==> o in c.orbits
    ensures Valid(c.(planets := planets, orbits := orbits))
  {
    var d := c.(planets := planets, orbits := orbits);
    forall i | 0 <= i < |planets|
      ensures planets[i] < |c.bodies|
    {
      assert planets[i] in c.planets;
    }
    forall i | 0 <= i < |orbits|
      ensures orbits[i] < |c.orbitStore|
    {
      assert orbits[i] in c.orbits;
    }
    forall i | 0 <= i < |c.bodies|
      ensures Linked(d, i)
    {
      assert Linked(c, i);
    }
  }

  /** On success the body found, and no other, stops being loaded; its
      orbit is no longer drawn and every other orbit still is. */
  lemma RemovalEffect(c: Catalogue, name: string, h: nat)
    requires Valid(c) && FindByEnglishName(c.bodies, c.planets, name) == Some(h)
    ensures var d := Removal(c, name).0;
      |d.planets| == |c.planets| - 1 &&
      (forall g :: g in d.planets <==> g in c.planets && g != h) &&
      (c.bodies[h].orbit.Some? ==> c.bodies[h].orbit.value !in d.orbits) &&
      (forall o :: o in c.orbits && Some(o) != c.bodies[h].orbit ==> o in d.orbits)
  {
    RemoveOneNoDup(c.planets, h);
    if c.bodies[h].orbit.Some? {
      RemoveOneNoDup(c.orbits, c.bodies[h].orbit.value);
    }
  }
}
