/** The SolarSystem module object: its state (the catalogue of bodies and
    the display settings) and the operations that change it in place. Each
    method is proved equal to the specification functions of the Loader,
    Positions and Display modules; the loops over `systemPlanets` are the
    methods of the Passes module, whose results the object stores. */
module SolarSystemModel {
  import opened Wrappers
  import opened Lists
  import opened Records
  import opened Elements
  import opened Bodies
  import opened Dependency
  import opened Loader
  import opened Positions
  import opened Display
  import opened Queries
  import opened Passes

  /** The change notifications the setters emit, in emission order. */
  datatype Signal =
    | FlagHintsChanged(on: bool)
    | LabelsDisplayedChanged(on: bool)
    | FlagOrbitsChanged(on: bool)
    | FlagLightTravelTimeChanged(on: bool)
    | FlagPlanetsDisplayedChanged(on: bool)
    | FlagIsolatedTrailsChanged(on: bool)
    | FlagIsolatedOrbitsChanged(on: bool)
    | FlagMoonScaleChanged(on: bool)
    | MoonScaleChanged(scale: real)
    | FlagMinorBodyScaleChanged(on: bool)
    | MinorBodyScaleChanged(scale: real)

  /** The object's settings: every field that is not part of the catalogue
      or the signal log. */
  datatype Settings = Settings(
    selected: Option<nat>, shadowPlanetCount: nat, lightTimeSunPosition: Vec3,
    flagOrbits: bool, flagLightTravelTime: bool, flagShow: bool,
    flagIsolatedTrails: bool, flagIsolatedOrbits: bool,
    flagMoonScale: bool, moonScale: real,
    flagMinorBodyScale: bool, minorBodyScale: real,
    orbitColorStyle: OrbitColorStyle)

  class SolarSystem {
    /** The loaded bodies: the arena, `systemPlanets`, the orbit store and
        the drawn `orbits`, `minorBodies` and the `sun`, `earth` and `moon`
        aliases, kept together as the value the loader builds. */
    var catalogue: Catalogue

    // The settings.
    var selected: Option<nat>
    var shadowPlanetCount: nat
    var lightTimeSunPosition: Vec3
    var flagOrbits: bool
    var flagLightTravelTime: bool
    var flagShow: bool
    var flagIsolatedTrails: bool
    var flagIsolatedOrbits: bool
    var flagMoonScale: bool
    var moonScale: real
    var flagMinorBodyScale: bool
    var minorBodyScale: real
    /** The orbit colour style, which the source keeps as a static of the
        Planet class and which only this object sets. */
    var orbitColorStyle: OrbitColorStyle

    /** The notifications emitted so far. */
    var signals: seq<Signal>

    function Config(): Settings
      reads this
    {
      Settings(selected, shadowPlanetCount, lightTimeSunPosition, flagOrbits, flagLightTravelTime, flagShow,
               flagIsolatedTrails, flagIsolatedOrbits, flagMoonScale, moonScale,
               flagMinorBodyScale, minorBodyScale, orbitColorStyle)
    }

    /** The object invariant: the catalogue is consistent and the selection
        is a body of the arena. */
    ghost predicate Valid()
      reads this
    {
      Bodies.Valid(catalogue) && (selected.Some? ==> selected.value < |catalogue.bodies|)
    }

    /** A new module: nothing loaded, nothing selected, the flags at their
        defaults (orbits hidden, light travel time on, planets hidden,
        trails and orbits isolated, no scaling at factor 1). */
    constructor()
      ensures Valid() && catalogue == EmptyCatalogue && signals == []
      ensures Config() == Settings(None, 0, Zero, false, true, false, true, true, false, 1.0, false, 1.0, OneColor)
    {
      catalogue := EmptyCatalogue;
      selected, shadowPlanetCount, lightTimeSunPosition := None, 0, Zero;
      flagOrbits, flagLightTravelTime, flagShow := false, true, false;
      flagIsolatedTrails, flagIsolatedOrbits := true, true;
      flagMoonScale, moonScale, flagMinorBodyScale, minorBodyScale := false, 1.0, false, 1.0;
      orbitColorStyle := OneColor;
      signals := [];
    }

    /** Replace the arena by one with the same links. */
    method SetArena(arena: seq<Body>)
      requires Valid() && SameLinks(catalogue.bodies, arena)
      modifies this`catalogue
      ensures catalogue == old(catalogue).(bodies := arena)
      ensures Valid()
    {
      ValidSameLinks(catalogue, arena);
      catalogue := catalogue.(bodies := arena);
    }

    /** loadPlanets(filePath): put the sections in dependency order, then
        create them one by one until one stops the program; the file fails
        when nothing is loaded afterwards. */
    method LoadFile(file: IniFile, sqrt: real -> real) returns (outcome: FileOutcome)
      requires Valid() && Orderable(file)
      modifies this`catalogue
      ensures (catalogue, outcome) == Loader.LoadFile(old(catalogue), file, sqrt)
      ensures Valid()
    {
      if file.Unreadable? {
        return LoadFailed;
      }
      var sections := file.sections;
      var ordered := OrderSections(sections);
      for i := 0 to |ordered|
        invariant Valid()
        invariant LoadSections(old(catalogue), sections, ordered, sqrt) == LoadSections(catalogue, sections, ordered[i..], sqrt)
      {
        var secname := ordered[i];
        var step := ProcessSection(catalogue, secname, Lookup(sections, secname), sqrt);
        assert ordered[i..][1..] == ordered[i + 1..];
        catalogue := step.0;
        if step.1.Halted? {
          return Exited(step.1.reason);
        }
      }
      if catalogue.planets == [] {
        return LoadFailed;
      }
      return Loaded;
    }

    /** After a failing minor file: drop the satellites of every loaded
        minor body, then empty `systemPlanets`. */
    method ClearAfterFailure()
      requires Valid()
      modifies this`catalogue
      ensures catalogue == Loader.ClearAfterFailure(old(catalogue))
      ensures Valid()
    {
      var arena := DropMinorSatellites(catalogue);
      catalogue := catalogue.(bodies := arena, planets := []);
    }

    /** The minor files in turn, cleaning up after each that fails, up to
        the first that loads or stops the program. */
    method LoadMinorFiles(minors: seq<IniFile>, sqrt: real -> real) returns (halt: Option<HaltReason>)
      requires Valid() && forall f :: f in minors ==> Orderable(f)
      modifies this`catalogue
      ensures (catalogue, halt) == TryMinorFiles(old(catalogue), minors, sqrt)
      ensures Valid()
    {
      for k := 0 to |minors|
        invariant Valid()
        invariant TryMinorFiles(old(catalogue), minors, sqrt) == TryMinorFiles(catalogue, minors[k..], sqrt)
      {
        assert minors[k] in minors;
        assert minors[k..][1..] == minors[k + 1..];
        var r := LoadFile(minors[k], sqrt);
        match r
        case Loaded =>
          return None;
        case Exited(h) =>
          return Some(h);
        case LoadFailed =>
          ClearAfterFailure();
      }
      return None;
    }

    /** The number of loaded bodies that cast shadows on others or receive
        them: those not orbiting the Sun, and those with satellites. */
    method CountShadowPlanets()
      requires Valid()
      modifies this`shadowPlanetCount
      ensures Valid()
      ensures shadowPlanetCount == ShadowCount(catalogue, |catalogue.planets|)
    {
      shadowPlanetCount := CountShadows(catalogue);
    }

    /** loadPlanets(): clear `minorBodies`, load the major file, then
        finish with the minor files. `major` is the major file when it was
        found; `minors` are the minor files found. */
    method LoadPlanets(major: Option<IniFile>, minors: seq<IniFile>, sqrt: real -> real) returns (outcome: DriverOutcome)
      requires Valid() && (major.Some? ==> Orderable(major.value)) && forall f :: f in minors ==> Orderable(f)
      modifies this`catalogue, this`shadowPlanetCount
      ensures (catalogue, shadowPlanetCount, outcome) ==
              Loader.LoadPlanets(old(catalogue), old(shadowPlanetCount), major, minors, sqrt)
      ensures Valid()
    {
      ClearMinorValid(catalogue);
      catalogue := catalogue.(minorBodies := []);
      if major.None? {
        return ReturnedEarly;
      }
      var first := LoadFile(major.value, sqrt);
      if first.Exited? {
        return Terminated(first.reason);
      }
      if first == LoadFailed {
        return ReturnedEarly;
      }
      outcome := LoadMinorPlanets(minors, sqrt);
    }

    /** The rest of loadPlanets() after the major file loaded: try the
        minor files in turn and, unless one stops the program, recount the
        shadow planets. */
    method LoadMinorPlanets(minors: seq<IniFile>, sqrt: real -> real) returns (outcome: DriverOutcome)
      requires Valid() && forall f :: f in minors ==> Orderable(f)
      modifies this`catalogue, this`shadowPlanetCount
      ensures (catalogue, shadowPlanetCount, outcome) == AfterMajor(old(catalogue), old(shadowPlanetCount), minors, sqrt)
      ensures Valid()
    {
      if minors == [] {
        return ReturnedEarly;
      }
      var halt := LoadMinorFiles(minors, sqrt);
      if halt.Some? {
        return Terminated(halt.value);
      }
      CountShadowPlanets();
      return Completed;
    }

    /** computeTransMatrices: each loaded body, in list order, gets its
        rotation computed for universal and dynamical time, both shifted
        back by its light time to `observerPos` when light travel time is
        on. `deltaT` gives ΔT in seconds for a day. */
    method ComputeTransMatrices(helio: (seq<real>, nat) -> Vec3, length: Vec3 -> real, dateJDE: real,
                                deltaT: real -> real, observerPos: Vec3)
      requires Valid()
      modifies this`catalogue
      ensures catalogue == old(catalogue).(bodies := TransPass(helio, length, old(catalogue.bodies), old(catalogue.planets),
                                                               UniversalDay(dateJDE, deltaT), dateJDE,
                                                               old(flagLightTravelTime), observerPos))
      ensures Valid()
    {
      var dateJD := dateJDE - deltaT(dateJDE) / 86400.0;
      var arena := TransAll(helio, length, catalogue.bodies, catalogue.planets, dateJD, dateJDE, flagLightTravelTime, observerPos);
      SetArena(arena);
    }

    /** computePositions: every loaded body computed for `dateJDE` (less
        its light time to the observer when light travel time is on, with
        the Sun's light-time shift recorded), then the rotation matrices
        for the observer's new position. */
    method ComputePositions(helio: (seq<real>, nat) -> Vec3, length: Vec3 -> real, observer: nat, dateJDE: real,
                            deltaT: real -> real)
      requires Valid() && observer < |catalogue.bodies|
      modifies this`catalogue, this`lightTimeSunPosition
      ensures var res := Positions.ComputePositions(helio, length, old(catalogue.bodies), old(catalogue.planets), observer,
                                                    dateJDE, old(flagLightTravelTime));
        lightTimeSunPosition == res.1 &&
        catalogue == old(catalogue).(bodies := TransPass(helio, length, res.0, old(catalogue.planets),
                                                         UniversalDay(dateJDE, deltaT), dateJDE,
                                                         old(flagLightTravelTime), helio(Times(res.0), observer)))
      ensures Valid()
    {
      var arena, sunShift := PositionPass(helio, length, catalogue.bodies, catalogue.planets, observer, dateJDE,
                                          flagLightTravelTime);
      SetArena(arena);
      lightTimeSunPosition := sunShift;
      ComputeTransMatrices(helio, length, dateJDE, deltaT, helio(Times(catalogue.bodies), observer));
    }

    /** removePlanet: look the body up by English name; when found, remove
        its orbit from the drawn orbits and the body from `systemPlanets`.
        Major bodies are accepted too. */
    method RemovePlanet(name: string) returns (ok: bool)
      requires Valid()
      modifies this`catalogue
      ensures (catalogue, ok) == Removal(old(catalogue), name)
      ensures Valid()
    {
      RemovalValid(catalogue, name);
      var candidate := SearchByEnglishName(catalogue.bodies, catalogue.planets, name);
      if candidate.None? {
        return false;
      }
      var h := candidate.value;
      var body := catalogue.bodies[h];
      if body.orbit.Some? {
        catalogue := catalogue.(orbits := RemoveOne(catalogue.orbits, body.orbit.value));
      }
      catalogue := catalogue.(planets := RemoveOne(catalogue.planets, h));
      return true;
    }

    /** getFlagHints: whether any loaded body shows its hint marker. */
    method GetFlagHints() returns (on: bool)
      requires Valid()
      ensures on == AnyShown(catalogue.bodies, catalogue.planets, Hints)
    {
      var bodies, planets := catalogue.bodies, catalogue.planets;
      for k := 0 to |planets|
        invariant forall j :: 0 <= j < k ==> !bodies[planets[j]].flagHints
      {
        if bodies[planets[k]].flagHints {
          return true;
        }
      }
      return false;
    }

    /** getFlagLabels: whether any loaded body shows its label. */
    method GetFlagLabels() returns (on: bool)
      requires Valid()
      ensures on == AnyShown(catalogue.bodies, catalogue.planets, Labels)
    {
      var bodies, planets := catalogue.bodies, catalogue.planets;
      for k := 0 to |planets|
        invariant forall j :: 0 <= j < k ==> !bodies[planets[j]].flagLabels
      {
        if bodies[planets[k]].flagLabels {
          return true;
        }
      }
      return false;
    }

    /** setFlagHints: when the query differs from `on`, set every loaded
        body's hint marker and signal the change. */
    method SetFlagHints(on: bool)
      requires Valid()
      modifies this`catalogue, this`signals
      ensures var (r, emitted) := SetShown(old(catalogue.bodies), old(catalogue.planets), Hints, on);
        catalogue == old(catalogue).(bodies := r) &&
        signals == old(signals) + (if emitted then [FlagHintsChanged(on)] else [])
      ensures Valid()
    {
      var current := GetFlagHints();
      if current != on {
        var arena := MarkAll(catalogue.bodies, catalogue.planets, Hints, on);
        SetArena(arena);
        signals := signals + [FlagHintsChanged(on)];
      }
    }

    /** setFlagLabels: when the query differs from `on`, set every loaded
        body's label flag and signal the change. */
    method SetFlagLabels(on: bool)
      requires Valid()
      modifies this`catalogue, this`signals
      ensures var (r, emitted) := SetShown(old(catalogue.bodies), old(catalogue.planets), Labels, on);
        catalogue == old(catalogue).(bodies := r) &&
        signals == old(signals) + (if emitted then [LabelsDisplayedChanged(on)] else [])
      ensures Valid()
    {
      var current := GetFlagLabels();
      if current != on {
        var arena := MarkAll(catalogue.bodies, catalogue.planets, Labels, on);
        SetArena(arena);
        signals := signals + [LabelsDisplayedChanged(on)];
      }
    }

    /** setFlagOrbits: record the flag, then set the orbit flag of every
        loaded body (all of them, only the selection, or the selection and
        its satellites, as OrbitShown says); signal when the flag changed. */
    method SetFlagOrbits(on: bool)
      requires Valid()
      modifies this`flagOrbits, this`catalogue, this`signals
      ensures flagOrbits == on
      ensures catalogue == old(catalogue).(bodies := OrbitsShown(old(catalogue.bodies), old(catalogue.planets), on,
                                                                 selected, catalogue.sun, flagIsolatedOrbits))
      ensures signals == old(signals) + (if old(flagOrbits) != on then [FlagOrbitsChanged(on)] else [])
      ensures Valid()
    {
      var previous := flagOrbits;
      flagOrbits := on;
      var arena := OrbitFlags(catalogue.bodies, catalogue.planets, on, selected, catalogue.sun, flagIsolatedOrbits);
      SetArena(arena);
      if previous != flagOrbits {
        signals := signals + [FlagOrbitsChanged(flagOrbits)];
      }
    }

    /** setFlagLightTravelTime: record and signal a change; a repeated
        value does nothing. */
    method SetFlagLightTravelTime(on: bool)
      requires Valid()
      modifies this`flagLightTravelTime, this`signals
      ensures Valid()
      ensures flagLightTravelTime == on
      ensures signals == old(signals) + (if old(flagLightTravelTime) != on then [FlagLightTravelTimeChanged(on)] else [])
    {
      if on != flagLightTravelTime {
        flagLightTravelTime := on;
        signals := signals + [FlagLightTravelTimeChanged(on)];
      }
    }

    /** setFlagPlanets: record and signal a change of the display flag. */
    method SetFlagPlanets(on: bool)
      requires Valid()
      modifies this`flagShow, this`signals
      ensures Valid()
      ensures flagShow == on
      ensures signals == old(signals) + (if old(flagShow) != on then [FlagPlanetsDisplayedChanged(on)] else [])
    {
      if on != flagShow {
        flagShow := on;
        signals := signals + [FlagPlanetsDisplayedChanged(on)];
      }
    }

    /** setFlagIsolatedTrails: record and signal a change. */
    method SetFlagIsolatedTrails(on: bool)
      requires Valid()
      modifies this`flagIsolatedTrails, this`signals
      ensures Valid()
      ensures flagIsolatedTrails == on
      ensures signals == old(signals) + (if old(flagIsolatedTrails) != on then [FlagIsolatedTrailsChanged(on)] else [])
    {
      if on != flagIsolatedTrails {
        flagIsolatedTrails := on;
        signals := signals + [FlagIsolatedTrailsChanged(on)];
      }
    }

    /** setFlagIsolatedOrbits: record and signal a change (the orbit flags
        of the bodies are left as they are until setFlagOrbits runs). */
    method SetFlagIsolatedOrbits(on: bool)
      requires Valid()
      modifies this`flagIsolatedOrbits, this`signals
      ensures Valid()
      ensures flagIsolatedOrbits == on
      ensures signals == old(signals) + (if old(flagIsolatedOrbits) != on then [FlagIsolatedOrbitsChanged(on)] else [])
    {
      if on != flagIsolatedOrbits {
        flagIsolatedOrbits := on;
        signals := signals + [FlagIsolatedOrbitsChanged(on)];
      }
    }

    /** setFlagMoonScale: on a change, draw the Moon at the Moon scale (on)
        or at scale 1 (off), record the flag and signal it. The Moon must
        exist when the flag changes. */
    method SetFlagMoonScale(on: bool)
      requires Valid() && (on != flagMoonScale ==> catalogue.moon.Some?)
      modifies this`catalogue, this`flagMoonScale, this`signals
      ensures flagMoonScale == on
      ensures old(flagMoonScale) != on ==>
        catalogue == old(catalogue).(bodies := ScaledAt(old(catalogue.bodies), old(catalogue.moon).value,
                                                        if on then moonScale else 1.0)) &&
        signals == old(signals) + [FlagMoonScaleChanged(on)]
      ensures old(flagMoonScale) == on ==> catalogue == old(catalogue) && signals == old(signals)
      ensures Valid()
    {
      if on != flagMoonScale {
        var m := catalogue.moon.value;
        if !on {
          SetArena(ScaledAt(catalogue.bodies, m, 1.0));
        } else {
          SetArena(ScaledAt(catalogue.bodies, m, moonScale));
        }
        flagMoonScale := on;
        signals := signals + [FlagMoonScaleChanged(on)];
      }
    }

    /** setMoonScale: on a change, record the factor, apply it to the Moon
        when Moon scaling is on, and signal it. The Moon must exist when
        the new factor is applied. */
    method SetMoonScale(f: real)
      requires Valid() && (f != moonScale && flagMoonScale ==> catalogue.moon.Some?)
      modifies this`moonScale, this`catalogue, this`signals
      ensures moonScale == f
      ensures old(moonScale) != f && flagMoonScale ==>
        catalogue == old(catalogue).(bodies := ScaledAt(old(catalogue.bodies), old(catalogue.moon).value, f))
      ensures !(old(moonScale) != f && flagMoonScale) ==> catalogue == old(catalogue)
      ensures signals == old(signals) + (if old(moonScale) != f then [MoonScaleChanged(f)] else [])
      ensures Valid()
    {
      if moonScale != f {
        moonScale := f;
        if flagMoonScale {
          SetArena(ScaledAt(catalogue.bodies, catalogue.moon.value, moonScale));
        }
        signals := signals + [MoonScaleChanged(f)];
      }
    }

    /** setFlagMinorBodyScale: on a change, record the flag, draw the minor
        bodies at the minor-body scale (on) or at scale 1 (off), and signal
        it. */
    method SetFlagMinorBodyScale(on: bool)
      requires Valid()
      modifies this`flagMinorBodyScale, this`catalogue, this`signals
      ensures flagMinorBodyScale == on
      ensures old(flagMinorBodyScale) != on ==>
        catalogue == old(catalogue).(bodies := Rescaled(old(catalogue.bodies), old(catalogue.planets), catalogue.moon,
                                                        if on then minorBodyScale else 1.0)) &&
        signals == old(signals) + [FlagMinorBodyScaleChanged(on)]
      ensures old(flagMinorBodyScale) == on ==> catalogue == old(catalogue) && signals == old(signals)
      ensures Valid()
    {
      if on != flagMinorBodyScale {
        flagMinorBodyScale := on;
        var newScale := if on then minorBodyScale else 1.0;
        var arena := RescaleAll(catalogue.bodies, catalogue.planets, catalogue.moon, newScale);
        SetArena(arena);
        signals := signals + [FlagMinorBodyScaleChanged(on)];
      }
    }

    /** setMinorBodyScale: on a change, record the factor, apply it to the
        minor bodies when minor-body scaling is on, and signal it. */
    method SetMinorBodyScale(f: real)
      requires Valid()
      modifies this`minorBodyScale, this`catalogue, this`signals
      ensures minorBodyScale == f
      ensures old(minorBodyScale) != f && flagMinorBodyScale ==>
        catalogue == old(catalogue).(bodies := Rescaled(old(catalogue.bodies), old(catalogue.planets), catalogue.moon, f))
      ensures !(old(minorBodyScale) != f && flagMinorBodyScale) ==> catalogue == old(catalogue)
      ensures signals == old(signals) + (if old(minorBodyScale) != f then [MinorBodyScaleChanged(f)] else [])
      ensures Valid()
    {
      if minorBodyScale != f {
        minorBodyScale := f;
        if flagMinorBodyScale {
          var arena := RescaleAll(catalogue.bodies, catalogue.planets, catalogue.moon, minorBodyScale);
          SetArena(arena);
        }
        signals := signals + [MinorBodyScaleChanged(f)];
      }
    }

    /** setOrbitColorStyle: select a style by name, ignoring letter case. */
    method SetOrbitColorStyle(style: string)
      requires Valid()
      modifies this`orbitColorStyle
      ensures Valid()
      ensures orbitColorStyle == ParseStyle(style)
    {
      orbitColorStyle := ParseStyle(style);
    }

    /** getOrbitColorStyle: the name of the current style. */
    function GetOrbitColorStyle(): (name: string)
      reads this
      ensures ParseStyle(name) == orbitColorStyle
    {
      StyleName(orbitColorStyle)
    }
  }
}
