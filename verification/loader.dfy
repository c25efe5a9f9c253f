/** Stage 3 of loading a catalogue file, one section at a time, and the
    loading of a whole file, stated as functions over the catalogue. The
    imperative loops that carry them out are methods of the SolarSystem
    class, proved equal to these functions. */
module Loader {
  import opened Wrappers
  import opened Records
  import opened Text
  import opened Lists
  import opened Elements
  import opened CoordFuncs
  import opened Bodies
  import opened Dependency

  /** What happened to one section. */
  datatype Status = Added | Skipped(why: SkipReason) | Halted(reason: HaltReason)

  /** The parent a section names (`parent`, "Sun" when absent; "none" for
      a body without a parent). */
  function ParentName(r: Record): string {
    Str(r, "parent", "Sun")
  }

  /** The loaded body a section's parent name resolves to: none for
      "none", else the first loaded body with that English name, if any. */
  function ResolvedParent(c: Catalogue, r: Record): (p: Option<nat>)
    requires HandlesIn(c.planets, |c.bodies|)
    ensures p.Some? ==> p.value in c.planets && c.bodies[p.value].englishName == ParentName(r)
    ensures ParentName(r) == "none" ==> p.None?
    ensures ParentName(r) != "none" && p.None? ==>
      forall j :: 0 <= j < |c.planets| ==> c.bodies[c.planets[j]].englishName != ParentName(r)
  {
    if ParentName(r) == "none" then None else FindByEnglishName(c.bodies, c.planets, ParentName(r))
  }

  /** The orbit object a section's `coord_func` calls for: one for
      `ell_orbit` and `comet_orbit` (unless the elements are incomplete or
      the missing parent is dereferenced), none for any other name. */
  function OrbitOf(funcName: string, r: Record, parent: Option<bool>, sqrt: real -> real): (d: Derivation<Option<Orbit>>)
    ensures funcName != "ell_orbit" && funcName != "comet_orbit" ==> d == Derived(None)
    ensures (funcName == "ell_orbit" || funcName == "comet_orbit") && d.Derived? ==> d.value.Some?
    ensures d.Skip? ==> d.why != ParentNotFound
    ensures d.Halt? ==> d.reason == NullParent && parent.None?
  {
    if funcName == "ell_orbit" then
      match EllipticalFrom(r, parent, sqrt)
      case Derived(x) => Derived(Some(EllipticalOrbit(x)))
      case Skip(w) => Skip(w)
      case Halt(h) => Halt(h)
    else if funcName == "comet_orbit" then
      match CometFrom(r, parent, sqrt)
      case Derived(x) => Derived(Some(CometOrbit(x)))
      case Skip(w) => Skip(w)
      case Halt(h) => Halt(h)
    else Derived(None)
  }

  /** The catalogue with the new body `b` linked in: appended to the body
      arena and to `systemPlanets`, added to its parent's satellites, its
      orbit pushed onto `orbits`, its name onto `minorBodies` for a minor
      planet or comet, and the `sun`/`earth`/`moon` alias set by section
      name. */
  function Attach(c: Catalogue, secname: string, b: Body, parent: Option<nat>, orbit: Option<Orbit>): (d: Catalogue)
    requires parent.Some? ==> parent.value < |c.bodies|
    ensures |d.bodies| == |c.bodies| + 1 && d.planets == c.planets + [|c.bodies|]
    ensures d.bodies[|c.bodies|] == b.(parent := parent, orbit := if orbit.Some? then Some(|c.orbitStore|) else None)
    ensures forall i :: 0 <= i < |c.bodies| && parent != Some(i) ==> d.bodies[i] == c.bodies[i]
    ensures parent.Some? ==>
      d.bodies[parent.value] == c.bodies[parent.value].(satellites := c.bodies[parent.value].satellites + [|c.bodies|])
    ensures orbit.Some? ==> d.orbitStore == c.orbitStore + [orbit.value] && d.orbits == c.orbits + [|c.orbitStore|]
    ensures orbit.None? ==> d.orbitStore == c.orbitStore && d.orbits == c.orbits
    ensures d.minorBodies == c.minorBodies + (if b.kind != OrdinaryBody then [b.englishName] else [])
    ensures d.sun == (if secname == "sun" then Some(|c.bodies|) else c.sun)
    ensures d.earth == (if secname == "earth" then Some(|c.bodies|) else c.earth)
    ensures d.moon == (if secname == "moon" then Some(|c.bodies|) else c.moon)
  {
    var id := |c.bodies|;
    var nb := b.(parent := parent, orbit := if orbit.Some? then Some(|c.orbitStore|) else None);
    Catalogue(AppendChild(c.bodies, nb, parent), c.planets + [id],
              c.orbitStore + (if orbit.Some? then [orbit.value] else []),
              c.orbits + (if orbit.Some? then [|c.orbitStore|] else []),
              c.minorBodies + (if b.kind != OrdinaryBody then [b.englishName] else []),
              if secname == "sun" then Some(id) else c.sun,
              if secname == "earth" then Some(id) else c.earth,
              if secname == "moon" then Some(id) else c.moon)
  }

  /** The arena with `nb` appended as a satellite of `parent`. */
  function AppendChild(bodies: seq<Body>, nb: Body, parent: Option<nat>): (r: seq<Body>)
    requires parent.Some? ==> parent.value < |bodies|
    ensures |r| == |bodies| + 1 && r[|bodies|] == nb
    ensures forall i :: 0 <= i < |bodies| ==> r[i].parent == bodies[i].parent && r[i].orbit == bodies[i].orbit
    ensures forall i :: 0 <= i < |bodies| && parent != Some(i) ==> r[i] == bodies[i]
    ensures parent.Some? ==>
      r[parent.value] == bodies[parent.value].(satellites := bodies[parent.value].satellites + [|bodies|])
  {
    var grown := bodies + [nb];
    if parent.Some? then
      grown[parent.value := bodies[parent.value].(satellites := bodies[parent.value].satellites + [|bodies|])]
    else grown
  }

  /** The invariant survives linking a new body in below a loaded parent. */
  lemma AttachValid(c: Catalogue, secname: string, b: Body, parent: Option<nat>, orbit: Option<Orbit>)
    requires Valid(c)
    requires parent.Some? ==> parent.value < |c.bodies|
    requires b.satellites == []
    ensures Valid(Attach(c, secname, b, parent, orbit))
  {
    var d := Attach(c, secname, b, parent, orbit);
    var id := |c.bodies|;
    forall i | 0 <= i < |d.bodies|
      ensures Linked(d, i)
    {
      if i < id {
        assert Linked(c, i);
        assert d.bodies[i].parent == c.bodies[i].parent && d.bodies[i].orbit == c.bodies[i].orbit;
      }
    }
    assert id !in c.planets;
    assert |c.orbitStore| !in c.orbits;
  }

  /** Linking a body in only adds to the catalogue. */
  lemma AttachExtends(c: Catalogue, secname: string, b: Body, parent: Option<nat>, orbit: Option<Orbit>)
    requires parent.Some? ==> parent.value < |c.bodies|
    ensures Extends(c, Attach(c, secname, b, parent, orbit))
  {
    var d := Attach(c, secname, b, parent, orbit);
    forall i | 0 <= i < |c.bodies|
      ensures d.bodies[i] == c.bodies[i].(satellites := d.bodies[i].satellites)
      ensures IsPrefix(c.bodies[i].satellites, d.bodies[i].satellites)
    {
      assert d.bodies[i].satellites[..|c.bodies[i].satellites|] == c.bodies[i].satellites;
    }
    assert d.planets[..|c.planets|] == c.planets;
    assert d.orbitStore[..|c.orbitStore|] == c.orbitStore;
    assert d.orbits[..|c.orbits|] == c.orbits;
    assert d.minorBodies[..|c.minorBodies|] == c.minorBodies;
  }

  /** One section of stage 3: resolve the parent, build the orbit the
      `coord_func` calls for, look up the position function, and link the
      new body in. A skipped or halting section leaves the catalogue as it
      was. */
  function ProcessSection(c: Catalogue, secname: string, r: Record, sqrt: real -> real): (res: (Catalogue, Status))
    requires Valid(c)
    ensures Valid(res.0) && Extends(c, res.0)
    ensures !res.1.Added? ==> res.0 == c
  {
    var parent := ResolvedParent(c, r);
    if ParentName(r) != "none" && parent.None? then (c, Skipped(ParentNotFound))
    else LinkSection(c, secname, r, parent, sqrt)
  }

  /** The rest of a section once its parent is resolved: build the orbit,
      look up the position function and link the new body in. */
  function LinkSection(c: Catalogue, secname: string, r: Record, parent: Option<nat>, sqrt: real -> real)
    : (res: (Catalogue, Status))
    requires Valid(c) && (parent.Some? ==> parent.value < |c.bodies|)
    ensures Valid(res.0) && Extends(c, res.0)
    ensures !res.1.Added? ==> res.0 == c
    ensures res.1 != Skipped(ParentNotFound)
  {
    var funcName := Str(r, "coord_func", "");
    var above := if parent.Some? then Some(c.bodies[parent.value].parent.Some?) else None;
    match OrbitOf(funcName, r, above, sqrt)
    case Skip(w) => (c, Skipped(w))
    case Halt(h) => (c, Halted(h))
    case Derived(orbit) =>
      match PositionFunction(funcName)
      case None => (c, Halted(UnknownCoordFunc(funcName)))
      case Some(pf) =>
        var b := NewBody(Simplified(Str(r, "name", "")), r, pf, funcName);
        AttachValid(c, secname, b, parent, orbit);
        AttachExtends(c, secname, b, parent, orbit);
        (Attach(c, secname, b, parent, orbit), Added)
  }

  /** What an added section links in: the body its record describes,
      below the resolved parent, with the orbit its `coord_func` builds. */
  lemma AddedSection(c: Catalogue, secname: string, r: Record, sqrt: real -> real)
    requires Valid(c)
    ensures var (d, st) := ProcessSection(c, secname, r, sqrt);
      var f := Str(r, "coord_func", "");
      var parent := ResolvedParent(c, r);
      var above := if parent.Some? then Some(c.bodies[parent.value].parent.Some?) else None;
      st.Added? ==>
        PositionFunction(f).Some? && OrbitOf(f, r, above, sqrt).Derived? &&
        d == Attach(c, secname, NewBody(Simplified(Str(r, "name", "")), r, PositionFunction(f).value, f),
                    parent, OrbitOf(f, r, above, sqrt).value)
  {
  }

  /** Parent resolution: a section whose parent is neither "none" nor
      loaded is skipped; an added body becomes the last loaded body, with
      the resolved parent, and is the last of that parent's satellites. */
  lemma ParentResolution(c: Catalogue, secname: string, r: Record, sqrt: real -> real)
    requires Valid(c)
    ensures var (d, st) := ProcessSection(c, secname, r, sqrt);
      (st == Skipped(ParentNotFound) <==> ParentName(r) != "none" && ResolvedParent(c, r).None?)
    ensures var (d, st) := ProcessSection(c, secname, r, sqrt);
      st.Added? ==>
        |d.bodies| == |c.bodies| + 1 && d.planets == c.planets + [|c.bodies|] &&
        d.bodies[|c.bodies|].parent == ResolvedParent(c, r) &&
        (ParentName(r) == "none" ==> d.bodies[|c.bodies|].parent.None?) &&
        (ParentName(r) != "none" ==> c.bodies[d.bodies[|c.bodies|].parent.value].englishName == ParentName(r)) &&
        (d.bodies[|c.bodies|].parent.Some? ==>
           var p := d.bodies[|c.bodies|].parent.value;
           d.bodies[p].satellites == c.bodies[p].satellites + [|c.bodies|])
  {
    AddedSection(c, secname, r, sqrt);
  }

  /** The coord_func registry as loading uses it: an added body has the
      position function its name selects and the osculating function only
      a major planet's series has; `ell_orbit` and `comet_orbit` push
      exactly one orbit, other names none. */
  lemma OrbitRegistry(c: Catalogue, secname: string, r: Record, sqrt: real -> real)
    requires Valid(c)
    ensures var (d, st) := ProcessSection(c, secname, r, sqrt);
      var f := Str(r, "coord_func", "");
      st.Added? ==>
        PositionFunction(f) == Some(d.bodies[|c.bodies|].posFunc) &&
        d.bodies[|c.bodies|].osculating == OsculatingFunction(f) &&
        ((f == "ell_orbit" || f == "comet_orbit") ==>
           |d.orbitStore| == |c.orbitStore| + 1 && d.orbits == c.orbits + [|c.orbitStore|] &&
           d.bodies[|c.bodies|].orbit == Some(|c.orbitStore|)) &&
        (!(f == "ell_orbit" || f == "comet_orbit") ==>
           d.orbitStore == c.orbitStore && d.orbits == c.orbits && d.bodies[|c.bodies|].orbit.None?)
  {
    AddedSection(c, secname, r, sqrt);
  }

  /** An unknown `coord_func` name stops the program once the parent is
      resolved. */
  lemma UnknownNameHalts(c: Catalogue, secname: string, r: Record, sqrt: real -> real)
    requires Valid(c)
    ensures var f := Str(r, "coord_func", "");
      PositionFunction(f).None? && !(ParentName(r) != "none" && ResolvedParent(c, r).None?) ==>
        ProcessSection(c, secname, r, sqrt).1 == Halted(UnknownCoordFunc(f))
  {
  }

  /** When a section is added: once its parent is "none" or resolves, it
      is added exactly when its `coord_func` names a position function and
      its orbit (if it needs one) is derived; an incomplete orbit skips it
      for that reason, and a missing parent that the orbit reads stops the
      program. */
  lemma SectionOutcome(c: Catalogue, secname: string, r: Record, sqrt: real -> real)
    requires Valid(c)
    ensures var st := ProcessSection(c, secname, r, sqrt).1;
      var f := Str(r, "coord_func", "");
      var parent := ResolvedParent(c, r);
      var above := if parent.Some? then Some(c.bodies[parent.value].parent.Some?) else None;
      (ParentName(r) == "none" || parent.Some?) ==>
        (st == Added <==> PositionFunction(f).Some? && OrbitOf(f, r, above, sqrt).Derived?) &&
        (OrbitOf(f, r, above, sqrt).Skip? ==> st == Skipped(OrbitOf(f, r, above, sqrt).why)) &&
        (OrbitOf(f, r, above, sqrt).Halt? ==> st == Halted(NullParent))
  {
  }

  /** Classification: an added body has the class its type and name call
      for, minor planets and comets are listed in `minorBodies`, and the
      sections "sun", "earth" and "moon" set the aliases. */
  lemma Classification(c: Catalogue, secname: string, r: Record, sqrt: real -> real)
    requires Valid(c)
    ensures var (d, st) := ProcessSection(c, secname, r, sqrt);
      var name := Simplified(Str(r, "name", ""));
      st.Added? ==>
        d.bodies[|c.bodies|].englishName == name &&
        d.bodies[|c.bodies|].kind == KindOf(Str(r, "type", ""), name) &&
        d.minorBodies == c.minorBodies + (if d.bodies[|c.bodies|].kind != OrdinaryBody then [name] else []) &&
        d.bodies[|c.bodies|].magnitude == MagnitudeOf(d.bodies[|c.bodies|].kind, r) &&
        d.sun == (if secname == "sun" then Some(|c.bodies|) else c.sun) &&
        d.earth == (if secname == "earth" then Some(|c.bodies|) else c.earth) &&
        d.moon == (if secname == "moon" then Some(|c.bodies|) else c.moon)
  {
    AddedSection(c, secname, r, sqrt);
  }

  // ------------------------------------------------------------- Whole files

  /** `a` is a prefix of `b`. */
  predicate IsPrefix<T(==)>(a: seq<T>, b: seq<T>) {
    |a| <= |b| && b[..|a|] == a
  }

  /** `d` is `c` with bodies, orbits and names added: every list of `c`
      is a prefix of its counterpart in `d`, and every body of `c` is
      unchanged except that it may have gained satellites. */
  ghost predicate Extends(c: Catalogue, d: Catalogue) {
    |c.bodies| <= |d.bodies| &&
    (forall i :: 0 <= i < |c.bodies| ==>
       d.bodies[i] == c.bodies[i].(satellites := d.bodies[i].satellites) &&
       IsPrefix(c.bodies[i].satellites, d.bodies[i].satellites)) &&
    IsPrefix(c.planets, d.planets) && IsPrefix(c.orbitStore, d.orbitStore) &&
    IsPrefix(c.orbits, d.orbits) && IsPrefix(c.minorBodies, d.minorBodies)
  }

  lemma ExtendsTransitive(a: Catalogue, b: Catalogue, c: Catalogue)
    requires Extends(a, b) && Extends(b, c)
    ensures Extends(a, c)
  {
    forall i | 0 <= i < |a.bodies|
      ensures c.bodies[i] == a.bodies[i].(satellites := c.bodies[i].satellites)
      ensures IsPrefix(a.bodies[i].satellites, c.bodies[i].satellites)
    {
      assert c.bodies[i].satellites[..|b.bodies[i].satellites|] == b.bodies[i].satellites;
    }
    assert c.planets[..|b.planets|][..|a.planets|] == c.planets[..|a.planets|];
    assert c.orbitStore[..|b.orbitStore|][..|a.orbitStore|] == c.orbitStore[..|a.orbitStore|];
    assert c.orbits[..|b.orbits|][..|a.orbits|] == c.orbits[..|a.orbits|];
    assert c.minorBodies[..|b.minorBodies|][..|a.minorBodies|] == c.minorBodies[..|a.minorBodies|];
  }

  /** Stage 3 over the ordered section names: each section in turn, until
      one stops the program. */
  function LoadSections(c: Catalogue, sections: seq<Section>, ordered: seq<string>, sqrt: real -> real)
    : (res: (Catalogue, Option<HaltReason>))
    requires Valid(c)
    ensures Valid(res.0)
    decreases |ordered|
  {
    if ordered == [] then (c, None)
    else
      var step := ProcessSection(c, ordered[0], Lookup(sections, ordered[0]), sqrt);
      if step.1.Halted? then (step.0, Some(step.1.reason))
      else LoadSections(step.0, sections, ordered[1..], sqrt)
  }

  /** Loading a file keeps everything loaded before it: bodies already
      loaded stay loaded, in the same order, and stay as they were apart
      from gaining satellites. */
  lemma {:induction false} LoadSectionsExtends(c: Catalogue, sections: seq<Section>, ordered: seq<string>, sqrt: real -> real)
    requires Valid(c)
    ensures Extends(c, LoadSections(c, sections, ordered, sqrt).0)
    decreases |ordered|
  {
    if ordered == [] {
      assert c.planets[..|c.planets|] == c.planets;
      assert c.orbitStore[..|c.orbitStore|] == c.orbitStore;
      assert c.orbits[..|c.orbits|] == c.orbits;
      assert c.minorBodies[..|c.minorBodies|] == c.minorBodies;
      forall i | 0 <= i < |c.bodies|
        ensures IsPrefix(c.bodies[i].satellites, c.bodies[i].satellites)
      {
        assert c.bodies[i].satellites[..|c.bodies[i].satellites|] == c.bodies[i].satellites;
      }
    } else {
      var step := ProcessSection(c, ordered[0], Lookup(sections, ordered[0]), sqrt);
      if !step.1.Halted? {
        LoadSectionsExtends(step.0, sections, ordered[1..], sqrt);
        ExtendsTransitive(c, step.0, LoadSections(c, sections, ordered, sqrt).0);
      }
    }
  }

  /** With nothing loaded, a run of sections that all name a parent adds
      nothing: no parent can be found. */
  lemma {:induction false} NothingLoadsWithoutRoots(c: Catalogue, sections: seq<Section>, ordered: seq<string>, sqrt: real -> real)
    requires Valid(c) && c.planets == []
    requires forall k :: 0 <= k < |ordered| ==> ParentName(Lookup(sections, ordered[k])) != "none"
    ensures LoadSections(c, sections, ordered, sqrt) == (c, None)
    decreases |ordered|
  {
    if ordered != [] {
      NothingLoadsWithoutRoots(c, sections, ordered[1..], sqrt);
    }
  }

  /** A section that is not in the file reads as an empty section, whose
      parent is the default "Sun"; so when no section says "none", no
      lookup does. */
  lemma {:induction false} LookupNamesParent(sections: seq<Section>, name: string)
    requires forall s :: s in sections ==> ParentName(s.values) != "none"
    ensures ParentName(Lookup(sections, name)) != "none"
  {
    if sections != [] && sections[0].name != name {
      LookupNamesParent(sections[1..], name);
    }
  }

  /** How loading one file ended. */
  datatype FileOutcome = Loaded | LoadFailed | Exited(reason: HaltReason)

  /** A file whose sections can be put in dependency order (a readable
      file with a cyclic parent chain would never get past stage 2). */
  ghost predicate Orderable(file: IniFile) {
    file.Ini? ==> Acyclic(ParentMap(file.sections))
  }

  /** loadPlanets(filePath): an unparsable file fails; otherwise stages 1
      to 3 run, and the file fails when `systemPlanets` is still empty. */
  function LoadFile(c: Catalogue, file: IniFile, sqrt: real -> real): (res: (Catalogue, FileOutcome))
    requires Valid(c) && Orderable(file)
    ensures Valid(res.0)
    ensures file.Unreadable? ==> res == (c, LoadFailed)
    ensures res.1 == Loaded ==> res.0.planets != []
    ensures res.1 == LoadFailed ==> file.Unreadable? || res.0.planets == []
  {
    match file
    case Unreadable => (c, LoadFailed)
    case Ini(sections) =>
      var run := LoadSections(c, sections, SectionsOf(OrderedEntries(sections)), sqrt);
      if run.1.Some? then (run.0, Exited(run.1.value))
      else if run.0.planets == [] then (run.0, LoadFailed)
      else (run.0, Loaded)
  }

  /** What the driver does after a minor file fails: the satellites of
      every loaded minor body are dropped and `systemPlanets` is emptied
      entirely, major bodies included. `orbits`, `minorBodies` and the
      aliases are left as they are. */
  function ClearAfterFailure(c: Catalogue): (d: Catalogue)
    requires Valid(c)
    ensures Valid(d) && d.planets == []
    ensures d.orbitStore == c.orbitStore && d.orbits == c.orbits && d.minorBodies == c.minorBodies
    ensures d.sun == c.sun && d.earth == c.earth && d.moon == c.moon
    ensures |d.bodies| == |c.bodies|
    ensures forall i :: 0 <= i < |c.bodies| ==>
      d.bodies[i] == if i in c.planets && IsMinorType(c.bodies[i].typeName)
                     then c.bodies[i].(satellites := []) else c.bodies[i]
  {
    var bodies := seq(|c.bodies|, i requires 0 <= i < |c.bodies| =>
                        if i in c.planets && IsMinorType(c.bodies[i].typeName)
                        then c.bodies[i].(satellites := []) else c.bodies[i]);
    var d := c.(bodies := bodies, planets := []);
    forall i | 0 <= i < |d.bodies|
      ensures Linked(d, i)
    {
      assert Linked(c, i);
      forall s | s in d.bodies[i].satellites
        ensures s < |d.bodies| && d.bodies[s].parent == Some(i)
      {
        assert s in c.bodies[i].satellites;
      }
    }
    d
  }

  /** Forgetting the minor bodies keeps the catalogue invariant. */
  lemma ClearMinorValid(c: Catalogue)
    requires Valid(c)
    ensures Valid(c.(minorBodies := []))
  {
    assert forall i :: 0 <= i < |c.bodies| ==> Linked(c, i) ==> Linked(c.(minorBodies := []), i);
  }

  /** The minor files in turn, up to the first that loads. */
  function TryMinorFiles(c: Catalogue, files: seq<IniFile>, sqrt: real -> real): (res: (Catalogue, Option<HaltReason>))
    requires Valid(c) && forall f :: f in files ==> Orderable(f)
    ensures Valid(res.0)
    decreases |files|
  {
    if files == [] then (c, None)
    else
      var run := LoadFile(c, files[0], sqrt);
      match run.1
      case Loaded => (run.0, None)
      case Exited(h) => (run.0, Some(h))
      case LoadFailed => TryMinorFiles(ClearAfterFailure(run.0), files[1..], sqrt)
  }

  /** Once a minor file has failed, nothing is left loaded, and no later
      minor file whose sections all name a parent can load anything: the
      retries fail in turn and the catalogue ends empty. */
  lemma {:induction false} FailedMinorFileEmptiesCatalogue(c: Catalogue, files: seq<IniFile>, sqrt: real -> real)
    requires Valid(c) && forall f :: f in files ==> Orderable(f)
    requires files != [] && LoadFile(c, files[0], sqrt).1 == LoadFailed
    requires forall k, s :: 1 <= k < |files| && files[k].Ini? && s in files[k].sections ==> ParentName(s.values) != "none"
    ensures TryMinorFiles(c, files, sqrt).0.planets == [] && TryMinorFiles(c, files, sqrt).1.None?
    decreases |files|
  {
    var d := ClearAfterFailure(LoadFile(c, files[0], sqrt).0);
    if |files| > 1 {
      var f := files[1];
      assert f in files;
      RootlessFileFails(d, f, sqrt);
      FailedMinorFileEmptiesCatalogue(d, files[1..], sqrt);
      assert TryMinorFiles(c, files, sqrt) == TryMinorFiles(d, files[1..], sqrt);
    }
  }

  /** With nothing loaded, a file none of whose sections says "none" for
      its parent loads nothing and fails. */
  lemma RootlessFileFails(c: Catalogue, f: IniFile, sqrt: real -> real)
    requires Valid(c) && c.planets == [] && Orderable(f)
    requires f.Ini? ==> forall s :: s in f.sections ==> ParentName(s.values) != "none"
    ensures LoadFile(c, f, sqrt).1 == LoadFailed
  {
    if f.Ini? {
      var ordered := SectionsOf(OrderedEntries(f.sections));
      forall k | 0 <= k < |ordered|
        ensures ParentName(Lookup(f.sections, ordered[k])) != "none"
      {
        LookupNamesParent(f.sections, ordered[k]);
      }
      NothingLoadsWithoutRoots(c, f.sections, ordered, sqrt);
    }
  }

  /** Whether body `h` counts towards `shadowPlanetCount`: its parent is not
      the Sun, or it has satellites. (The Sun itself, whose parent is none,
      counts.) */
  predicate CountsForShadows(c: Catalogue, h: nat)
    requires h < |c.bodies|
  {
    c.bodies[h].parent != c.sun || c.bodies[h].satellites != []
  }

  /** The number of loaded bodies among the first `n` of `systemPlanets`
      that count towards `shadowPlanetCount`. */
  function ShadowCount(c: Catalogue, n: nat): (k: nat)
    requires HandlesIn(c.planets, |c.bodies|) && n <= |c.planets|
    ensures k <= n
  {
    if n == 0 then 0
    else ShadowCount(c, n - 1) + (if CountsForShadows(c, c.planets[n - 1]) then 1 else 0)
  }

  /** How the two-file load ended. */
  datatype DriverOutcome = Completed | ReturnedEarly | Terminated(reason: HaltReason)

  /** The rest of loadPlanets() once the major file has loaded: an empty
      list of minor files returns early; otherwise the minor files are
      tried in turn and, unless one stops the program, `shadowPlanetCount`
      is recounted. */
  function AfterMajor(c: Catalogue, shadow: nat, minors: seq<IniFile>, sqrt: real -> real)
    : (res: (Catalogue, nat, DriverOutcome))
    requires Valid(c) && forall f :: f in minors ==> Orderable(f)
    ensures Valid(res.0)
    ensures res.2 != Completed ==> res.1 == shadow
    ensures res.2 == Completed ==> res.1 == ShadowCount(res.0, |res.0.planets|)
    ensures minors == [] ==> res == (c, shadow, ReturnedEarly)
  {
    if minors == [] then (c, shadow, ReturnedEarly)
    else
      var rest := TryMinorFiles(c, minors, sqrt);
      if rest.1.Some? then (rest.0, shadow, Terminated(rest.1.value))
      else (rest.0, ShadowCount(rest.0, |rest.0.planets|), Completed)
  }

  /** loadPlanets(): clear `minorBodies`; load the major file (found or
      not); then the minor files found, in turn, up to the first that loads;
      finally recount `shadowPlanetCount`. A missing or failing major file
      or an empty list of minor files returns early, leaving the count as
      it was. */
  function LoadPlanets(c: Catalogue, shadow: nat, major: Option<IniFile>, minors: seq<IniFile>, sqrt: real -> real)
    : (res: (Catalogue, nat, DriverOutcome))
    requires Valid(c) && (major.Some? ==> Orderable(major.value)) && forall f :: f in minors ==> Orderable(f)
    ensures Valid(res.0)
    ensures res.2 != Completed ==> res.1 == shadow
    ensures res.2 == Completed ==> res.1 == ShadowCount(res.0, |res.0.planets|)
    ensures major.None? ==> res == (c.(minorBodies := []), shadow, ReturnedEarly)
  {
    var c0 := c.(minorBodies := []);
    ClearMinorValid(c);
    if major.None? then (c0, shadow, ReturnedEarly)
    else
      var first := LoadFile(c0, major.value, sqrt);
      match first.1
      case Exited(h) => (first.0, shadow, Terminated(h))
      case LoadFailed => (first.0, shadow, ReturnedEarly)
      case Loaded => AfterMajor(first.0, shadow, minors, sqrt)
  }
}
