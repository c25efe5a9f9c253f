# Stellarium's Solar System module, modelled in Dafny

Stellarium's `SolarSystem` module owns every body of the Solar System that
the planetarium draws: the Sun, the planets, their moons, minor planets and
comets. This project models its core, `src/core/modules/SolarSystem.cpp`, and
proves what that code promises.

- **The catalogue loader.** `loadPlanets(filePath)` reads an ini file of
  sections. Stage 1 maps names to sections and to parents. Stage 2 orders
  the sections by dependency level. Stage 3 builds one body per section:
  - it resolves the parent among the bodies already loaded;
  - it picks the position function from `coord_func`;
  - it derives `ell_orbit` or `comet_orbit` elements;
  - it classifies minor planets and comets and clamps their slope
    parameters;
  - it links the body below its parent;
  - it sets the `sun`, `earth` and `moon` aliases.
- **The two-file driver.** `loadPlanets()` loads the major-bodies file, then
  tries the minor-bodies files in turn until one loads, and finally counts
  the bodies that can cast shadows.
- **Positions.** `computePositions` computes every body for a date, with or
  without light travel time, and records the Sun's light-time shift.
  `computeTransMatrices` computes the rotation of every body for universal
  and dynamical time.
- **The eclipse factor.** `getEclipseFactor` gives the least fraction of the
  Sun's disc that any occluding body leaves visible.
- **Queries and edits.** These are the look-ups by name and by direction,
  the name lists, and `removePlanet`.
- **Display settings.** These are the hint, label and orbit flags, the
  minor-body and Moon scaling, the orbit colour style, and the
  change-notifying setters.

The bodies live in an arena, `bodies: seq<Body>`. A handle is an index into
it, so parents and satellites are handles, not pointers. `systemPlanets` is
the list of loaded handles. The orbits live in a second arena, and
`orbits` lists the handles of the orbits that are drawn.

The pure parts are specification functions. These cover stage 1 and stage
2, the element derivations, the section processing, the query results and
the display effects. The operations that change the module's state in
place are methods of the class `SolarSystemModel.SolarSystem`. Each method
is proved to leave exactly the state the specification function
describes, and the properties of that function are proved as lemmas. The
loops over `systemPlanets` are methods of the `Passes` module and the
`Queries` module, and each is proved equal to its specification function.

## Model

| member | source | states |
|---|---|---|
| `Lists.RemoveOne` | src/core/modules/SolarSystem.cpp:2416-2418 | Removing an absent element leaves the list as it was. Removing a present one deletes exactly its first occurrence: the result is one shorter, its multiset loses one copy of the element, and the elements on either side of that occurrence are kept in order. |
| `Lists.FirstIndex` | src/core/modules/SolarSystem.cpp:2416-2418 | The position found holds the element, and the element does not occur before it. |
| `Lists.RemoveOneNoDup` | src/core/modules/SolarSystem.cpp:2416-2418 | In a duplicate-free list, removal keeps the list duplicate-free and takes the element out entirely. Every other element stays. |
| `Lists.RemoveOneMultiset` | src/core/modules/SolarSystem.cpp:1408-1413 | Removing an element takes exactly one copy of it out of the list's multiset, whether or not it is present. |
| `Text.TrimLeft` | src/core/modules/SolarSystem.cpp:583 | The result is a suffix of the input. Everything dropped is whitespace, the result does not start with whitespace, and its non-space characters are those of the input, in order. |
| `Text.TrimRight` | src/core/modules/SolarSystem.cpp:583 | The result is a prefix of the input. Everything dropped is whitespace, the result does not end with whitespace, and its non-space characters are those of the input, in order. |
| `Text.Collapse` | src/core/modules/SolarSystem.cpp:583 | The result keeps the input's non-space characters in order, is never longer than the input, and is empty only for empty input. Its only whitespace is single spaces, never two in a row. A run of leading whitespace becomes one space, and non-blank first and last characters are kept. |
| `Text.Simplified` | src/core/modules/SolarSystem.cpp:583 | A simplified name keeps the input's non-space characters in order and is empty exactly when the input is all whitespace. It has no whitespace at either end, and its inner whitespace is single spaces, never two in a row. |
| `Dependency.SecNameMap` | src/core/modules/SolarSystem.cpp:524-539 | Every section's name is a key of the name-to-section map. |
| `Dependency.SecNameMapKeys` | src/core/modules/SolarSystem.cpp:528-533 | The keys of the name-to-section map are exactly the names the sections declare. |
| `Dependency.SecNameMapLast` | src/core/modules/SolarSystem.cpp:528-533 | A name maps to the group of the last section that declares it. |
| `Dependency.ParentMapKeys` | src/core/modules/SolarSystem.cpp:528-539 | A name has a parent entry exactly when it is not empty and some section of that name declares a parent other than "none" or the empty name. A later section of the same name declaring "none" does not remove an earlier entry. |
| `Dependency.ParentMapLast` | src/core/modules/SolarSystem.cpp:528-539 | When the last section of a name declares a parent, that parent is the name's entry. |
| `Dependency.ParentMapEntries` | src/core/modules/SolarSystem.cpp:528-539 | No entry of the parent map has an empty name, and none points to "none" or to the empty name. |
| `Dependency.BuildMaps` | src/core/modules/SolarSystem.cpp:524-539 | The stage-1 loop builds exactly the name-to-section map and the name-to-parent map. |
| `Dependency.LevelStep` | src/core/modules/SolarSystem.cpp:542-559 | In an acyclic parent map, a section with a parent is exactly one level deeper than that parent. |
| `Dependency.LevelRoot` | src/core/modules/SolarSystem.cpp:542-559 | A section without a parent entry is at level 0. |
| `Dependency.DependencyLevel` | src/core/modules/SolarSystem.cpp:542-559 | The stage-2 walk up the parent chain returns the section's level, the length of its chain. |
| `Dependency.InsertMulti` | src/core/modules/SolarSystem.cpp:557-559 | Inserting into the level multimap adds exactly one entry and keeps every other. |
| `Dependency.InsertMultiSorted` | src/core/modules/SolarSystem.cpp:557-559 | Inserting keeps the multimap in non-decreasing level order. |
| `Dependency.LevelMapOrdered` | src/core/modules/SolarSystem.cpp:542-569 | The level multimap is in non-decreasing level order and is a permutation of one entry per section. |
| `Dependency.OrderSections` | src/core/modules/SolarSystem.cpp:524-569 | Stages 1 and 2 together yield the section names in the order of the sorted level multimap. |
| `Dependency.ParentSectionFirst` | src/core/modules/SolarSystem.cpp:528-569 | When section names are distinct and a named section declares as its parent the name of another section, both sections are listed with their own groups, and the parent comes before the child in the processing order. |
| `Elements.Quot` | src/core/modules/SolarSystem.cpp:634-648 | For a nonzero divisor, the quotient times the divisor gives back the dividend. |
| `Elements.Distances` | src/core/modules/SolarSystem.cpp:616-637 | A positive pericenter distance is used as given, and otherwise the semi-major axis is, both converted from file units. Unless e = 1, they satisfy q = a(1 - e). At e = 1 one of them is 0. |
| `Elements.Revolution` | src/core/modules/SolarSystem.cpp:638-654 | The mean motion and the period always make one full revolution: period times mean motion is 2π whenever the mean motion is nonzero. A given mean motion wins over a given period, which wins over Kepler's law. |
| `Elements.EllipticalFrom` | src/core/modules/SolarSystem.cpp:612-714 | An `ell_orbit` section is skipped exactly when it has neither a positive pericenter distance nor a semi-major axis. Otherwise loading stops exactly when it declares no parent. Otherwise the derived elements keep q = a(1 - e), one revolution per period, longOfPericenter = argOfPericenter + ascendingNode and meanLongitude = meanAnomaly + longOfPericenter. They keep the given eccentricity, the given q (or, without q, the given a) in AU, and the given mean motion, or else the given period. Without either, the mean motion is Kepler's. The epoch defaults to J2000, and inclination and ascending node are the given degrees in radians. The two longitudes are those `Elements.Longitudes` computes. |
| `Elements.Longitudes` | src/core/modules/SolarSystem.cpp:657-675 | The longitude of pericenter is the given argument of pericenter plus the node, or else the given longitude. The mean longitude is the given mean anomaly plus that longitude, or else the given mean longitude. All are in radians. |
| `Elements.EllipticalAngles` | src/core/modules/SolarSystem.cpp:655-675 | Derived `ell_orbit` elements carry the given argument of pericenter, or else the given longitude of pericenter. They carry the given mean anomaly, or else the given mean longitude. All are converted to radians. |
| `Elements.CometFrom` | src/core/modules/SolarSystem.cpp:716-820 | The outcome is decided exactly by the keys present. Without a pericenter distance or semi-major axis the section is skipped. With a distance but neither a pericenter time nor epoch and mean anomaly, it is skipped when a parent or motion is given. Without a parent it halts otherwise, and with a parent it yields elements exactly when both are given. Derived elements keep the given eccentricity, the given q (or, without q, the given a) and q = a(1 - e). A given mean motion is converted from degrees. Otherwise a given period yields one revolution per period. A Sun-orbiting body with neither gets Kepler's mean motion, and a satellite keeps the raw value. A given pericenter time is used as given. Inclination, ascending node and argument of pericenter are the given degrees in radians, and `orbit_good` defaults to 1000 days. |
| `Elements.CometMeanMotion` | src/core/modules/SolarSystem.cpp:744-768 | A given mean motion is converted to radians. Otherwise a given period yields one revolution per period. Otherwise a satellite keeps the raw value and a Sun-orbiting body gets Kepler's mean motion. |
| `Elements.PericenterTime` | src/core/modules/SolarSystem.cpp:769-782 | A given time of pericenter is kept. Otherwise it lies back from the epoch by the time the mean motion takes to sweep the mean anomaly. |
| `CoordFuncs.PositionFunction` | src/core/modules/SolarSystem.cpp:605-933 | `ell_orbit` and `comet_orbit`, and only those names, select the two orbit integrators. Every other recognised name selects an analytic series. |
| `CoordFuncs.OsculatingFunction` | src/core/modules/SolarSystem.cpp:822-927 | Exactly the eight major-planet series names get an osculating-elements function, and each of them also has a series position function. |
| `Bodies.KindOf` | src/core/modules/SolarSystem.cpp:946-1000 | A body is a minor planet exactly when its type is one of the six minor types and its name does not contain "Pluto". It is a comet exactly when its type is "comet". |
| `Bodies.ClampedSlope` | src/core/modules/SolarSystem.cpp:981-992 | A slope parameter inside [0, hi] is kept, and any other is replaced by the fallback. |
| `Bodies.MagnitudeOf` | src/core/modules/SolarSystem.cpp:981-1071 | An ordinary body keeps only its absolute magnitude. A minor planet or comet gets a slope exactly when its absolute magnitude is above -99. That slope lies in [0, 1], or in [0, 20] for a comet, and equals the section's slope whenever the section's slope lies in that range. |
| `Bodies.SemiMajorAxisOf` | src/core/modules/SolarSystem.cpp:993-1043 | A minor planet records its semi-major axis as given. A comet records one exactly when e < 1 and q > 0, and then the axis is positive with a(1 - e) = q. An ordinary body records none. |
| `Bodies.AxisOf` | src/core/modules/SolarSystem.cpp:1084-1107 | A nonzero pole RA or DE takes precedence over obliquity and ascending node, which are used only when both are zero. Angles are converted to radians. |
| `Bodies.RotationOf` | src/core/modules/SolarSystem.cpp:1084-1117 | The rotation period is the section's period in hours, falling back to the orbital period, over 24. Precession is per Julian century in radians. The epoch defaults to J2000. |
| `Bodies.RingsOf` | src/core/modules/SolarSystem.cpp:1120-1125 | A body has rings exactly when the section says so, with the sizes converted from km to AU. |
| `Bodies.CloseOrbitOf` | src/core/modules/SolarSystem.cpp:610-725 | An orbit closes only if the section allows it. An `ell_orbit` or `comet_orbit` with e ≥ 1 never closes. |
| `Bodies.NewBody` | src/core/modules/SolarSystem.cpp:935-1072 | The new body has the section's name, type, class, magnitude, position function, osculating function and radius in AU. It has no parent, satellite or orbit yet. |
| `Bodies.FindPos` | src/core/modules/SolarSystem.cpp:1322-1330 | The position found is the first one in `systemPlanets` whose body has that English name, and there is none exactly when no loaded body has it. |
| `Bodies.FindByEnglishName` | src/core/modules/SolarSystem.cpp:1322-1330 | The handle found is loaded and has that name, and there is none exactly when no loaded body has that name. |
| `Loader.ResolvedParent` | src/core/modules/SolarSystem.cpp:584-603 | A resolved parent is a loaded body whose English name is the declared parent. A section declaring "none" has no parent, and a declared parent that is not resolved is the name of no loaded body. |
| `Loader.OrbitOf` | src/core/modules/SolarSystem.cpp:612-820 | Only `ell_orbit` and `comet_orbit` derive an orbit, and a derived one is present. A skip never means a missing parent. Loading stops only for a missing parent. |
| `Loader.Attach` | src/core/modules/SolarSystem.cpp:1075-1127 | The new body is appended to the arena and to `systemPlanets`, linked below its parent as that parent's last satellite, and given the new orbit, if any, which is also added to `orbits`. Minor planets and comets are added to `minorBodies`, the aliases follow the section name, and no other body changes. |
| `Loader.AttachValid` | src/core/modules/SolarSystem.cpp:1075-1082 | Linking a body into the catalogue keeps the catalogue invariant: handles are in range, the lists have no duplicates, parents come earlier, and satellites point back to their parents. |
| `Loader.AttachExtends` | src/core/modules/SolarSystem.cpp:1075-1127 | Linking only appends: existing bodies keep everything but their satellite lists, which only grow at the end, and the arenas and lists only grow. |
| `Loader.ProcessSection` | src/core/modules/SolarSystem.cpp:577-1129 | Processing one section keeps the catalogue invariant and only extends it. A section that is not added changes nothing. |
| `Loader.LinkSection` | src/core/modules/SolarSystem.cpp:605-1129 | Once the parent is resolved, a section is never skipped for a missing parent. The catalogue invariant holds and the catalogue is only extended, and is unchanged unless the body is added. |
| `Loader.SectionOutcome` | src/core/modules/SolarSystem.cpp:605-1129 | Once the parent is resolved or declared "none", a section is added exactly when its `coord_func` is known and its orbit is derived. A skipped orbit skips the section for the same reason, and a halted orbit halts loading. |
| `Loader.ParentResolution` | src/core/modules/SolarSystem.cpp:584-603 | A section is skipped for its parent exactly when the parent is neither "none" nor loaded. An added body is the last loaded body, has the resolved parent (none for "none", otherwise a body of that name), and is the last of that parent's satellites. |
| `Loader.OrbitRegistry` | src/core/modules/SolarSystem.cpp:605-933 | An added body has the position function its `coord_func` selects and the osculating function only a major planet's series provides. `ell_orbit` and `comet_orbit` push exactly one orbit and give it to the body, and other names push none. |
| `Loader.UnknownNameHalts` | src/core/modules/SolarSystem.cpp:928-932 | An unrecognised `coord_func` name stops the program once the parent is resolved. |
| `Loader.Classification` | src/core/modules/SolarSystem.cpp:936-1082 | An added body has the simplified name from its section and the class its type and name call for. Exactly the minor planets and comets are appended to `minorBodies`, the magnitude follows the class, and the sections "sun", "earth" and "moon" set the aliases. |
| `Loader.LoadSections` | src/core/modules/SolarSystem.cpp:577-1129 | Stage 3 over the ordered sections keeps the catalogue invariant. |
| `Loader.LoadSectionsExtends` | src/core/modules/SolarSystem.cpp:577-1129 | Stage 3 only extends the catalogue it starts from. |
| `Loader.NothingLoadsWithoutRoots` | src/core/modules/SolarSystem.cpp:584-603 | With nothing loaded, sections that all name a parent are all skipped. Nothing changes and nothing stops the program. |
| `Loader.LoadFile` | src/core/modules/SolarSystem.cpp:480-1152 | An unreadable file fails and changes nothing. A load that succeeds leaves `systemPlanets` non-empty, and a readable file fails only when it leaves `systemPlanets` empty. The catalogue invariant is kept. |
| `Loader.ClearAfterFailure` | src/core/modules/SolarSystem.cpp:442-453 | After a failing minor file, every loaded minor body loses its satellites and `systemPlanets` is emptied entirely. The orbits, `minorBodies`, the aliases and every other body are unchanged, and the invariant holds. |
| `Loader.TryMinorFiles` | src/core/modules/SolarSystem.cpp:429-468 | Trying the minor files in turn keeps the catalogue invariant. |
| `Loader.FailedMinorFileEmptiesCatalogue` | src/core/modules/SolarSystem.cpp:442-468 | After a minor file fails, later files whose sections all name a parent can load nothing. The driver ends with nothing loaded and does not stop the program. |
| `Loader.ShadowCount` | src/core/modules/SolarSystem.cpp:471-477 | The shadow count never exceeds the number of bodies counted. |
| `Loader.AfterMajor` | src/core/modules/SolarSystem.cpp:421-477 | Without minor files the driver returns early and changes nothing. The shadow count is recounted over the loaded bodies exactly when the driver completes, and is otherwise kept. The invariant holds. |
| `Loader.LoadPlanets` | src/core/modules/SolarSystem.cpp:404-478 | `minorBodies` is cleared first. A missing major file returns early with nothing else changed. The shadow count is recounted exactly on completion, and the invariant holds. |
| `Positions.AllAtTimes` | src/core/modules/SolarSystem.cpp:1184-1191 | Without light time, every loaded body is computed for the given date and no other body changes. |
| `Positions.LightTimeOff` | src/core/modules/SolarSystem.cpp:1184-1191 | With light travel time off, every loaded body is at `dateJDE`, bodies not loaded are untouched, and the Sun's light-time shift is zero. |
| `Positions.CorrectedNotLater` | src/core/modules/SolarSystem.cpp:1177-1182 | In the light-time pass every loaded body is computed for a moment no later than `dateJDE`, and bodies not loaded are untouched. |
| `Positions.ObserverReset` | src/core/modules/SolarSystem.cpp:1165-1176 | The final light-time pass starts with the observer reset to `dateJDE` and every loaded body computed for `dateJDE`. |
| `Positions.TransDays` | src/core/modules/SolarSystem.cpp:1197-1216 | Each loaded body's universal-time and dynamical-time days differ by exactly ΔT, because both carry the same light-time correction. Without light time the dynamical day is `dateJDE`. Bodies not loaded are untouched. |
| `Positions.AllAtLinks` | src/core/modules/SolarSystem.cpp:1184-1191 | Computing positions changes no parent, satellite or orbit link. |
| `Positions.CorrectedLinks` | src/core/modules/SolarSystem.cpp:1177-1182 | The light-time pass changes no link. |
| `Positions.TransLinks` | src/core/modules/SolarSystem.cpp:1197-1216 | Computing rotations changes no link. |
| `Eclipse.NoRadius` | src/core/modules/SolarSystem.cpp:2366-2378 | A body of no radius leaves all of the Sun's light, at any distance. |
| `Eclipse.IlluminationBounds` | src/core/modules/SolarSystem.cpp:2364-2390 | The light one body leaves lies in [0, 1], given a partial-overlap formula that does. |
| `Eclipse.CoverAndTransit` | src/core/modules/SolarSystem.cpp:2366-2377 | A body covering the whole Sun leaves no light. A body inside the Sun's disc leaves a fraction strictly between 0 and 1, and the part it blocks times R² is r². |
| `Eclipse.EclipseFactor` | src/core/modules/SolarSystem.cpp:2329-2397 | The factor is at most 1, at most the light left by every loaded occluder other than the Sun and the observer's planet, and is either 1 or the light left by one of them. It is the minimum starting from full light. |
| `Queries.SearchByEnglishName` | src/core/modules/SolarSystem.cpp:1322-1330 | The result is the first loaded body with that English name, and there is none exactly when no loaded body has it. |
| `Queries.Search` | src/core/modules/SolarSystem.cpp:1421-1445 | Nothing is found exactly when no loaded body is closer than cosine 0.999. A body found is above that threshold and at least as close as every other, and is the first in list order at that closeness. |
| `Queries.ListAllObjects` | src/core/modules/SolarSystem.cpp:1647-1665 | One name per loaded body, in list order, English or translated as asked. |
| `Queries.NamesOfType` | src/core/modules/SolarSystem.cpp:1667-1687 | The list by type has at most one name per loaded body. |
| `Queries.NamesOfTypeMembers` | src/core/modules/SolarSystem.cpp:1667-1687 | A name is listed for a type exactly when some loaded body of that type has that name. |
| `Queries.ListAllObjectsByType` | src/core/modules/SolarSystem.cpp:1667-1687 | The loop lists exactly the names of the loaded bodies of that type, in list order. |
| `Queries.ObjectsListAll` | src/core/modules/SolarSystem.cpp:1405-1413 | For "all", the list is the English names less one occurrence each of "Sun", "Solar System Observer" and "Earth Observer". Every other name occurs as often as before. |
| `Queries.ObjectsListAllDistinct` | src/core/modules/SolarSystem.cpp:1405-1413 | With distinct English names, the "all" list holds exactly the names other than the three hidden ones. |
| `Queries.ObjectsListByType` | src/core/modules/SolarSystem.cpp:1414-1415 | Any other type string, compared with its case as given, lists exactly the English names of the loaded bodies of that type. |
| `Queries.GetObjectsList` | src/core/modules/SolarSystem.cpp:1402-1418 | `getObjectsList` made of the two list queries and three removals gives the list described above. |
| `Display.SetShownReaches` | src/core/modules/SolarSystem.cpp:1502-1540 | After setting hints or labels, the query answers the value set, or false when nothing is loaded. The change is signalled exactly when the query answered otherwise before. Only that marker changes. |
| `Display.SetShownTwice` | src/core/modules/SolarSystem.cpp:1502-1530 | With some body loaded, setting the same value again changes nothing and signals nothing. |
| `Display.OrbitsUnselected` | src/core/modules/SolarSystem.cpp:1542-1575 | Only orbit flags of loaded bodies change. Turning orbits off, or having nothing or the Sun selected, sets every loaded body's orbit flag to the value given. |
| `Display.OrbitsOfSelection` | src/core/modules/SolarSystem.cpp:1553-1570 | With orbits on and a body other than the Sun selected, a loaded body shows its orbit exactly when it is the selection or, unless orbits are isolated, a satellite of it. The selection's own orbit is shown. |
| `Display.IsolationNarrows` | src/core/modules/SolarSystem.cpp:1553-1570 | Isolating orbits only hides orbits: every orbit shown with isolation is shown without it. |
| `Display.RescaleSparesMajor` | src/core/modules/SolarSystem.cpp:2073-2112 | Rescaling changes exactly the loaded bodies that are neither planets, stars nor the Moon, and only their scale. Links are kept. |
| `Display.RescaleOverrides` | src/core/modules/SolarSystem.cpp:2073-2112 | A later rescale overrides an earlier one completely. |
| `Display.StyleRoundTrip` | src/core/modules/SolarSystem.cpp:2301-2327 | Reading a style back gives a name that selects the same style. A name selects the style named by its lower-case form, or one colour when no style has that name. |
| `Display.LowerFixed` | src/core/modules/SolarSystem.cpp:2303-2305 | Lower-casing leaves a name without capitals unchanged. |
| `Passes.ComputeAll` | src/core/modules/SolarSystem.cpp:1186-1189 | The loop computes every loaded body for the date, as the specification function does. |
| `Passes.CorrectAll` | src/core/modules/SolarSystem.cpp:1177-1181 | The light-time loop, reading each distance from the arena as it stands at that body's turn, gives the specified pass. |
| `Passes.ProbeObserver` | src/core/modules/SolarSystem.cpp:1165-1176 | The observer probe gives the observer's position, the Sun's shift and the reset arena, and changes no link. |
| `Passes.PositionPass` | src/core/modules/SolarSystem.cpp:1158-1191 | The position step as a whole gives the specified arena and Sun shift, and changes no link. |
| `Passes.TransAll` | src/core/modules/SolarSystem.cpp:1197-1216 | The rotation loop gives the specified arena and changes no link. |
| `Passes.DropMinorSatellites` | src/core/modules/SolarSystem.cpp:442-451 | The loop over loaded minor bodies clears their satellites exactly as specified. |
| `Passes.CountShadows` | src/core/modules/SolarSystem.cpp:471-477 | The counting loop gives the shadow count of all loaded bodies. |
| `Passes.MarkAll` | src/core/modules/SolarSystem.cpp:1502-1530 | The loop sets the marker on every loaded body as specified, and changes no link. |
| `Passes.OrbitFlags` | src/core/modules/SolarSystem.cpp:1542-1575 | The three-branch loop gives every loaded body the orbit flag specified, and changes no link. |
| `Passes.RescaleAll` | src/core/modules/SolarSystem.cpp:2073-2112 | The rescaling loop gives the specified arena and changes no link. |
| `Passes.ScaledAt` | src/core/modules/SolarSystem.cpp:2049-2070 | Rescaling the Moon changes its scale and nothing else. |
| `Passes.Removal` | src/core/modules/SolarSystem.cpp:2399-2421 | A body is removed exactly when a loaded body has that English name. Otherwise nothing changes. |
| `Passes.RemovalValid` | src/core/modules/SolarSystem.cpp:2399-2421 | Removal keeps the catalogue invariant. It leaves the arena (so the satellites and parent links), `minorBodies` and the aliases as they were. |
| `Passes.RemovalEffect` | src/core/modules/SolarSystem.cpp:2413-2418 | On success the body found, and no other, leaves `systemPlanets`. Its orbit is no longer drawn and every other orbit still is. |
| `SolarSystemModel.SolarSystem.constructor` | src/core/modules/SolarSystem.cpp:64-91 | A new module has an empty catalogue, no signals, and the constructor's initial settings. |
| `SolarSystemModel.SolarSystem.LoadFile` | src/core/modules/SolarSystem.cpp:480-1152 | Loading one file in place leaves the catalogue and outcome that `Loader.LoadFile` specifies. |
| `SolarSystemModel.SolarSystem.ClearAfterFailure` | src/core/modules/SolarSystem.cpp:442-453 | The in-place clean-up leaves the catalogue `Loader.ClearAfterFailure` specifies. |
| `SolarSystemModel.SolarSystem.LoadMinorFiles` | src/core/modules/SolarSystem.cpp:429-468 | The minor-file loop leaves the catalogue and halt reason `Loader.TryMinorFiles` specifies. |
| `SolarSystemModel.SolarSystem.CountShadowPlanets` | src/core/modules/SolarSystem.cpp:471-477 | `shadowPlanetCount` becomes the shadow count of the loaded bodies. |
| `SolarSystemModel.SolarSystem.LoadPlanets` | src/core/modules/SolarSystem.cpp:404-478 | The two-file load leaves the catalogue, shadow count and outcome `Loader.LoadPlanets` specifies. |
| `SolarSystemModel.SolarSystem.LoadMinorPlanets` | src/core/modules/SolarSystem.cpp:421-477 | After the major file, the state becomes what `Loader.AfterMajor` specifies. |
| `SolarSystemModel.SolarSystem.ComputeTransMatrices` | src/core/modules/SolarSystem.cpp:1197-1216 | The bodies get the rotations the specified pass computes for universal time `dateJDE` - ΔT/86400 and for `dateJDE`. |
| `SolarSystemModel.SolarSystem.ComputePositions` | src/core/modules/SolarSystem.cpp:1156-1193 | The bodies and `lightTimeSunPosition` become the specified positions and Sun shift, followed by the rotations for the observer's new position. |
| `SolarSystemModel.SolarSystem.RemovePlanet` | src/core/modules/SolarSystem.cpp:2399-2421 | The catalogue and result become those of `Passes.Removal`, and the invariant holds. |
| `SolarSystemModel.SolarSystem.GetFlagHints` | src/core/modules/SolarSystem.cpp:1512-1520 | True exactly when some loaded body shows its hint. |
| `SolarSystemModel.SolarSystem.GetFlagLabels` | src/core/modules/SolarSystem.cpp:1532-1540 | True exactly when some loaded body shows its label. |
| `SolarSystemModel.SolarSystem.SetFlagHints` | src/core/modules/SolarSystem.cpp:1502-1510 | The bodies and the signal log change as `Display.SetShown` specifies for hints. |
| `SolarSystemModel.SolarSystem.SetFlagLabels` | src/core/modules/SolarSystem.cpp:1522-1530 | The bodies and the signal log change as `Display.SetShown` specifies for labels. |
| `SolarSystemModel.SolarSystem.SetFlagOrbits` | src/core/modules/SolarSystem.cpp:1542-1575 | The flag is set, the loaded bodies get the specified orbit flags, and a change signal is logged exactly when the flag changed. |
| `SolarSystemModel.SolarSystem.SetFlagLightTravelTime` | src/core/modules/SolarSystem.cpp:1577-1584 | The flag is set, and a change signal is logged exactly when it changed. |
| `SolarSystemModel.SolarSystem.SetFlagPlanets` | src/core/modules/SolarSystem.cpp:1703-1710 | The display flag is set, and a change signal is logged exactly when it changed. |
| `SolarSystemModel.SolarSystem.SetFlagIsolatedTrails` | src/core/modules/SolarSystem.cpp:1817-1824 | The flag is set, and a change signal is logged exactly when it changed. |
| `SolarSystemModel.SolarSystem.SetFlagIsolatedOrbits` | src/core/modules/SolarSystem.cpp:1831-1838 | The flag is set, and a change signal is logged exactly when it changed. |
| `SolarSystemModel.SolarSystem.SetFlagMoonScale` | src/core/modules/SolarSystem.cpp:2049-2058 | The flag is set. Only on a change, the Moon is drawn at the Moon scale (on) or at 1 (off) and the change is signalled. Otherwise nothing changes. |
| `SolarSystemModel.SolarSystem.SetMoonScale` | src/core/modules/SolarSystem.cpp:2061-2070 | The scale is set. The Moon is rescaled only when the scale changed while Moon scaling is on. The signal is logged exactly when the scale changed. |
| `SolarSystemModel.SolarSystem.SetFlagMinorBodyScale` | src/core/modules/SolarSystem.cpp:2073-2091 | The flag is set. Only on a change, every loaded minor body is drawn at the minor-body scale (on) or at 1 (off) and the change is signalled. |
| `SolarSystemModel.SolarSystem.SetMinorBodyScale` | src/core/modules/SolarSystem.cpp:2094-2112 | The scale is set. The minor bodies are rescaled only when it changed while scaling is on. The signal is logged exactly when it changed. |
| `SolarSystemModel.SolarSystem.SetOrbitColorStyle` | src/core/modules/SolarSystem.cpp:2301-2309 | The style becomes the one the name selects, ignoring case, with one colour for an unknown name. |
| `SolarSystemModel.SolarSystem.GetOrbitColorStyle` | src/core/modules/SolarSystem.cpp:2311-2327 | The name returned selects the current style again. |

## Left out

- Rendering, configuration and I/O are not modelled: `init`, `draw` (including its in-place re-sort of `systemPlanets` by distance), `drawPointer`, texture loading, `updateSkyCulture`, `readNomenclature`, `reloadPlanets`, translation, and the colour getters and setters that forward to static `Planet` state.
- Reading the ini file is not modelled. A file is either unreadable or a list of sections whose values are typed maps with defaults. The order of the sections, which the source takes from the settings group list, is the list order.
- On a failure the source renames the file and writes its configuration. Neither is modelled; only the outcome is.
- The analytic ephemeris series are identified by the names of their routines. Body positions (`helio`), vector length, square root, ΔT and the eclipse's partial-overlap formula (acos and asin) are parameters of the model, not definitions.
- The model does not include the rotation of elements into the parent's equator (the `parent_rot` trigonometry) or the conversion of pole RA/DE to obliquity. It keeps only the rule that a nonzero pole RA or DE takes precedence.
- `nearLunarEclipse` is not modelled.
- Quot: the model takes floating-point division by zero as 0, where IEEE arithmetic gives an infinity or NaN. All the properties about elements are stated for nonzero divisors.
- Reals are unbounded exact reals. Floating-point rounding is not modelled.
- `toLower` and `simplified` are modelled on ASCII letters and ASCII whitespace only.
- The source sorts by dependency level with a `QMultiMap`, whose order for equal levels is not promised. The model inserts a new entry before the others of its level, and only the non-decreasing level order and the permutation are proved.
- Loader.LoadFile: requires an acyclic parent chain (`Orderable`), because stage 2 of the source loops forever on a cycle.
- The source's `exit(-1)` on an unknown `coord_func` and its dereference of a null parent for an orbit section without a parent both end the program. The model returns them as a halted outcome.
- `Q_ASSERT` is taken as in a release build, where it does nothing. So `removePlanet` accepts a major body.
- The `selected` object is a field of the class, since `setSelected` and the object manager are not modelled. Signals are an append-only log.
- SolarSystemModel.SolarSystem.GetOrbitColorStyle: the orbit colour style is a field of the module object, whereas the source keeps it in static `Planet` state. The initial style is taken to be one colour.
- SolarSystemModel.SolarSystem.SetFlagMoonScale: requires the Moon to be loaded whenever the flag changes, because the source dereferences the Moon pointer unchecked.
- SolarSystemModel.SolarSystem.SetMoonScale: requires the Moon to be loaded when it would be rescaled, for the same reason.
- Eclipse.EclipseFactor: requires the Sun to be loaded, because its radius is read unchecked.
- Loader.ShadowCount: states only the bound. The count itself is defined by the function, and `Passes.CountShadows` is proved to compute it.
- Loader.TryMinorFiles: states only the invariant. What happens after a failing file is stated by `Loader.FailedMinorFileEmptiesCatalogue`.
- Bodies keep their `type` string from the ini section, and the model compares that string wherever the source compares the `pType` enumeration (`getPlanetType`, `getPlanetTypeString`). This covers `Display.Rescalable`, `Queries.NamesOfType` and `Queries.ListAllObjectsByType`, and `Bodies.IsMinorType`, which stands for the test `pType >= isAsteroid`. The model assumes each type string names one `pType`, that only star, planet, moon, observer and artificial come before `isAsteroid`, and that an unknown type string sorts after them.
- Each operation on the catalogue is a method that computes on a local copy of the arena and stores the result in the object's single `catalogue` field. Pointer aliasing between bodies is represented by handles into that arena.
