/** The registry that maps a section's `coord_func` name to the function
    computing the body's position, and for the eight major planets also to
    the function computing osculating elements. The analytic series
    themselves are not part of this model: a series is identified by the
    name of its routine. */
module CoordFuncs {
  import opened Wrappers

  /** The centre a series gives positions about. */
  datatype Frame = Heliocentric | ParentCentric

  /** A position function: one of the two orbit integrators, fed by the
      body's own orbit object, or an analytic series. */
  datatype PosFunc =
    | EllipticalOrbitPos
    | CometOrbitPos
    | Series(routine: string, frame: Frame)

  /** The `*_special` names and the series each selects. (The file
      spelling "calisto" selects the series for Callisto.) */
  const SeriesRoutines: map<string, PosFunc> := map[
    "sun_special" := Series("get_sun_helio_coordsv", Heliocentric),
    "mercury_special" := Series("get_mercury_helio_coordsv", Heliocentric),
    "venus_special" := Series("get_venus_helio_coordsv", Heliocentric),
    "earth_special" := Series("get_earth_helio_coordsv", Heliocentric),
    "lunar_special" := Series("get_lunar_parent_coordsv", ParentCentric),
    "mars_special" := Series("get_mars_helio_coordsv", Heliocentric),
    "phobos_special" := Series("get_phobos_parent_coordsv", ParentCentric),
    "deimos_special" := Series("get_deimos_parent_coordsv", ParentCentric),
    "jupiter_special" := Series("get_jupiter_helio_coordsv", Heliocentric),
    "europa_special" := Series("get_europa_parent_coordsv", ParentCentric),
    "calisto_special" := Series("get_callisto_parent_coordsv", ParentCentric),
    "io_special" := Series("get_io_parent_coordsv", ParentCentric),
    "ganymede_special" := Series("get_ganymede_parent_coordsv", ParentCentric),
    "saturn_special" := Series("get_saturn_helio_coordsv", Heliocentric),
    "mimas_special" := Series("get_mimas_parent_coordsv", ParentCentric),
    "enceladus_special" := Series("get_enceladus_parent_coordsv", ParentCentric),
    "tethys_special" := Series("get_tethys_parent_coordsv", ParentCentric),
    "dione_special" := Series("get_dione_parent_coordsv", ParentCentric),
    "rhea_special" := Series("get_rhea_parent_coordsv", ParentCentric),
    "titan_special" := Series("get_titan_parent_coordsv", ParentCentric),
    "iapetus_special" := Series("get_iapetus_parent_coordsv", ParentCentric),
    "hyperion_special" := Series("get_hyperion_parent_coordsv", ParentCentric),
    "uranus_special" := Series("get_uranus_helio_coordsv", Heliocentric),
    "miranda_special" := Series("get_miranda_parent_coordsv", ParentCentric),
    "ariel_special" := Series("get_ariel_parent_coordsv", ParentCentric),
    "umbriel_special" := Series("get_umbriel_parent_coordsv", ParentCentric),
    "titania_special" := Series("get_titania_parent_coordsv", ParentCentric),
    "oberon_special" := Series("get_oberon_parent_coordsv", ParentCentric),
    "neptune_special" := Series("get_neptune_helio_coordsv", Heliocentric),
    "pluto_special" := Series("get_pluto_helio_coordsv", Heliocentric)
  ]

  /** The eight names whose series also provide osculating elements. */
  const OsculatingRoutines: map<string, string> := map[
    "mercury_special" := "get_mercury_helio_osculating_coords",
    "venus_special" := "get_venus_helio_osculating_coords",
    "earth_special" := "get_earth_helio_osculating_coords",
    "mars_special" := "get_mars_helio_osculating_coords",
    "jupiter_special" := "get_jupiter_helio_osculating_coords",
    "saturn_special" := "get_saturn_helio_osculating_coords",
    "uranus_special" := "get_uranus_helio_osculating_coords",
    "neptune_special" := "get_neptune_helio_osculating_coords"
  ]

  /** The position function a `coord_func` name selects; None for a name
      the registry does not know, on which loading stops the program. */
  function PositionFunction(funcName: string): (p: Option<PosFunc>)
    ensures p == Some(EllipticalOrbitPos) <==> funcName == "ell_orbit"
    ensures p == Some(CometOrbitPos) <==> funcName == "comet_orbit"
  {
    if funcName == "ell_orbit" then Some(EllipticalOrbitPos)
    else if funcName == "comet_orbit" then Some(CometOrbitPos)
    else if funcName in SeriesRoutines then Some(SeriesRoutines[funcName])
    else None
  }

  /** The osculating-elements function a `coord_func` name selects: only
      the series of the eight major planets have one, and each of them is a
      heliocentric series. */
  function OsculatingFunction(funcName: string): (o: Option<string>)
    ensures o.Some? <==> funcName in {"mercury_special", "venus_special", "earth_special", "mars_special",
                                      "jupiter_special", "saturn_special", "uranus_special", "neptune_special"}
    ensures o.Some? ==> PositionFunction(funcName).Some? && PositionFunction(funcName).value.Series?
                        && PositionFunction(funcName).value.frame == Heliocentric
  {
    if funcName in OsculatingRoutines then Some(OsculatingRoutines[funcName]) else None
  }
}
