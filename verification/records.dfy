/** A catalogue file as QSettings presents it: named groups ("sections"),
    each a set of keys with string, numeric or boolean values. */
module Records {

  /** The values of one section, by key and by the type the code reads them
      as. A key absent from the map of its type is absent from the file. */
  datatype Record = Record(strings: map<string, string>, reals: map<string, real>, flags: map<string, bool>)

  const EmptyRecord := Record(map[], map[], map[])

  /** `pd.value(secname + "/" + key, default).toString()` */
  function Str(r: Record, key: string, default: string): string {
    if key in r.strings then r.strings[key] else default
  }

  /** `pd.value(secname + "/" + key, default).toDouble()`; a read without a
      default converts the empty QVariant, giving 0.0. */
  function Real(r: Record, key: string, default: real): real {
    if key in r.reals then r.reals[key] else default
  }

  /** `pd.value(secname + "/" + key, default).toBool()` */
  function Flag(r: Record, key: string, default: bool): bool {
    if key in r.flags then r.flags[key] else default
  }

  datatype Section = Section(name: string, values: Record)

  /** A catalogue file: one that QSettings could not parse, or its sections
      in the order `childGroups()` lists them. */
  datatype IniFile = Unreadable | Ini(sections: seq<Section>)

  /** The values of the section called `secname` (the first such), or no
      values at all when there is none. */
  function Lookup(sections: seq<Section>, secname: string): Record {
    if sections == [] then EmptyRecord
    else if sections[0].name == secname then sections[0].values
    else Lookup(sections[1..], secname)
  }
}
