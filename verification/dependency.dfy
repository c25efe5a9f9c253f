/** Stages 1 and 2 of loading a catalogue file: which section to read
    first so that every body's parent already exists when the body is made.

    Stage 1 maps each body name to its section and to its declared parent;
    stage 2 gives each body a dependency level (the length of its parent
    chain) and lists the sections by ascending level, the way a QMultiMap
    keyed by level iterates. */
module Dependency {
  import opened Records

  /** The english name a section declares (`name`, empty when absent). */
  function NameOf(s: Section): string {
    Str(s.values, "name", "")
  }

  /** The parent a section declares (`parent`, "Sun" when absent). */
  function DeclaredParent(s: Section): string {
    Str(s.values, "parent", "Sun")
  }

  // ---------------------------------------------------------------- Stage 1

  /** name -> section: every section's name, a later section winning. */
  function SecNameMap(sections: seq<Section>): (m: map<string, string>)
    ensures forall s :: s in sections ==> NameOf(s) in m
  {
    if sections == [] then map[]
    else
      var last := sections[|sections| - 1];
      var init := sections[..|sections| - 1];
      assert forall s :: s in sections ==> s in init || s == last;
      SecNameMap(init)[NameOf(last) := last.name]
  }

  /** The section names a parent: anything but "none" or the empty name. */
  predicate DeclaresParent(s: Section) {
    DeclaredParent(s) != "none" && DeclaredParent(s) != ""
  }

  /** name -> parent name, for named sections whose parent is neither
      "none" nor empty, a later section winning. */
  function ParentMap(sections: seq<Section>): (m: map<string, string>)
  {
    if sections == [] then map[]
    else
      var last := sections[|sections| - 1];
      var pm := ParentMap(sections[..|sections| - 1]);
      if DeclaresParent(last) && NameOf(last) != "" then pm[NameOf(last) := DeclaredParent(last)] else pm
  }

  /** No entry of the parent map is unnamed, or points at "none" or at the
      empty name: those sections declare no parent for stage 2. */
  lemma {:induction false} ParentMapEntries(sections: seq<Section>)
    ensures forall n :: n in ParentMap(sections) ==>
      n != "" && ParentMap(sections)[n] != "" && ParentMap(sections)[n] != "none"
  {
    if sections != [] {
      ParentMapEntries(sections[..|sections| - 1]);
    }
  }

  /** Section `i` is the last one with its name: the one whose values the
      maps keep. */
  predicate LastNamed(sections: seq<Section>, i: nat) {
    i < |sections| && forall j :: i < j < |sections| ==> NameOf(sections[j]) != NameOf(sections[i])
  }

  /** The name-to-section map has a key exactly for each name some section
      declares. */
  lemma {:induction false} SecNameMapKeys(sections: seq<Section>, n: string)
    ensures n in SecNameMap(sections) <==> exists i :: 0 <= i < |sections| && NameOf(sections[i]) == n
  {
    if sections != [] {
      var init := sections[..|sections| - 1];
      SecNameMapKeys(init, n);
      if exists i :: 0 <= i < |init| && NameOf(init[i]) == n {
        var i :| 0 <= i < |init| && NameOf(init[i]) == n;
        assert sections[i] == init[i];
      }
      if exists i :: 0 <= i < |sections| && NameOf(sections[i]) == n {
        var i :| 0 <= i < |sections| && NameOf(sections[i]) == n;
        if i < |init| { assert init[i] == sections[i]; }
      }
    }
  }

  /** A name maps to the group of the last section declaring it. */
  lemma {:induction false} SecNameMapLast(sections: seq<Section>, i: nat)
    requires LastNamed(sections, i)
    ensures NameOf(sections[i]) in SecNameMap(sections)
    ensures SecNameMap(sections)[NameOf(sections[i])] == sections[i].name
  {
    var init := sections[..|sections| - 1];
    if i < |init| {
      assert sections[i] == init[i];
      assert LastNamed(init, i);
      SecNameMapLast(init, i);
    }
  }

  /** A name has an entry in the name-to-parent map exactly when it is not
      empty and some section of that name declares a parent; a later
      section with "none" does not remove an earlier entry. */
  lemma {:induction false} ParentMapKeys(sections: seq<Section>, n: string)
    ensures n in ParentMap(sections) <==>
      n != "" && exists i :: 0 <= i < |sections| && NameOf(sections[i]) == n && DeclaresParent(sections[i])
  {
    if sections != [] {
      var init := sections[..|sections| - 1];
      ParentMapKeys(init, n);
      if exists i :: 0 <= i < |init| && NameOf(init[i]) == n && DeclaresParent(init[i]) {
        var i :| 0 <= i < |init| && NameOf(init[i]) == n && DeclaresParent(init[i]);
        assert sections[i] == init[i];
      }
      if exists i :: 0 <= i < |sections| && NameOf(sections[i]) == n && DeclaresParent(sections[i]) {
        var i :| 0 <= i < |sections| && NameOf(sections[i]) == n && DeclaresParent(sections[i]);
        if i < |init| { assert init[i] == sections[i]; }
      }
    }
  }

  /** When the last section with a name declares a parent, that parent is
      the name's entry. */
  lemma {:induction false} ParentMapLast(sections: seq<Section>, i: nat)
    requires LastNamed(sections, i) && NameOf(sections[i]) != "" && DeclaresParent(sections[i])
    ensures NameOf(sections[i]) in ParentMap(sections)
    ensures ParentMap(sections)[NameOf(sections[i])] == DeclaredParent(sections[i])
  {
    var init := sections[..|sections| - 1];
    if i < |init| {
      assert sections[i] == init[i];
      assert LastNamed(init, i);
      ParentMapLast(init, i);
    }
  }

  /** Stage 1 as the source runs it: one pass over the sections filling both
      maps. */
  method BuildMaps(sections: seq<Section>) returns (secNameMap: map<string, string>, parentMap: map<string, string>)
    ensures secNameMap == SecNameMap(sections)
    ensures parentMap == ParentMap(sections)
  {
    secNameMap, parentMap := map[], map[];
    for i := 0 to |sections|
      invariant secNameMap == SecNameMap(sections[..i])
      invariant parentMap == ParentMap(sections[..i])
    {
      assert sections[..i + 1][..i] == sections[..i];
      var name := NameOf(sections[i]);
      var parent := DeclaredParent(sections[i]);
      secNameMap := secNameMap[name := sections[i].name];
      if parent != "none" && parent != "" && name != "" {
        parentMap := parentMap[name := parent];
      }
    }
    assert sections[..|sections|] == sections;
  }

  // ---------------------------------------------------------------- Stage 2a

  /** The walk of stage 2a goes on from `p`. */
  predicate Continues(pm: map<string, string>, p: string) {
    p in pm && pm[p] != "none"
  }

  /** Where the walk from `p` stands after at most `k` steps. */
  function Follow(pm: map<string, string>, p: string, k: nat): string
    decreases k
  {
    if k == 0 || !Continues(pm, p) then p else Follow(pm, pm[p], k - 1)
  }

  /** The walk from `p` stops within |pm| steps: `p` lies on no cycle of
      parents. */
  predicate Terminates(pm: map<string, string>, p: string) {
    !Continues(pm, Follow(pm, p, |pm|))
  }

  /** No parent chain is cyclic: the loop of stage 2a ends for every name. */
  ghost predicate Acyclic(pm: map<string, string>) {
    forall p :: Terminates(pm, p)
  }

  /** The number of steps of the walk from `p`, given `fuel` steps suffice. */
  function Depth(pm: map<string, string>, p: string, fuel: nat): nat
    requires !Continues(pm, Follow(pm, p, fuel))
    decreases fuel
  {
    if !Continues(pm, p) then 0 else 1 + Depth(pm, pm[p], fuel - 1)
  }

  /** The dependency level of the body called `p`: the length of its parent
      chain in the parent map. */
  function Level(pm: map<string, string>, p: string): nat
    requires Terminates(pm, p)
  {
    Depth(pm, p, |pm|)
  }

  /** The length of a walk does not depend on how much fuel it was given. */
  lemma {:induction false} DepthFuel(pm: map<string, string>, p: string, f: nat, g: nat)
    requires !Continues(pm, Follow(pm, p, f)) && f <= g
    ensures !Continues(pm, Follow(pm, p, g))
    ensures Depth(pm, p, f) == Depth(pm, p, g)
    decreases f
  {
    if Continues(pm, p) {
      DepthFuel(pm, pm[p], f - 1, g - 1);
    }
  }

  /** A body whose parent entry names another body is exactly one level
      deeper than that parent: a root has level 0, a planet of the Sun 1, a
      moon of that planet 2. */
  lemma LevelStep(pm: map<string, string>, c: string)
    requires Acyclic(pm) && Continues(pm, c)
    ensures Level(pm, c) == Level(pm, pm[c]) + 1
  {
    assert Terminates(pm, c) && Terminates(pm, pm[c]);
    DepthFuel(pm, pm[c], |pm| - 1, |pm|);
  }

  /** A body without a parent entry (the Sun, or one declared with parent
      "none") has level 0. */
  lemma LevelRoot(pm: map<string, string>, c: string)
    requires !Continues(pm, c)
    ensures Terminates(pm, c) && Level(pm, c) == 0
  {
  }

  /** The loop of stage 2a: follow the parent map from `name`, counting. */
  method DependencyLevel(pm: map<string, string>, name: string) returns (level: nat)
    requires Terminates(pm, name)
    ensures level == Level(pm, name)
  {
    var p := name;
    level := 0;
    ghost var fuel: nat := |pm|;
    while p in pm && pm[p] != "none"
      invariant !Continues(pm, Follow(pm, p, fuel))
      invariant level + Depth(pm, p, fuel) == Level(pm, name)
      decreases fuel
    {
      level := level + 1;
      p := pm[p];
      fuel := fuel - 1;
    }
  }

  // ---------------------------------------------------------------- Stage 2b

  /** One item of the QMultiMap from dependency level to section name. */
  datatype Entry = Entry(level: nat, section: string)

  predicate SortedByLevel(m: seq<Entry>) {
    forall i, j :: 0 <= i < j < |m| ==> m[i].level <= m[j].level
  }

  /** QMultiMap::insert: the new item goes in front of the first item whose
      level is not lower, so it precedes the items with the same level. */
  function InsertMulti(m: seq<Entry>, e: Entry): (r: seq<Entry>)
    ensures multiset(r) == multiset(m) + multiset{e}
  {
    if m == [] || e.level <= m[0].level then [e] + m
    else
      assert m == [m[0]] + m[1..];
      [m[0]] + InsertMulti(m[1..], e)
  }

  /** Inserting keeps the multimap sorted by level. */
  lemma {:induction false} InsertMultiSorted(m: seq<Entry>, e: Entry)
    requires SortedByLevel(m)
    ensures SortedByLevel(InsertMulti(m, e))
  {
    if m != [] && e.level > m[0].level {
      var t := InsertMulti(m[1..], e);
      InsertMultiSorted(m[1..], e);
      forall x | x in t ensures m[0].level <= x.level {
        assert x in multiset(t);
        assert x in multiset(m[1..]) || x == e;
      }
    }
  }

  /** The entry stage 2a inserts for a section. */
  function EntryOf(pm: map<string, string>, snm: map<string, string>, s: Section): Entry
    requires Acyclic(pm) && NameOf(s) in snm
  {
    Entry(Level(pm, NameOf(s)), snm[NameOf(s)])
  }

  /** The entries of the sections, in file order. */
  function EntriesOf(pm: map<string, string>, snm: map<string, string>, sections: seq<Section>): (r: seq<Entry>)
    requires Acyclic(pm)
    requires forall s :: s in sections ==> NameOf(s) in snm
    ensures |r| == |sections| && forall i :: 0 <= i < |sections| ==> r[i] == EntryOf(pm, snm, sections[i])
  {
    seq(|sections|, i requires 0 <= i < |sections| => EntryOf(pm, snm, sections[i]))
  }

  /** The multimap after stage 2a has inserted one entry per section. */
  function LevelMap(pm: map<string, string>, snm: map<string, string>, sections: seq<Section>): (r: seq<Entry>)
    requires Acyclic(pm)
    requires forall s :: s in sections ==> NameOf(s) in snm
  {
    if sections == [] then []
    else
      var init := sections[..|sections| - 1];
      InsertMulti(LevelMap(pm, snm, init), EntryOf(pm, snm, sections[|sections| - 1]))
  }

  /** The multimap holds exactly one entry per section, sorted by level:
      every dependency level is emitted in ascending order. */
  lemma {:induction false} LevelMapOrdered(pm: map<string, string>, snm: map<string, string>, sections: seq<Section>)
    requires Acyclic(pm)
    requires forall s :: s in sections ==> NameOf(s) in snm
    ensures SortedByLevel(LevelMap(pm, snm, sections))
    ensures multiset(LevelMap(pm, snm, sections)) == multiset(EntriesOf(pm, snm, sections))
  {
    if sections != [] {
      var init := sections[..|sections| - 1];
      var last := sections[|sections| - 1];
      LevelMapOrdered(pm, snm, init);
      InsertMultiSorted(LevelMap(pm, snm, init), EntryOf(pm, snm, last));
      assert EntriesOf(pm, snm, sections) == EntriesOf(pm, snm, init) + [EntryOf(pm, snm, last)];
    }
  }

  /** Stage 2b: the sections in the order the multimap iterates them. */
  function SectionsOf(m: seq<Entry>): (r: seq<string>)
    ensures |r| == |m| && forall i :: 0 <= i < |m| ==> r[i] == m[i].section
  {
    seq(|m|, i requires 0 <= i < |m| => m[i].section)
  }

  /** The dependency-ordered entries of a catalogue file's sections. */
  function OrderedEntries(sections: seq<Section>): seq<Entry>
    requires Acyclic(ParentMap(sections))
  {
    LevelMap(ParentMap(sections), SecNameMap(sections), sections)
  }

  /** Stages 1 and 2 as the source runs them: build the maps, insert each
      section at its level, then read the sections off in level order. */
  method OrderSections(sections: seq<Section>) returns (ordered: seq<string>)
    requires Acyclic(ParentMap(sections))
    ensures ordered == SectionsOf(OrderedEntries(sections))
  {
    var secNameMap, parentMap := BuildMaps(sections);
    var depLevelMap: seq<Entry> := [];
    for i := 0 to |sections|
      invariant depLevelMap == LevelMap(parentMap, secNameMap, sections[..i])
    {
      assert sections[..i + 1][..i] == sections[..i];
      var name := NameOf(sections[i]);
      var level := DependencyLevel(parentMap, name);
      depLevelMap := InsertMulti(depLevelMap, Entry(level, secNameMap[name]));
    }
    assert sections[..|sections|] == sections;
    ordered := [];
    for k := 0 to |depLevelMap|
      invariant ordered == SectionsOf(depLevelMap[..k])
    {
      ordered := ordered + [depLevelMap[k].section];
    }
    assert depLevelMap[..|depLevelMap|] == depLevelMap;
  }

  /** In a list sorted by level, an entry of strictly lower level comes
      first. */
  lemma SortedPrecedes(m: seq<Entry>, i: nat, j: nat)
    requires SortedByLevel(m) && i < |m| && j < |m|
    requires m[i].level < m[j].level
    ensures i < j
  {
  }

  /** A parent-map link from `sc`'s name to `sp`'s orders `sp`'s entry
      before `sc`'s. */
  lemma EntryBeforeChild(sections: seq<Section>, sp: Section, sc: Section)
    requires Acyclic(ParentMap(sections))
    requires sp in sections && sc in sections
    requires Continues(ParentMap(sections), NameOf(sc))
    requires ParentMap(sections)[NameOf(sc)] == NameOf(sp)
    ensures var m := OrderedEntries(sections);
      var ep := EntryOf(ParentMap(sections), SecNameMap(sections), sp);
      var ec := EntryOf(ParentMap(sections), SecNameMap(sections), sc);
      ep in m && ec in m &&
      forall i, j :: 0 <= i < |m| && 0 <= j < |m| && m[i] == ep && m[j] == ec ==> i < j
  {
    var pm, snm := ParentMap(sections), SecNameMap(sections);
    var m := OrderedEntries(sections);
    var all := EntriesOf(pm, snm, sections);
    LevelMapOrdered(pm, snm, sections);
    var a :| 0 <= a < |sections| && sections[a] == sp;
    var b :| 0 <= b < |sections| && sections[b] == sc;
    assert all[a] in multiset(m) && all[b] in multiset(m);
    LevelStep(pm, NameOf(sc));
    forall i, j | 0 <= i < |m| && 0 <= j < |m| && m[i] == all[a] && m[j] == all[b]
      ensures i < j
    {
      SortedPrecedes(m, i, j);
    }
  }

  /** No two sections declare the same name. */
  predicate DistinctNames(sections: seq<Section>) {
    forall i, j :: 0 <= i < j < |sections| ==> NameOf(sections[i]) != NameOf(sections[j])
  }

  /** Load order: when names are distinct and section `sc`, which has a name,
      declares as its parent the name of section `sp`, both sections are
      listed with their own groups, and `sp` before `sc`, in the order
      stage 3 processes the sections. */
  lemma ParentSectionFirst(sections: seq<Section>, sp: Section, sc: Section)
    requires DistinctNames(sections) && Acyclic(ParentMap(sections))
    requires sp in sections && sc in sections
    requires NameOf(sc) != "" && DeclaresParent(sc) && DeclaredParent(sc) == NameOf(sp)
    ensures var m := OrderedEntries(sections);
      var ep := EntryOf(ParentMap(sections), SecNameMap(sections), sp);
      var ec := EntryOf(ParentMap(sections), SecNameMap(sections), sc);
      ep.section == sp.name && ec.section == sc.name &&
      ep in m && ec in m &&
      forall i, j :: 0 <= i < |m| && 0 <= j < |m| && m[i] == ep && m[j] == ec ==> i < j
  {
    var a :| 0 <= a < |sections| && sections[a] == sp;
    var b :| 0 <= b < |sections| && sections[b] == sc;
    assert LastNamed(sections, a) && LastNamed(sections, b);
    SecNameMapLast(sections, a);
    SecNameMapLast(sections, b);
    ParentMapLast(sections, b);
    EntryBeforeChild(sections, sp, sc);
  }
}
