/** The read-only queries on the loaded bodies: look-up by name, the
    nearest body to a direction, and the name lists. Each walks
    `systemPlanets` (here `planets`, handles into the arena `bodies`) in
    order, as the source's loops do. */
module Queries {
  import opened Wrappers
  import opened Text
  import opened Lists
  import opened Bodies

  /** The name a list reports for a body: its English name, or its
      translated one. */
  function ListedName(b: Body, inEnglish: bool): string {
    if inEnglish then b.englishName else b.nameI18n
  }

  /** searchByEnglishName: the first loaded body with that English name,
      or none. */
  method SearchByEnglishName(bodies: seq<Body>, planets: seq<nat>, name: string) returns (h: Option<nat>)
    requires HandlesIn(planets, |bodies|)
    ensures h.None? <==> forall j :: 0 <= j < |planets| ==> bodies[planets[j]].englishName != name
    ensures h.Some? ==> exists k :: 0 <= k < |planets| && planets[k] == h.value &&
                                    bodies[h.value].englishName == name &&
                                    forall j :: 0 <= j < k ==> bodies[planets[j]].englishName != name
    ensures h == FindByEnglishName(bodies, planets, name)
  {
    for k := 0 to |planets|
      invariant forall j :: 0 <= j < k ==> bodies[planets[j]].englishName != name
    {
      if bodies[planets[k]].englishName == name {
        var f := FindPos(bodies, planets, name);
        assert f == Some(k);
        return Some(planets[k]);
      }
    }
    return None;
  }

  /** search: the loaded body whose direction is closest to the given
      one, when that closeness is within the threshold. `cosTo(h)` is the
      cosine of the angle between the (normalised) direction and body
      `h`'s (normalised) equatorial position. A body replaces the best so
      far only when strictly closer, starting from a cosine of 0; the
      result is kept only when the best cosine exceeds 0.999. */
  method Search(bodies: seq<Body>, planets: seq<nat>, cosTo: nat -> real) returns (h: Option<nat>)
    requires HandlesIn(planets, |bodies|)
    ensures h.None? <==> forall j :: 0 <= j < |planets| ==> cosTo(planets[j]) <= 0.999
    ensures h.Some? ==> cosTo(h.value) > 0.999 &&
                        forall j :: 0 <= j < |planets| ==> cosTo(planets[j]) <= cosTo(h.value)
    ensures h.Some? ==> exists k :: 0 <= k < |planets| && planets[k] == h.value &&
                                    forall j :: 0 <= j < k ==> cosTo(planets[j]) < cosTo(h.value)
  {
    var closest: Option<nat> := None;
    var closestIndex := 0;
    var cosClosest := 0.0;
    for k := 0 to |planets|
      invariant cosClosest >= 0.0
      invariant forall j :: 0 <= j < k ==> cosTo(planets[j]) <= cosClosest
      invariant closest.None? ==> cosClosest == 0.0
      invariant closest.Some? ==>
                  closestIndex < k && planets[closestIndex] == closest.value &&
                  cosTo(closest.value) == cosClosest > 0.0 &&
                  forall j :: 0 <= j < closestIndex ==> cosTo(planets[j]) < cosClosest
    {
      var c := cosTo(planets[k]);
      if c > cosClosest {
        closest, closestIndex, cosClosest := Some(planets[k]), k, c;
      }
    }
    if cosClosest > 0.999 {
      h := closest;
    } else {
      h := None;
    }
  }

  /** listAllObjects: the name of every loaded body, in list order. */
  method ListAllObjects(bodies: seq<Body>, planets: seq<nat>, inEnglish: bool) returns (r: seq<string>)
    requires HandlesIn(planets, |bodies|)
    ensures |r| == |planets|
    ensures forall i :: 0 <= i < |planets| ==> r[i] == ListedName(bodies[planets[i]], inEnglish)
  {
    r := [];
    for k := 0 to |planets|
      invariant |r| == k
      invariant forall i :: 0 <= i < k ==> r[i] == ListedName(bodies[planets[i]], inEnglish)
    {
      r := r + [ListedName(bodies[planets[k]], inEnglish)];
    }
  }

  /** The names of the loaded bodies whose type string is `objType`, in
      list order. */
  function NamesOfType(bodies: seq<Body>, planets: seq<nat>, objType: string, inEnglish: bool): (r: seq<string>)
    requires HandlesIn(planets, |bodies|)
    ensures |r| <= |planets|
  {
    if planets == [] then []
    else
      var h := planets[|planets| - 1];
      NamesOfType(bodies, planets[..|planets| - 1], objType, inEnglish) +
        (if bodies[h].typeName == objType then [ListedName(bodies[h], inEnglish)] else [])
  }

  /** A name is listed for a type exactly when some loaded body of that
      type has that name. */
  lemma {:induction false} NamesOfTypeMembers(bodies: seq<Body>, planets: seq<nat>, objType: string, inEnglish: bool, x: string)
    requires HandlesIn(planets, |bodies|)
    ensures x in NamesOfType(bodies, planets, objType, inEnglish) <==>
            exists i :: 0 <= i < |planets| && bodies[planets[i]].typeName == objType &&
                        ListedName(bodies[planets[i]], inEnglish) == x
  {
    if planets != [] {
      var init := planets[..|planets| - 1];
      NamesOfTypeMembers(bodies, init, objType, inEnglish, x);
      if x in NamesOfType(bodies, planets, objType, inEnglish) {
        if x in NamesOfType(bodies, init, objType, inEnglish) {
          var i :| 0 <= i < |init| && bodies[init[i]].typeName == objType && ListedName(bodies[init[i]], inEnglish) == x;
          assert planets[i] == init[i];
        } else {
          assert bodies[planets[|planets| - 1]].typeName == objType;
        }
      } else {
        forall i | 0 <= i < |planets| && bodies[planets[i]].typeName == objType
          ensures ListedName(bodies[planets[i]], inEnglish) != x
        {
          if i < |init| {
            assert planets[i] == init[i];
          }
        }
      }
    }
  }

  /** listAllObjectsByType: the names of the loaded bodies of the given
      type, in list order. */
  method ListAllObjectsByType(bodies: seq<Body>, planets: seq<nat>, objType: string, inEnglish: bool) returns (r: seq<string>)
    requires HandlesIn(planets, |bodies|)
    ensures r == NamesOfType(bodies, planets, objType, inEnglish)
  {
    r := [];
    for k := 0 to |planets|
      invariant r == NamesOfType(bodies, planets[..k], objType, inEnglish)
    {
      assert planets[..k + 1][..k] == planets[..k];
      if bodies[planets[k]].typeName == objType {
        r := r + [ListedName(bodies[planets[k]], inEnglish)];
      }
    }
    assert planets[..|planets|] == planets;
  }

  /** The English names of all loaded bodies. */
  function EnglishNames(bodies: seq<Body>, planets: seq<nat>): (r: seq<string>)
    requires HandlesIn(planets, |bodies|)
  {
    seq(|planets|, i requires 0 <= i < |planets| => bodies[planets[i]].englishName)
  }

  /** The three pseudo-bodies the full list leaves out. */
  const Hidden := ["Sun", "Solar System Observer", "Earth Observer"]

  /** getObjectsList: for "all" (in any letter case), every English name
      with the first occurrence of each of the three hidden names removed;
      otherwise the English names of the bodies whose type string is
      exactly `objType`. */
  function ObjectsList(bodies: seq<Body>, planets: seq<nat>, objType: string): (r: seq<string>)
    requires HandlesIn(planets, |bodies|)
  {
    if ToLower(objType) == "all" then
      RemoveOne(RemoveOne(RemoveOne(EnglishNames(bodies, planets), Hidden[0]), Hidden[1]), Hidden[2])
    else NamesOfType(bodies, planets, objType, true)
  }

  /** The full list drops one occurrence of each hidden name and keeps
      every other name as often as it occurs. */
  lemma ObjectsListAll(bodies: seq<Body>, planets: seq<nat>, objType: string)
    requires HandlesIn(planets, |bodies|) && ToLower(objType) == "all"
    ensures multiset(ObjectsList(bodies, planets, objType)) ==
              multiset(EnglishNames(bodies, planets)) - multiset{"Sun"} - multiset{"Solar System Observer"} - multiset{"Earth Observer"}
    ensures forall x :: x !in Hidden ==>
              multiset(ObjectsList(bodies, planets, objType))[x] == multiset(EnglishNames(bodies, planets))[x]
  {
    var names := EnglishNames(bodies, planets);
    var r1 := RemoveOne(names, Hidden[0]);
    var r2 := RemoveOne(r1, Hidden[1]);
    RemoveOneMultiset(names, Hidden[0]);
    RemoveOneMultiset(r1, Hidden[1]);
    RemoveOneMultiset(r2, Hidden[2]);
  }

  /** When the English names are distinct, none of the hidden names is in
      the full list, and every other name is. */
  lemma ObjectsListAllDistinct(bodies: seq<Body>, planets: seq<nat>, objType: string)
    requires HandlesIn(planets, |bodies|) && ToLower(objType) == "all"
    requires NoDup(EnglishNames(bodies, planets))
    ensures forall x :: x in ObjectsList(bodies, planets, objType) <==>
                        x in EnglishNames(bodies, planets) && x !in Hidden
  {
    var names := EnglishNames(bodies, planets);
    var r1 := RemoveOne(names, Hidden[0]);
    var r2 := RemoveOne(r1, Hidden[1]);
    RemoveOneNoDup(names, Hidden[0]);
    RemoveOneNoDup(r1, Hidden[1]);
    RemoveOneNoDup(r2, Hidden[2]);
  }

  /** Any other type name, compared without changing its letter case,
      lists exactly the loaded bodies of that type. */
  lemma ObjectsListByType(bodies: seq<Body>, planets: seq<nat>, objType: string, x: string)
    requires HandlesIn(planets, |bodies|) && ToLower(objType) != "all"
    ensures x in ObjectsList(bodies, planets, objType) <==>
              exists i :: 0 <= i < |planets| && bodies[planets[i]].typeName == objType &&
                          bodies[planets[i]].englishName == x
  {
    NamesOfTypeMembers(bodies, planets, objType, true, x);
  }

  /** getObjectsList, carried out with the two list queries. */
  method GetObjectsList(bodies: seq<Body>, planets: seq<nat>, objType: string) returns (r: seq<string>)
    requires HandlesIn(planets, |bodies|)
    ensures r == ObjectsList(bodies, planets, objType)
  {
    if ToLower(objType) == "all" {
      r := ListAllObjects(bodies, planets, true);
      assert r == EnglishNames(bodies, planets);
      r := RemoveOne(r, "Sun");
      r := RemoveOne(r, "Solar System Observer");
      r := RemoveOne(r, "Earth Observer");
    } else {
      r := ListAllObjectsByType(bodies, planets, objType, true);
    }
  }
}
