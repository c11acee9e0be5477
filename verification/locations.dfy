/** The location store: one optional primary location and an ordered list of
    additional cities, changed only by adding and removing. */
module Locations {
  import opened Wrappers

  /** A place the dashboard shows weather for. Coordinates are JavaScript
      numbers; the model never computes with them, so reals suffice. */
  datatype Location = Location(name: string, lat: real, lon: real)

  /** `state.primaryLocation` and `state.additionalCities`. */
  datatype Store = Store(primary: Option<Location>, additional: seq<Location>)

  /** How an add request ended. */
  datatype AddOutcome = SetPrimary | Added | Duplicate

  datatype AddResult = AddResult(store: Store, outcome: AddOutcome)

  /** The store before anything is loaded or added. */
  const Initial: Store := Store(None, [])

  /** The name the geolocation bootstrap gives the primary location. */
  const CurrentPositionName: string := "Текущее местоположение"

  /** `cities.some(c => c.name === name)`. */
  function AnyNamed(cities: seq<Location>, name: string): (found: bool)
    ensures found <==> exists i :: 0 <= i < |cities| && cities[i].name == name
  {
    if |cities| == 0 then false
    else cities[0].name == name || AnyNamed(cities[1..], name)
  }

  /** `cities.filter(c => c.name !== name)`. */
  function WithoutName(cities: seq<Location>, name: string): (kept: seq<Location>)
    ensures forall c :: c in kept <==> c in cities && c.name != name
    ensures !AnyNamed(cities, name) ==> kept == cities
    ensures AnyNamed(cities, name) ==> |kept| < |cities|
  {
    if |cities| == 0 then []
    else if cities[0].name == name then WithoutName(cities[1..], name)
    else [cities[0]] + WithoutName(cities[1..], name)
  }

  /** No two additional cities share a name. */
  predicate NamesUnique(cities: seq<Location>) {
    forall i, j :: 0 <= i < j < |cities| ==> cities[i].name != cities[j].name
  }

  /** What every reachable store satisfies: cities are only ever added once a
      primary exists, and never twice under one name. */
  predicate Valid(s: Store) {
    && (s.primary.None? ==> s.additional == [])
    && NamesUnique(s.additional)
  }

  /** `addLocation(name, lat, lon)`: the first location becomes the primary;
      later ones are appended unless an additional city already has that name.
      The duplicate check never looks at the primary. */
  function AddLocation(s: Store, name: string, lat: real, lon: real): (r: AddResult)
    ensures r.outcome == SetPrimary <==> s.primary.None?
    ensures r.outcome == Duplicate <==> s.primary.Some? && AnyNamed(s.additional, name)
    ensures r.outcome == SetPrimary ==>
              r.store == Store(Some(Location(name, lat, lon)), s.additional)
    ensures r.outcome == Added ==>
              && r.store.primary == s.primary
              && |r.store.additional| == |s.additional| + 1
              && r.store.additional[..|s.additional|] == s.additional
              && r.store.additional[|s.additional|] == Location(name, lat, lon)
    ensures r.outcome == Duplicate ==> r.store == s
    ensures Valid(s) ==> Valid(r.store)
  {
    var loc := Location(name, lat, lon);
    if s.primary.None? then
      AddResult(s.(primary := Some(loc)), SetPrimary)
    else if AnyNamed(s.additional, name) then
      AddResult(s, Duplicate)
    else
      var r := AddResult(s.(additional := s.additional + [loc]), Added);
      assert r.store.additional[..|s.additional|] == s.additional;
      r
  }

  /** `removeCity(name)`: every additional city with that name goes, the rest
      stay, and the primary is never touched. */
  function RemoveCity(s: Store, name: string): (r: Store)
    ensures r.primary == s.primary
    ensures !AnyNamed(r.additional, name)
    ensures forall c :: c in r.additional <==> c in s.additional && c.name != name
    ensures Valid(s) ==> Valid(r)
  {
    WithoutNameKeepsUnique(s.additional, name);
    s.(additional := WithoutName(s.additional, name))
  }

  /** The geolocation success callback: the primary becomes the current
      position under its fixed name, whatever was there before. */
  function SetCurrentPosition(s: Store, lat: real, lon: real): (r: Store)
    ensures r.primary.Some? && r.primary.value.name == CurrentPositionName
    ensures r.primary.value.lat == lat && r.primary.value.lon == lon
    ensures r.additional == s.additional
    ensures Valid(s) ==> Valid(r)
  {
    s.(primary := Some(Location(CurrentPositionName, lat, lon)))
  }

  lemma {:induction false} WithoutNameKeepsUnique(cities: seq<Location>, name: string)
    ensures NamesUnique(cities) ==> NamesUnique(WithoutName(cities, name))
  {
    if |cities| > 0 && NamesUnique(cities) {
      var rest := cities[1..];
      assert NamesUnique(rest) by {
        forall i, j | 0 <= i < j < |rest| ensures rest[i].name != rest[j].name {
          assert rest[i] == cities[i + 1] && rest[j] == cities[j + 1];
        }
      }
      WithoutNameKeepsUnique(rest, name);
      if cities[0].name != name {
        var kept := WithoutName(rest, name);
        forall c | c in kept ensures c.name != cities[0].name {
          var k :| 0 <= k < |rest| && rest[k] == c;
          assert cities[k + 1] == c;
        }
        assert WithoutName(cities, name) == [cities[0]] + kept;
      }
    }
  }

  /** Filtering respects concatenation, so it keeps the survivors in their
      original order. */
  lemma {:induction false} WithoutNameDistributes(a: seq<Location>, b: seq<Location>, name: string)
    ensures WithoutName(a + b, name) == WithoutName(a, name) + WithoutName(b, name)
  {
    if |a| > 0 {
      WithoutNameDistributes(a[1..], b, name);
      DistributesOverCons(a, b, name);
    } else {
      assert a + b == b;
    }
  }

  /** The inductive step of `WithoutNameDistributes`: the law for `a[1..]`
      gives it for `a`. */
  lemma {:induction false} DistributesOverCons(a: seq<Location>, b: seq<Location>, name: string)
    requires |a| > 0
    requires WithoutName(a[1..] + b, name) == WithoutName(a[1..], name) + WithoutName(b, name)
    ensures WithoutName(a + b, name) == WithoutName(a, name) + WithoutName(b, name)
  {
    FilterFirstOfConcat(a, b, name);
    var front := if a[0].name == name then [] else [a[0]];
    ConcatIsAssociative(front, WithoutName(a[1..], name), WithoutName(b, name));
  }

  /** One step of the filter over `a + b`, and over `a` alone: the first city
      is kept exactly when its name differs. */
  lemma FilterFirstOfConcat(a: seq<Location>, b: seq<Location>, name: string)
    requires |a| > 0
    ensures var front := if a[0].name == name then [] else [a[0]];
            && WithoutName(a + b, name) == front + WithoutName(a[1..] + b, name)
            && WithoutName(a, name) == front + WithoutName(a[1..], name)
  {
    var ab := a + b;
    assert ab[0] == a[0] && ab[1..] == a[1..] + b;
    if a[0].name == name {
      assert [] + WithoutName(a[1..] + b, name) == WithoutName(a[1..] + b, name);
      assert [] + WithoutName(a[1..], name) == WithoutName(a[1..], name);
    }
  }

  lemma ConcatIsAssociative<T>(x: seq<T>, y: seq<T>, z: seq<T>)
    ensures x + (y + z) == (x + y) + z
  {
  }

  /** In a list without repeated names, removing the name of entry `j` removes
      exactly that entry. */
  lemma WithoutNameOfUniqueEntry(cities: seq<Location>, j: int)
    requires NamesUnique(cities)
    requires 0 <= j < |cities|
    ensures WithoutName(cities, cities[j].name) == cities[..j] + cities[j + 1..]
  {
    UniqueNameNotBefore(cities, j);
    UniqueNameNotAfter(cities, j);
    DropOnlyEntryNamed(cities, j);
  }

  /** When entry `j` is the only one carrying its name, filtering that name
      out cuts exactly entry `j`. */
  lemma DropOnlyEntryNamed(cities: seq<Location>, j: int)
    requires 0 <= j < |cities|
    requires !AnyNamed(cities[..j], cities[j].name) && !AnyNamed(cities[j + 1..], cities[j].name)
    ensures WithoutName(cities, cities[j].name) == cities[..j] + cities[j + 1..]
  {
    var name := cities[j].name;
    var before, after := cities[..j], cities[j + 1..];
    var rest := cities[j..];
    assert rest[0] == cities[j] && rest[1..] == after;
    assert WithoutName(rest, name) == WithoutName(after, name) == after;
    assert cities == before + rest;
    WithoutNameDistributes(before, rest, name);
    assert WithoutName(before, name) == before;
  }

  lemma UniqueNameNotBefore(cities: seq<Location>, j: int)
    requires NamesUnique(cities)
    requires 0 <= j < |cities|
    ensures !AnyNamed(cities[..j], cities[j].name)
  {
  }

  lemma UniqueNameNotAfter(cities: seq<Location>, j: int)
    requires NamesUnique(cities)
    requires 0 <= j < |cities|
    ensures !AnyNamed(cities[j + 1..], cities[j].name)
  {
  }

  /** Removing a name twice is the same as removing it once. */
  lemma RemoveCityIsIdempotent(s: Store, name: string)
    ensures RemoveCity(RemoveCity(s, name), name) == RemoveCity(s, name)
  {
  }

  /** Removing a name no additional city has changes nothing. */
  lemma RemoveUnknownIsNoop(s: Store, name: string)
    requires !AnyNamed(s.additional, name)
    ensures RemoveCity(s, name) == s
  {
  }

  /** Removing the city that was just appended restores the store. */
  lemma RemoveUndoesAdd(s: Store, name: string, lat: real, lon: real)
    requires AddLocation(s, name, lat, lon).outcome == Added
    ensures RemoveCity(AddLocation(s, name, lat, lon).store, name) == s
  {
    var loc := Location(name, lat, lon);
    WithoutNameDistributes(s.additional, [loc], name);
    assert [loc][1..] == [];
  }

  /** A name that only the primary carries is not a duplicate: it is appended. */
  lemma PrimaryNameIsNotADuplicate(s: Store, lat: real, lon: real)
    requires s.primary.Some?
    requires !AnyNamed(s.additional, s.primary.value.name)
    ensures AddLocation(s, s.primary.value.name, lat, lon).outcome == Added
  {
  }

  /** Worked examples: a first add sets the primary; adding the primary's
      name again appends it; removing the only city leaves the primary. */
  lemma Scenarios()
    ensures AddLocation(Initial, "Paris", 48.85, 2.35)
            == AddResult(Store(Some(Location("Paris", 48.85, 2.35)), []), SetPrimary)
    ensures var paris := Store(Some(Location("Paris", 48.85, 2.35)), []);
            AddLocation(paris, "Paris", 48.85, 2.35).outcome == Added
    ensures var withLyon := Store(Some(Location("Paris", 48.85, 2.35)), [Location("Lyon", 45.76, 4.84)]);
            RemoveCity(withLyon, "Lyon") == Store(Some(Location("Paris", 48.85, 2.35)), [])
  {
    var withLyon := Store(Some(Location("Paris", 48.85, 2.35)), [Location("Lyon", 45.76, 4.84)]);
    assert [Location("Lyon", 45.76, 4.84)][1..] == [];
  }
}
