/**
 The food catalog: the fixed, in-memory list of food records that the
 service loads once at start-up and searches, by exact name, when it
 totals a selection. `GET /api/foods` serves this list as it is; the
 catalog is a sequence value here, so no operation can change it.
 */
module FoodCatalog {

  import opened Wrappers

  /** One catalog entry: a food's name and its calories per unit. */
  datatype FoodRecord = FoodRecord(name: string, calories: real)

  /** True iff `i` is the position of the first record named `name`. */
  ghost predicate IsFirstMatch(catalog: seq<FoodRecord>, name: string, i: int)
  {
    && 0 <= i < |catalog|
    && catalog[i].name == name
    && forall j :: 0 <= j < i ==> catalog[j].name != name
  }

  /**
   The lookup of the calculate handler: scan the catalog in order and
   return the first record whose name equals `name` exactly (the
   comparison is plain string equality, so it is case-sensitive), or
   `None` when no record has that name.
   */
  function Find(catalog: seq<FoodRecord>, name: string): (r: Option<FoodRecord>)
    ensures r.Some? ==> r.value in catalog && r.value.name == name
    ensures r.None? <==> forall i :: 0 <= i < |catalog| ==> catalog[i].name != name
  {
    if catalog == [] then None
    else if catalog[0].name == name then Some(catalog[0])
    else Find(catalog[1..], name)
  }

  /** When several records share a name, the lookup returns the earliest one. */
  lemma {:induction false} FindReturnsFirstMatch(catalog: seq<FoodRecord>, name: string, i: int)
    requires IsFirstMatch(catalog, name, i)
    ensures Find(catalog, name) == Some(catalog[i])
  {
    if i > 0 {
      assert catalog[0].name != name;
      assert IsFirstMatch(catalog[1..], name, i - 1) by {
        forall j | 0 <= j < i - 1 ensures catalog[1..][j].name != name {
          assert catalog[1..][j] == catalog[j + 1];
        }
      }
      FindReturnsFirstMatch(catalog[1..], name, i - 1);
    }
  }

  /**
   Searching a catalog made of two parts finds the match in the first part
   whenever there is one, and looks in the second part only otherwise.
   */
  lemma {:induction false} FindInConcatenation(front: seq<FoodRecord>, back: seq<FoodRecord>, name: string)
    ensures Find(front + back, name) ==
            if Find(front, name).Some? then Find(front, name) else Find(back, name)
  {
    if front != [] {
      assert (front + back)[1..] == front[1..] + back;
      FindInConcatenation(front[1..], back, name);
    } else {
      assert front + back == back;
    }
  }

  /** Names are compared exactly: a name differing only in letter case does not match. */
  lemma FindIsCaseSensitive()
    ensures Find([FoodRecord("Apple", 95.0)], "apple") == None
    ensures Find([FoodRecord("Apple", 95.0)], "Apple") == Some(FoodRecord("Apple", 95.0))
  {
  }
}
