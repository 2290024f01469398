/**
 The calorie calculator behind `POST /api/calculate`: each selected item
 is looked up in the catalog by name, and the calories of every item that
 is found, times its quantity, are added to a running total that starts
 at zero. Items whose name is not in the catalog are skipped without error.
 */
module CalorieCalculator {

  import opened Wrappers
  import opened FoodCatalog

  /** One entry of the request's `selectedFoods` list. */
  datatype SelectionItem = SelectionItem(name: string, quantity: real)

  /** What one item adds to the total: calories times quantity if its name is known, else nothing. */
  function Contribution(catalog: seq<FoodRecord>, item: SelectionItem): (r: real)
    ensures Find(catalog, item.name).None? ==> r == 0.0
  {
    match Find(catalog, item.name)
    case Some(food) => food.calories * item.quantity
    case None => 0.0
  }

  /** An item whose name first appears at position `i` adds that record's calories times its quantity. */
  lemma ContributionOfFirstMatch(catalog: seq<FoodRecord>, item: SelectionItem, i: int)
    requires IsFirstMatch(catalog, item.name, i)
    ensures Contribution(catalog, item) == catalog[i].calories * item.quantity
  {
    FindReturnsFirstMatch(catalog, item.name, i);
  }

  /** True iff the catalog has no record for any item of the selection. */
  ghost predicate NoneKnown(catalog: seq<FoodRecord>, selections: seq<SelectionItem>)
  {
    forall i :: 0 <= i < |selections| ==> Find(catalog, selections[i].name).None?
  }

  /**
   The specification of the handler: the sum of every item's contribution,
   in list order. A selection none of whose names the catalog knows totals 0.
   */
  function Total(catalog: seq<FoodRecord>, selections: seq<SelectionItem>): (r: real)
    ensures NoneKnown(catalog, selections) ==> r == 0.0
  {
    if selections == [] then 0.0
    else
      assert NoneKnown(catalog, selections) ==> NoneKnown(catalog, selections[1..]) by {
        if NoneKnown(catalog, selections) {
          forall i | 0 <= i < |selections| - 1 ensures Find(catalog, selections[1..][i].name).None? {
            assert selections[1..][i] == selections[i + 1];
          }
        }
      }
      Contribution(catalog, selections[0]) + Total(catalog, selections[1..])
  }

  /**
   The body of the calculate handler: a running total, starting at zero,
   to which each item in turn adds the calories of its first catalog match
   times its quantity. The catalog is a value and is not changed.
   */
  method Calculate(catalog: seq<FoodRecord>, selectedFoods: seq<SelectionItem>)
    returns (totalCalories: real)
    ensures totalCalories == Total(catalog, selectedFoods)
  {
    totalCalories := 0.0;
    for k := 0 to |selectedFoods|
      invariant totalCalories == Total(catalog, selectedFoods[..k])
    {
      var item := selectedFoods[k];
      var food := Find(catalog, item.name);
      ghost var before := totalCalories;
      if food.Some? {
        totalCalories := totalCalories + food.value.calories * item.quantity;
      }
      assert totalCalories == before + Contribution(catalog, item);
      assert selectedFoods[..k + 1] == selectedFoods[..k] + [item];
      TotalAppend(catalog, selectedFoods[..k], item);
    }
    assert selectedFoods[..|selectedFoods|] == selectedFoods;
  }

  /** Appending one item raises the total by exactly that item's contribution. */
  lemma {:induction false} TotalAppend(catalog: seq<FoodRecord>, selections: seq<SelectionItem>, item: SelectionItem)
    ensures Total(catalog, selections + [item]) == Total(catalog, selections) + Contribution(catalog, item)
  {
    if selections != [] {
      assert (selections + [item])[1..] == selections[1..] + [item];
      TotalAppend(catalog, selections[1..], item);
    }
  }

  /** The total of a concatenation is the sum of the totals of its parts. */
  lemma {:induction false} TotalConcat(catalog: seq<FoodRecord>, front: seq<SelectionItem>, back: seq<SelectionItem>)
    ensures Total(catalog, front + back) == Total(catalog, front) + Total(catalog, back)
  {
    if front != [] {
      assert (front + back)[1..] == front[1..] + back;
      TotalConcat(catalog, front[1..], back);
    } else {
      assert front + back == back;
    }
  }

  /** No selection, no calories. */
  lemma TotalOfEmptySelection(catalog: seq<FoodRecord>)
    ensures Total(catalog, []) == 0.0
  {
  }

  /**
   An item whose name matches no record contributes nothing: adding it
   anywhere in the list leaves the total as it was.
   */
  lemma UnknownItemContributesNothing(catalog: seq<FoodRecord>, front: seq<SelectionItem>,
                                      item: SelectionItem, back: seq<SelectionItem>)
    requires Find(catalog, item.name).None?
    ensures Contribution(catalog, item) == 0.0
    ensures Total(catalog, front + [item] + back) == Total(catalog, front + back)
  {
    TotalConcat(catalog, front + [item], back);
    TotalAppend(catalog, front, item);
    TotalConcat(catalog, front, back);
  }

  /** Every occurrence of an item whose name the catalog knows, in selection order (the order is not part of the contract). */
  function KnownItems(catalog: seq<FoodRecord>, selections: seq<SelectionItem>): (known: seq<SelectionItem>)
    // A summary of the next clause, which implies it.
    ensures forall x :: x in known <==> x in selections && Find(catalog, x.name).Some?
    ensures forall x :: multiset(known)[x] == if Find(catalog, x.name).Some? then multiset(selections)[x] else 0
  {
    if selections == [] then []
    else
      assert selections == [selections[0]] + selections[1..];
      if Find(catalog, selections[0].name).Some? then [selections[0]] + KnownItems(catalog, selections[1..])
      else KnownItems(catalog, selections[1..])
  }

  /** Dropping every unknown item from a selection does not change its total. */
  lemma {:induction false} TotalOfKnownItems(catalog: seq<FoodRecord>, selections: seq<SelectionItem>)
    ensures Total(catalog, KnownItems(catalog, selections)) == Total(catalog, selections)
  {
    if selections != [] {
      TotalOfKnownItems(catalog, selections[1..]);
    }
  }

  /** `n` copies of the same item. */
  function Repeat(item: SelectionItem, n: nat): (items: seq<SelectionItem>)
    ensures |items| == n
    ensures forall i :: 0 <= i < n ==> items[i] == item
  {
    if n == 0 then [] else [item] + Repeat(item, n - 1)
  }

  /** There is no de-duplication: a food selected `n` times counts `n` times. */
  lemma RepeatedItemCountsEachTime(catalog: seq<FoodRecord>, item: SelectionItem, n: nat)
    ensures Total(catalog, Repeat(item, n)) == (n as real) * Contribution(catalog, item)
  {
    TotalOfCopies(catalog, Repeat(item, n), item);
  }

  /** A selection made only of copies of one item totals its length times that item's contribution. */
  lemma {:induction false} TotalOfCopies(catalog: seq<FoodRecord>, items: seq<SelectionItem>, item: SelectionItem)
    requires forall i :: 0 <= i < |items| ==> items[i] == item
    ensures Total(catalog, items) == (|items| as real) * Contribution(catalog, item)
  {
    if items != [] {
      TotalOfCopies(catalog, items[1..], item);
    }
  }

  /**
   Each item contributes on its own: the total depends only on which items
   were selected, and how often, not on the order in which they are listed.
   */
  lemma {:induction false} TotalIgnoresOrder(catalog: seq<FoodRecord>, s: seq<SelectionItem>, t: seq<SelectionItem>)
    requires multiset(s) == multiset(t)
    ensures Total(catalog, s) == Total(catalog, t)
    decreases |s|
  {
    if s != [] {
      var x := s[0];
      assert x in multiset(s);
      assert x in multiset(t);
      var j :| 0 <= j < |t| && t[j] == x;
      var rest := t[..j] + t[j + 1..];
      assert t == t[..j] + [x] + t[j + 1..];
      assert s == [x] + s[1..];
      assert multiset(t) == multiset(t[..j]) + multiset{x} + multiset(t[j + 1..]);
      assert multiset(s) == multiset{x} + multiset(s[1..]);
      assert multiset(rest) == multiset(t[..j]) + multiset(t[j + 1..]);
      assert multiset(s[1..]) == multiset(s) - multiset{x};
      assert multiset(rest) == multiset(t) - multiset{x};
      TotalIgnoresOrder(catalog, s[1..], rest);
      TotalRemoveAt(catalog, t, j);
    }
  }

  /** Taking the item at position `j` out of a selection lowers the total by that item's contribution. */
  lemma TotalRemoveAt(catalog: seq<FoodRecord>, t: seq<SelectionItem>, j: int)
    requires 0 <= j < |t|
    ensures Total(catalog, t) == Contribution(catalog, t[j]) + Total(catalog, t[..j] + t[j + 1..])
  {
    assert t == t[..j] + [t[j]] + t[j + 1..];
    TotalConcat(catalog, t[..j] + [t[j]], t[j + 1..]);
    TotalAppend(catalog, t[..j], t[j]);
    TotalConcat(catalog, t[..j], t[j + 1..]);
  }

  /** With non-negative calories and quantities the total is never negative. */
  lemma {:induction false} TotalNonNegative(catalog: seq<FoodRecord>, selections: seq<SelectionItem>)
    requires forall i :: 0 <= i < |catalog| ==> catalog[i].calories >= 0.0
    requires forall i :: 0 <= i < |selections| ==> selections[i].quantity >= 0.0
    ensures Total(catalog, selections) >= 0.0
  {
    if selections != [] {
      TotalNonNegative(catalog, selections[1..]);
    }
  }

  /** Example: two apples and a banana are 2 * 95 + 105 calories. */
  lemma KnownFoodsExample()
    ensures Total([FoodRecord("Apple", 95.0), FoodRecord("Banana", 105.0)],
                  [SelectionItem("Apple", 2.0), SelectionItem("Banana", 1.0)]) == 295.0
  {
  }

  /** Example: three of a food the catalog does not list add nothing. */
  lemma UnknownFoodExample()
    ensures Total([FoodRecord("Apple", 95.0), FoodRecord("Banana", 105.0)],
                  [SelectionItem("Mango", 3.0)]) == 0.0
  {
  }
}
