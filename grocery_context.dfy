/**
 * The grocery list manager (contexts/GroceryContext.tsx): one ordered list
 * of grocery items, replaced wholesale by every mutator, and the fixed list
 * of categories that orders the grouped view.
 *
 * Each mutator computes its new list with a pure function below (append,
 * filter, map); the class `GroceryProvider` holds the list and assigns it.
 */
module GroceryContext {
  import opened Wrappers
  import opened GroceryModel
  import opened AddItemGuard

  // ---------------------------------------------------------------------
  // Views of a list
  // ---------------------------------------------------------------------

  /** The ids of the items, in list order. */
  function Ids(items: seq<GroceryItem>): seq<string> {
    seq(|items|, k requires 0 <= k < |items| => items[k].id)
  }

  /** No two items share an id. */
  predicate UniqueIds(items: seq<GroceryItem>) {
    forall i, j :: 0 <= i < j < |items| ==> items[i].id != items[j].id
  }

  /**
   * `r` is an order-preserving subsequence of `s`: `r` is `s` with some
   * elements left out and the rest in their original relative order.
   */
  ghost predicate SubsequenceOf<T>(r: seq<T>, s: seq<T>)
    decreases |s|
  {
    if r == [] then true
    else if s == [] then false
    else (r[0] == s[0] && SubsequenceOf(r[1..], s[1..])) || SubsequenceOf(r, s[1..])
  }

  /** The elements of a subsequence are elements of the sequence. */
  lemma {:induction false} SubsequenceMembers<T>(r: seq<T>, s: seq<T>, x: T)
    requires SubsequenceOf(r, s) && x in r
    ensures x in s
    decreases |s|
  {
    assert s != [];
    if r[0] == s[0] && SubsequenceOf(r[1..], s[1..]) {
      if x != r[0] {
        SubsequenceMembers(r[1..], s[1..], x);
      }
    } else {
      SubsequenceMembers(r, s[1..], x);
    }
  }

  /** Every element of `s` other than its head lies in `s[1..]`. */
  lemma MemberOfTail<T>(s: seq<T>, x: T)
    requires x in s && x != s[0]
    ensures x in s[1..]
  {
    assert s == [s[0]] + s[1..];
  }

  // ---------------------------------------------------------------------
  // The fixed list of categories (GroceryContext.tsx, `categories`)
  // ---------------------------------------------------------------------

  /** The categories in display order, vegetables first and other last. */
  function Categories(): (r: seq<FoodCategory>)
    ensures |r| == 11 && r[0] == Vegetables && r[10] == Other
    ensures forall i, j :: 0 <= i < j < |r| ==> r[i] != r[j]
  {
    [Vegetables, Fruits, Poultry, Meat, Dairy, Grains, Canned, Frozen, Snacks, Beverages, Other]
  }

  /** The position of a category in `Categories()`: every category has exactly one. */
  function CategoryIndex(c: FoodCategory): (k: nat)
    ensures k < |Categories()| && Categories()[k] == c
    ensures forall j :: 0 <= j < |Categories()| && Categories()[j] == c ==> j == k
  {
    match c
    case Vegetables => 0
    case Fruits => 1
    case Poultry => 2
    case Meat => 3
    case Dairy => 4
    case Grains => 5
    case Canned => 6
    case Frozen => 7
    case Snacks => 8
    case Beverages => 9
    case Other => 10
  }

  // ---------------------------------------------------------------------
  // addItem
  // ---------------------------------------------------------------------

  /** The item `addItem` builds: the given fields, the supplied id, unchecked. */
  function NewItem(id: string, name: string, category: FoodCategory, quantity: real, unit: Option<string>): (x: GroceryItem)
    ensures x.id == id && x.name == name && x.category == category
    ensures x.quantity == quantity && x.unit == unit && !x.isChecked
  {
    GroceryItem(id, name, category, quantity, unit, false)
  }

  /** `[...groceryItems, newItem]`. */
  function WithNewItem(items: seq<GroceryItem>, id: string, name: string, category: FoodCategory,
                       quantity: real, unit: Option<string>): (r: seq<GroceryItem>)
    ensures |r| == |items| + 1 && r[..|items|] == items
    ensures r[|items|] == NewItem(id, name, category, quantity, unit)
  {
    items + [NewItem(id, name, category, quantity, unit)]
  }

  /** Adding an item under a fresh id keeps the ids unique. */
  lemma AddKeepsIdsUnique(items: seq<GroceryItem>, id: string, name: string, category: FoodCategory,
                          quantity: real, unit: Option<string>)
    requires UniqueIds(items) && id !in Ids(items)
    ensures UniqueIds(WithNewItem(items, id, name, category, quantity, unit))
  {
    var r := WithNewItem(items, id, name, category, quantity, unit);
    forall i, j | 0 <= i < j < |r| ensures r[i].id != r[j].id {
      if j == |items| {
        assert Ids(items)[i] == r[i].id;
      } else {
        assert r[i] == items[i] && r[j] == items[j];
      }
    }
  }

  // ---------------------------------------------------------------------
  // removeItem
  // ---------------------------------------------------------------------

  /** `groceryItems.filter(item => item.id !== id)`. */
  function Removed(items: seq<GroceryItem>, id: string): (r: seq<GroceryItem>)
    ensures forall k :: 0 <= k < |r| ==> r[k].id != id
    decreases |items|
  {
    if items == [] then []
    else
      var rest := Removed(items[1..], id);
      if items[0].id == id then rest else [items[0]] + rest
  }

  /**
   * What remains after a removal is the order-preserving subsequence of the
   * items with another id: it keeps each of them, and as many as there are.
   */
  lemma {:induction false} RemovedIsFilter(items: seq<GroceryItem>, id: string)
    ensures var r := Removed(items, id);
      && SubsequenceOf(r, items)
      && (forall x :: x in items && x.id != id ==> x in r)
      && |r| == |items| - multiset(Ids(items))[id]
    decreases |items|
  {
    if items != [] {
      RemovedIsFilter(items[1..], id);
      assert Ids(items) == [items[0].id] + Ids(items[1..]);
      forall x | x in items && x != items[0] ensures x in items[1..] {
        MemberOfTail(items, x);
      }
    }
  }

  /** Removing an id that no item has leaves the list as it was. */
  lemma {:induction false} RemoveAbsentIsNoOp(items: seq<GroceryItem>, id: string)
    requires id !in Ids(items)
    ensures Removed(items, id) == items
    decreases |items|
  {
    if items != [] {
      assert Ids(items)[0] == items[0].id;
      assert Ids(items[1..]) == Ids(items)[1..];
      RemoveAbsentIsNoOp(items[1..], id);
    }
  }

  /** After a removal the id is gone, so removing it again changes nothing. */
  lemma RemoveIdempotent(items: seq<GroceryItem>, id: string)
    ensures id !in Ids(Removed(items, id))
    ensures Removed(Removed(items, id), id) == Removed(items, id)
  {
    var r := Removed(items, id);
    assert forall k :: 0 <= k < |r| ==> Ids(r)[k] != id;
    RemoveAbsentIsNoOp(r, id);
  }

  /** Removing keeps the ids unique. */
  lemma {:induction false} RemoveKeepsIdsUnique(items: seq<GroceryItem>, id: string)
    requires UniqueIds(items)
    ensures UniqueIds(Removed(items, id))
    decreases |items|
  {
    if items != [] {
      var tail := items[1..];
      var rest := Removed(tail, id);
      assert UniqueIds(tail) by {
        forall i, j | 0 <= i < j < |tail| ensures tail[i].id != tail[j].id {
          assert tail[i] == items[i + 1] && tail[j] == items[j + 1];
        }
      }
      RemoveKeepsIdsUnique(tail, id);
      if items[0].id != id {
        RemovedIsFilter(tail, id);
        forall y | y in rest ensures y.id != items[0].id {
          SubsequenceMembers(rest, tail, y);
          var m :| 0 <= m < |tail| && tail[m] == y;
          assert items[m + 1] == y;
        }
        var r := [items[0]] + rest;
        forall i, j | 0 <= i < j < |r| ensures r[i].id != r[j].id {
          if i == 0 {
            assert r[j] == rest[j - 1];
          } else {
            assert r[i] == rest[i - 1] && r[j] == rest[j - 1];
          }
        }
      }
    }
  }

  /** Removing from a list with one more item at the end removes from the front part and drops or keeps that item. */
  lemma {:induction false} RemoveFromAppended(items: seq<GroceryItem>, x: GroceryItem, id: string)
    ensures Removed(items + [x], id) == Removed(items, id) + (if x.id == id then [] else [x])
    decreases |items|
  {
    if items == [] {
      assert [x][1..] == [];
    } else {
      assert (items + [x])[0] == items[0];
      assert (items + [x])[1..] == items[1..] + [x];
      RemoveFromAppended(items[1..], x, id);
    }
  }

  /** Removing the item just added under a fresh id restores the list. */
  lemma RemoveUndoesAdd(items: seq<GroceryItem>, id: string, name: string, category: FoodCategory,
                        quantity: real, unit: Option<string>)
    requires id !in Ids(items)
    ensures Removed(WithNewItem(items, id, name, category, quantity, unit), id) == items
  {
    RemoveFromAppended(items, NewItem(id, name, category, quantity, unit), id);
    RemoveAbsentIsNoOp(items, id);
  }

  // ---------------------------------------------------------------------
  // toggleItem
  // ---------------------------------------------------------------------

  /** `{ ...item, isChecked: !item.isChecked }`. */
  function Toggle(item: GroceryItem): (r: GroceryItem)
    ensures r.isChecked != item.isChecked && r.(isChecked := item.isChecked) == item
  {
    item.(isChecked := !item.isChecked)
  }

  /** `groceryItems.map(item => item.id === id ? Toggle(item) : item)`. */
  function Toggled(items: seq<GroceryItem>, id: string): (r: seq<GroceryItem>)
    ensures |r| == |items|
    ensures forall k :: 0 <= k < |items| ==> r[k].(isChecked := items[k].isChecked) == items[k]
    ensures forall k :: 0 <= k < |items| ==> (r[k].isChecked != items[k].isChecked <==> items[k].id == id)
    decreases |items|
  {
    if items == [] then []
    else [if items[0].id == id then Toggle(items[0]) else items[0]] + Toggled(items[1..], id)
  }

  /** Toggling keeps the sequence of ids, hence their uniqueness. */
  lemma ToggleKeepsIds(items: seq<GroceryItem>, id: string)
    ensures Ids(Toggled(items, id)) == Ids(items)
    ensures UniqueIds(items) ==> UniqueIds(Toggled(items, id))
  {
    var r := Toggled(items, id);
    forall k | 0 <= k < |items| ensures r[k].id == items[k].id {
      assert r[k].(isChecked := items[k].isChecked).id == r[k].id;
    }
  }

  /** Toggling an id that no item has leaves the list as it was. */
  lemma {:induction false} ToggleAbsentIsNoOp(items: seq<GroceryItem>, id: string)
    requires id !in Ids(items)
    ensures Toggled(items, id) == items
    decreases |items|
  {
    if items != [] {
      assert Ids(items)[0] == items[0].id;
      assert Ids(items[1..]) == Ids(items)[1..];
      ToggleAbsentIsNoOp(items[1..], id);
    }
  }

  /** Toggling the same id twice restores the list. */
  lemma {:induction false} ToggleInvolution(items: seq<GroceryItem>, id: string)
    ensures Toggled(Toggled(items, id), id) == items
    decreases |items|
  {
    if items != [] {
      var once := Toggled(items, id);
      assert once[1..] == Toggled(items[1..], id);
      ToggleInvolution(items[1..], id);
    }
  }

  // ---------------------------------------------------------------------
  // updateItem
  // ---------------------------------------------------------------------

  /** `{ ...item, ...updates }`: every key present in `updates` wins. */
  function Merge(item: GroceryItem, updates: PartialGroceryItem): (r: GroceryItem)
    ensures r.id == (if updates.id.Some? then updates.id.value else item.id)
    ensures r.name == (if updates.name.Some? then updates.name.value else item.name)
    ensures r.category == (if updates.category.Some? then updates.category.value else item.category)
    ensures r.quantity == (if updates.quantity.Some? then updates.quantity.value else item.quantity)
    ensures r.unit == (if updates.unit.Some? then updates.unit.value else item.unit)
    ensures r.isChecked == (if updates.isChecked.Some? then updates.isChecked.value else item.isChecked)
  {
    GroceryItem(
      updates.id.GetOr(item.id),
      updates.name.GetOr(item.name),
      updates.category.GetOr(item.category),
      updates.quantity.GetOr(item.quantity),
      updates.unit.GetOr(item.unit),
      updates.isChecked.GetOr(item.isChecked))
  }

  /** Merging the empty update is the identity; merging twice is merging once. */
  lemma MergeLaws(item: GroceryItem, updates: PartialGroceryItem)
    ensures Merge(item, NoUpdates) == item
    ensures Merge(Merge(item, updates), updates) == Merge(item, updates)
  {
  }

  /** `groceryItems.map(item => item.id === id ? { ...item, ...updates } : item)`. */
  function Updated(items: seq<GroceryItem>, id: string, updates: PartialGroceryItem): (r: seq<GroceryItem>)
    ensures |r| == |items|
    ensures forall k :: 0 <= k < |items| && items[k].id != id ==> r[k] == items[k]
    ensures forall k :: 0 <= k < |items| && items[k].id == id ==> r[k] == Merge(items[k], updates)
    decreases |items|
  {
    if items == [] then []
    else [if items[0].id == id then Merge(items[0], updates) else items[0]] + Updated(items[1..], id, updates)
  }

  /** Updating an id that no item has leaves the list as it was. */
  lemma {:induction false} UpdateAbsentIsNoOp(items: seq<GroceryItem>, id: string, updates: PartialGroceryItem)
    requires id !in Ids(items)
    ensures Updated(items, id, updates) == items
    decreases |items|
  {
    if items != [] {
      assert Ids(items)[0] == items[0].id;
      assert Ids(items[1..]) == Ids(items)[1..];
      UpdateAbsentIsNoOp(items[1..], id, updates);
    }
  }

  /** `update(id, { quantity: q })` changes the quantity of the matching items and nothing else. */
  lemma UpdateQuantityOnly(items: seq<GroceryItem>, id: string, q: real)
    ensures var r := Updated(items, id, NoUpdates.(quantity := Some(q)));
      forall k :: 0 <= k < |items| ==>
        r[k] == if items[k].id == id then items[k].(quantity := q) else items[k]
  {
  }

  /** Applying the same update twice is applying it once, whether or not it rewrites the id. */
  lemma {:induction false} UpdateIdempotent(items: seq<GroceryItem>, id: string, updates: PartialGroceryItem)
    ensures Updated(Updated(items, id, updates), id, updates) == Updated(items, id, updates)
    decreases |items|
  {
    if items != [] {
      var once := Updated(items, id, updates);
      assert once[1..] == Updated(items[1..], id, updates);
      UpdateIdempotent(items[1..], id, updates);
      MergeLaws(items[0], updates);
    }
  }

  /** An update without an `id` key keeps the sequence of ids. */
  lemma UpdateWithoutIdKeepsIds(items: seq<GroceryItem>, id: string, updates: PartialGroceryItem)
    requires updates.id.None?
    ensures Ids(Updated(items, id, updates)) == Ids(items)
  {
  }

  /**
   * Uniqueness survives an update unless the update moves the item onto an
   * id another item already carries.
   */
  lemma UpdateKeepsIdsUnique(items: seq<GroceryItem>, id: string, updates: PartialGroceryItem)
    requires UniqueIds(items)
    requires updates.id.None? || updates.id.value == id || updates.id.value !in Ids(items)
    ensures UniqueIds(Updated(items, id, updates))
  {
    var r := Updated(items, id, updates);
    forall i, j | 0 <= i < j < |r| ensures r[i].id != r[j].id {
      if updates.id.Some? && updates.id.value != id && updates.id.value !in Ids(items) {
        assert Ids(items)[i] == items[i].id && Ids(items)[j] == items[j].id;
      }
    }
  }

  /** Because `Partial<GroceryItem>` admits `id`, an update can give two items the same id. */
  lemma UpdateCanDuplicateIds(a: GroceryItem, b: GroceryItem)
    requires a.id != b.id
    ensures UniqueIds([a, b])
    ensures !UniqueIds(Updated([a, b], a.id, NoUpdates.(id := Some(b.id))))
  {
    var r := Updated([a, b], a.id, NoUpdates.(id := Some(b.id)));
    assert r[0].id == b.id && r[1] == b;
  }

  // ---------------------------------------------------------------------
  // getItemsByCategory and the grouped view
  // ---------------------------------------------------------------------

  /** The categories of the items, in list order. */
  function CategoriesOf(items: seq<GroceryItem>): seq<FoodCategory> {
    seq(|items|, k requires 0 <= k < |items| => items[k].category)
  }

  /** `groceryItems.filter(item => item.category === category)`. */
  function ItemsByCategory(items: seq<GroceryItem>, c: FoodCategory): (r: seq<GroceryItem>)
    ensures forall k :: 0 <= k < |r| ==> r[k].category == c
    decreases |items|
  {
    if items == [] then []
    else
      var rest := ItemsByCategory(items[1..], c);
      if items[0].category == c then [items[0]] + rest else rest
  }

  /**
   * The group of `c` is the order-preserving subsequence of the items of
   * category `c`: it keeps each of them, and as many as there are.
   */
  lemma {:induction false} ItemsByCategoryIsFilter(items: seq<GroceryItem>, c: FoodCategory)
    ensures var r := ItemsByCategory(items, c);
      && SubsequenceOf(r, items)
      && (forall x :: x in items && x.category == c ==> x in r)
      && |r| == multiset(CategoriesOf(items))[c]
    decreases |items|
  {
    if items != [] {
      ItemsByCategoryIsFilter(items[1..], c);
      assert CategoriesOf(items) == [items[0].category] + CategoriesOf(items[1..]);
      forall x | x in items && x != items[0] ensures x in items[1..] {
        MemberOfTail(items, x);
      }
    }
  }

  /** An item is in the group of `c` exactly when it is in the list with category `c`. */
  lemma InGroupIff(items: seq<GroceryItem>, c: FoodCategory, x: GroceryItem)
    ensures x in ItemsByCategory(items, c) <==> x in items && x.category == c
  {
    var r := ItemsByCategory(items, c);
    ItemsByCategoryIsFilter(items, c);
    if x in r {
      SubsequenceMembers(r, items, x);
      var k :| 0 <= k < |r| && r[k] == x;
    }
  }

  /** Every item of the list lies in exactly one group of the categories list: its own category's. */
  lemma ItemInExactlyOneGroup(items: seq<GroceryItem>, x: GroceryItem)
    requires x in items
    ensures forall k :: 0 <= k < |Categories()| ==>
      (x in ItemsByCategory(items, Categories()[k]) <==> k == CategoryIndex(x.category))
  {
    forall k | 0 <= k < |Categories()|
      ensures x in ItemsByCategory(items, Categories()[k]) <==> k == CategoryIndex(x.category)
    {
      InGroupIff(items, Categories()[k], x);
    }
  }

  /** Appending an item extends its own category's group by it and leaves every other group alone. */
  lemma {:induction false} AppendThenQuery(items: seq<GroceryItem>, x: GroceryItem, c: FoodCategory)
    ensures ItemsByCategory(items + [x], c) == ItemsByCategory(items, c) + (if x.category == c then [x] else [])
    decreases |items|
  {
    if items == [] {
      assert [x][1..] == [];
    } else {
      assert (items + [x])[0] == items[0];
      assert (items + [x])[1..] == items[1..] + [x];
      AppendThenQuery(items[1..], x, c);
    }
  }

  /** After `addItem`, the new item closes the group of its own category. */
  lemma AddThenQuery(items: seq<GroceryItem>, id: string, name: string, category: FoodCategory,
                     quantity: real, unit: Option<string>, c: FoodCategory)
    ensures var x := NewItem(id, name, category, quantity, unit);
      ItemsByCategory(WithNewItem(items, id, name, category, quantity, unit), c)
      == ItemsByCategory(items, c) + (if c == category then [x] else [])
  {
    AppendThenQuery(items, NewItem(id, name, category, quantity, unit), c);
  }

  /** The sum of the sizes of the groups of `cs`. */
  function GroupSizes(items: seq<GroceryItem>, cs: seq<FoodCategory>): nat
    decreases |cs|
  {
    if cs == [] then 0 else |ItemsByCategory(items, cs[0])| + GroupSizes(items, cs[1..])
  }

  /**
   * The groups of `cs`, concatenated in the order of `cs`: the sections of the
   * grouped view, one per category. It holds as many items as its sections.
   */
  function Grouped(items: seq<GroceryItem>, cs: seq<FoodCategory>): (r: seq<GroceryItem>)
    ensures |r| == GroupSizes(items, cs)
    decreases |cs|
  {
    if cs == [] then [] else ItemsByCategory(items, cs[0]) + Grouped(items, cs[1..])
  }

  /** Putting one item in front puts it in front of its own category's group. */
  lemma ConsThenQuery(x: GroceryItem, items: seq<GroceryItem>, c: FoodCategory)
    ensures ItemsByCategory([x] + items, c) == (if x.category == c then [x] else []) + ItemsByCategory(items, c)
  {
    assert ([x] + items)[0] == x && ([x] + items)[1..] == items;
  }

  /** A list of distinct categories splits into a head that is not repeated and a distinct tail. */
  lemma DistinctSplit(cs: seq<FoodCategory>)
    requires cs != [] && forall i, j :: 0 <= i < j < |cs| ==> cs[i] != cs[j]
    ensures forall i, j :: 0 <= i < j < |cs[1..]| ==> cs[1..][i] != cs[1..][j]
    ensures cs[0] !in cs[1..]
    ensures forall c :: c in cs <==> c == cs[0] || c in cs[1..]
  {
    var tail := cs[1..];
    forall i, j | 0 <= i < j < |tail| ensures tail[i] != tail[j] {
      assert tail[i] == cs[i + 1] && tail[j] == cs[j + 1];
    }
    forall j | 0 <= j < |tail| ensures tail[j] != cs[0] {
      assert tail[j] == cs[j + 1];
    }
    assert cs == [cs[0]] + tail;
  }

  /** Unfolds the grouped view once: the first category's group, then the rest. */
  lemma GroupedUnfold(items: seq<GroceryItem>, cs: seq<FoodCategory>)
    requires cs != []
    ensures Grouped(items, cs) == ItemsByCategory(items, cs[0]) + Grouped(items, cs[1..])
  {
  }

  /** Putting one item in front adds it to the grouped view once if a group is its category's. */
  lemma {:induction false} GroupedCons(x: GroceryItem, items: seq<GroceryItem>, cs: seq<FoodCategory>)
    requires forall i, j :: 0 <= i < j < |cs| ==> cs[i] != cs[j]
    ensures multiset(Grouped([x] + items, cs))
         == multiset(Grouped(items, cs)) + (if x.category in cs then multiset{x} else multiset{})
    decreases |cs|
  {
    if cs != [] {
      var y := [x] + items;
      var tail := cs[1..];
      DistinctSplit(cs);
      GroupedCons(x, items, tail);
      ConsThenQuery(x, items, cs[0]);
      GroupedUnfold(y, cs);
      GroupedUnfold(items, cs);
      var head := if x.category == cs[0] then [x] else [];
      var group := ItemsByCategory(items, cs[0]);
      var gy, gi := Grouped(y, tail), Grouped(items, tail);
      var extra := if x.category in tail then multiset{x} else multiset{};
      assert multiset(gy) == multiset(gi) + extra;
      assert multiset(Grouped(y, cs)) == multiset(head) + multiset(group) + multiset(gy);
      assert multiset(Grouped(items, cs)) == multiset(group) + multiset(gi);
      assert multiset(head) + extra == if x.category in cs then multiset{x} else multiset{};
    }
  }

  /** An empty list has only empty groups. */
  lemma {:induction false} GroupedEmpty(cs: seq<FoodCategory>)
    ensures Grouped([], cs) == []
    decreases |cs|
  {
    if cs != [] {
      GroupedEmpty(cs[1..]);
    }
  }

  /** Grouping by a list that names every category once gives back every item exactly once. */
  lemma {:induction false} GroupsReassemble(items: seq<GroceryItem>, cs: seq<FoodCategory>)
    requires forall i, j :: 0 <= i < j < |cs| ==> cs[i] != cs[j]
    requires forall c: FoodCategory :: c in cs
    ensures multiset(Grouped(items, cs)) == multiset(items)
    decreases |items|
  {
    if items == [] {
      GroupedEmpty(cs);
    } else {
      var x, rest := items[0], items[1..];
      assert [x] + rest == items;
      assert x.category in cs;
      GroupsReassemble(rest, cs);
      GroupedCons(x, rest, cs);
      var before := multiset(Grouped(rest, cs));
      assert multiset(Grouped(items, cs)) == before + multiset{x};
      assert multiset(items) == multiset(rest) + multiset{x};
    }
  }

  /** `Categories()` names every category. */
  lemma CategoriesComplete(c: FoodCategory)
    ensures c in Categories()
  {
    assert Categories()[CategoryIndex(c)] == c;
  }

  /**
   * Concatenating the groups of all categories, in the order of the
   * categories list, gives back every item of the list exactly once.
   */
  lemma GroupsReassembleList(items: seq<GroceryItem>)
    ensures multiset(Grouped(items, Categories())) == multiset(items)
  {
    forall c: FoodCategory ensures c in Categories() {
      CategoriesComplete(c);
    }
    GroupsReassemble(items, Categories());
  }

  /** The sizes of the groups of all categories add up to the length of the list. */
  lemma GroupSizesSumToLength(items: seq<GroceryItem>)
    ensures GroupSizes(items, Categories()) == |items|
  {
    GroupsReassembleList(items);
    assert |multiset(Grouped(items, Categories()))| == |multiset(items)|;
  }

  // ---------------------------------------------------------------------
  // The provider: the one mutable list and its operations
  // ---------------------------------------------------------------------

  /** The state the provider owns: `groceryItems`, starting out empty. */
  class GroceryProvider {
    var groceryItems: seq<GroceryItem>

    constructor ()
      ensures groceryItems == []
    {
      groceryItems := [];
    }

    /**
     * `addItem`. The id stands for the generated UUID and must be fresh; the
     * form only calls this once its guard holds.
     */
    method AddItem(id: string, name: string, category: FoodCategory, quantity: real, unit: Option<string>)
      requires AddGuard(name, quantity)
      requires id !in Ids(groceryItems)
      modifies this
      ensures groceryItems == WithNewItem(old(groceryItems), id, name, category, quantity, unit)
      ensures UniqueIds(old(groceryItems)) ==> UniqueIds(groceryItems)
      ensures ItemsByCategory(groceryItems, category)
           == ItemsByCategory(old(groceryItems), category) + [NewItem(id, name, category, quantity, unit)]
      ensures forall c :: c != category ==> ItemsByCategory(groceryItems, c) == ItemsByCategory(old(groceryItems), c)
    {
      if UniqueIds(groceryItems) {
        AddKeepsIdsUnique(groceryItems, id, name, category, quantity, unit);
      }
      forall c {
        AddThenQuery(groceryItems, id, name, category, quantity, unit, c);
      }
      groceryItems := WithNewItem(groceryItems, id, name, category, quantity, unit);
    }

    /** `removeItem`: drops every item with the id, a no-op when there is none. */
    method RemoveItem(id: string)
      modifies this
      ensures groceryItems == Removed(old(groceryItems), id)
      ensures id !in Ids(groceryItems)
      ensures id !in Ids(old(groceryItems)) ==> groceryItems == old(groceryItems)
      ensures UniqueIds(old(groceryItems)) ==> UniqueIds(groceryItems)
    {
      RemoveIdempotent(groceryItems, id);
      if id !in Ids(groceryItems) {
        RemoveAbsentIsNoOp(groceryItems, id);
      }
      if UniqueIds(groceryItems) {
        RemoveKeepsIdsUnique(groceryItems, id);
      }
      groceryItems := Removed(groceryItems, id);
    }

    /** `toggleItem`: flips `isChecked` on the items with the id. */
    method ToggleItem(id: string)
      modifies this
      ensures groceryItems == Toggled(old(groceryItems), id)
      ensures Ids(groceryItems) == Ids(old(groceryItems))
      ensures id !in Ids(old(groceryItems)) ==> groceryItems == old(groceryItems)
    {
      ToggleKeepsIds(groceryItems, id);
      if id !in Ids(groceryItems) {
        ToggleAbsentIsNoOp(groceryItems, id);
      }
      groceryItems := Toggled(groceryItems, id);
    }

    /** `updateItem`: merges `updates` into the items with the id. */
    method UpdateItem(id: string, updates: PartialGroceryItem)
      modifies this
      ensures groceryItems == Updated(old(groceryItems), id, updates)
      ensures updates.id.None? ==> Ids(groceryItems) == Ids(old(groceryItems))
      ensures id !in Ids(old(groceryItems)) ==> groceryItems == old(groceryItems)
    {
      if id !in Ids(groceryItems) {
        UpdateAbsentIsNoOp(groceryItems, id, updates);
      }
      groceryItems := Updated(groceryItems, id, updates);
    }

    /** `getItemsByCategory`: the items of one category, in list order; reads the state only. */
    function GetItemsByCategory(c: FoodCategory): (r: seq<GroceryItem>)
      reads this
      ensures r == ItemsByCategory(groceryItems, c)
      ensures SubsequenceOf(r, groceryItems)
      ensures forall x :: x in r <==> x in groceryItems && x.category == c
    {
      var r := ItemsByCategory(groceryItems, c);
      ItemsByCategoryIsFilter(groceryItems, c);
      assert forall x :: x in r <==> x in groceryItems && x.category == c by {
        forall x ensures x in r <==> x in groceryItems && x.category == c {
          InGroupIff(groceryItems, c, x);
        }
      }
      r
    }
  }

  // Typical sessions, verified against the provider's method contracts and
  // the definition of `GetItemsByCategory`.

  /** Milk and bread land in their own groups, unchecked. */
  method SessionAddTwo() {
    var p := new GroceryProvider();
    assert ItemsByCategory([], Dairy) == [] && ItemsByCategory([], Grains) == [];
    VisibleNamePassesTrim("Milk");
    VisibleNamePassesTrim("Bread");
    var milk := NewItem("1", "Milk", Dairy, 1.0, Some("gal"));
    var bread := NewItem("2", "Bread", Grains, 2.0, None);
    p.AddItem("1", "Milk", Dairy, 1.0, Some("gal"));
    assert p.groceryItems == [milk];
    assert Ids([milk]) == ["1"];
    p.AddItem("2", "Bread", Grains, 2.0, None);
    assert p.GetItemsByCategory(Dairy) == [milk];
    assert p.GetItemsByCategory(Grains) == [bread];
    assert !milk.isChecked && !bread.isChecked;
  }

  /** Toggling the apples checks them. */
  method SessionToggle() {
    var p := new GroceryProvider();
    VisibleNamePassesTrim("Apples");
    var apples := NewItem("3", "Apples", Fruits, 6.0, None);
    p.AddItem("3", "Apples", Fruits, 6.0, None);
    assert p.groceryItems == [apples];
    p.ToggleItem("3");
    assert p.GetItemsByCategory(Fruits) == [apples.(isChecked := true)];
  }

  /** Removing the eggs empties the dairy group. */
  method SessionRemove() {
    var p := new GroceryProvider();
    VisibleNamePassesTrim("Eggs");
    p.AddItem("4", "Eggs", Dairy, 12.0, None);
    p.RemoveItem("4");
    assert p.GetItemsByCategory(Dairy) == [];
  }
}
