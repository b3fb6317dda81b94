# Grocery list manager

This project models the in-memory grocery list of the CookSmart app. The list
provider owns a single ordered list of grocery items. Each mutator replaces
that list with a new one:

- `addItem` appends a fresh, unchecked item.
- `removeItem` filters out every item with the given id.
- `toggleItem` flips `isChecked` on the items with the given id.
- `updateItem` shallow-merges a partial record into the items with the given id.

`getItemsByCategory` filters the list by category. `categories` is the fixed,
ordered list of the eleven food categories. The grocery list screen
(`app/(tabs)/grocery-list.tsx`, lines 48-52) builds its grouped view from
`categories` and, written inline, the same filter that `getItemsByCategory`
runs: one section per category, in the order of `categories`. `Grouped` models
those sections concatenated in order.

Files:

- `wrappers.dfy`: module `Wrappers` holds `Option`. It stands for TypeScript's
  optional values and absent keys.
- `grocery_item.dfy`: module `GroceryModel` holds the `FoodCategory` union and
  the `GroceryItem` record. It also holds `PartialGroceryItem`, the shape of
  `Partial<GroceryItem>`, and the string label of each category.
- `add_item_guard.dfy`: module `AddItemGuard` holds the add form's check before
  it calls `addItem`: `name.trim()` must be non-empty and the quantity positive.
  It includes a model of `String.prototype.trim`.
- `grocery_context.dfy`: module `GroceryContext` holds the pure list operations
  and their lemmas. It also holds `GroceryProvider`, a class whose one field
  `groceryItems` is the provider's state. Every method assigns that field the
  result of one of the pure operations.

Modelling choices:

- The id from `uuid.v4()` is a parameter of `AddItem`, which requires it to be
  fresh in the current list.
- `quantity` is a JavaScript number. The code never computes with it, so it is
  an exact `real`.
- `AddItem` requires the form's guard (`AddGuard`), because the form is its only
  caller. The pure `WithNewItem` has no precondition, because `addItem` itself
  checks nothing.
- In `PartialGroceryItem`, every field is an `Option`. `unit` is an
  `Option<Option<string>>`, so that a `unit` key present with the value
  `undefined` clears the unit, as the object spread does.
- Id uniqueness is not a class invariant. `updateItem` accepts an `id` key and
  can break it (`UpdateCanDuplicateIds`). Each operation instead states when
  uniqueness is preserved.

Two facts about the code that the model keeps:

- Ids can change: the spread in `updateItem` (GroceryContext.tsx:73) overwrites
  the id when the partial record has an `id` key.
- `removeItem` (GroceryContext.tsx:59) removes every item with the id, not just
  one.

## Model

| member | source | states |
|---|---|---|
| `GroceryModel.Label` | frontend/CookSmart/models/GroceryItem.ts:1-12 | every category has a non-empty string label, and `FromLabel` maps that label back to the category |
| `GroceryModel.FromLabelIsLabel` | frontend/CookSmart/models/GroceryItem.ts:1-12 | the union is closed: a string is a category exactly when it is that category's label |
| `GroceryModel.LabelInjective` | frontend/CookSmart/models/GroceryItem.ts:1-12 | the eleven labels are pairwise distinct |
| `AddItemGuard.AddGuard` | frontend/CookSmart/components/AddGroceryItemModal.tsx:38 | the form lets an add through exactly when the name has a character other than white space and the quantity is positive |
| `AddItemGuard.Trim` | frontend/CookSmart/components/AddGroceryItemModal.tsx:38 | the trimmed name is an infix of the input with only white space dropped at either end; it neither starts nor ends with white space; it is empty exactly when the input is all white space |
| `AddItemGuard.TrimIdempotent` | frontend/CookSmart/components/AddGroceryItemModal.tsx:38-40 | trimming the already trimmed name changes nothing |
| `AddItemGuard.TrimmedInputPassesGuard` | frontend/CookSmart/components/AddGroceryItemModal.tsx:38-42 | the trimmed name the form passes to `addItem` still satisfies the guard and is non-empty |
| `GroceryContext.Categories` | frontend/CookSmart/contexts/GroceryContext.tsx:27-39 | eleven entries, `vegetables` first and `other` last, with no category repeated |
| `GroceryContext.CategoryIndex` | frontend/CookSmart/contexts/GroceryContext.tsx:27-39 | every category sits at one position of the categories list, and at no other |
| `GroceryContext.CategoriesComplete` | frontend/CookSmart/contexts/GroceryContext.tsx:27-39 | no category is missing from the categories list |
| `GroceryContext.NewItem` | frontend/CookSmart/contexts/GroceryContext.tsx:47-54 | the new item carries the supplied id and the given name, category, quantity and unit (absent if no unit was given), and is unchecked |
| `GroceryContext.WithNewItem` | frontend/CookSmart/contexts/GroceryContext.tsx:55 | the old list, unchanged and in order, followed by exactly one new item |
| `GroceryContext.AddKeepsIdsUnique` | frontend/CookSmart/contexts/GroceryContext.tsx:48-55 | with a fresh id, adding keeps all ids unique |
| `GroceryContext.AddThenQuery` | frontend/CookSmart/contexts/GroceryContext.tsx:55-79 | after an add, the group of the new item's category is the old group followed by the new item; every other group is unchanged |
| `GroceryContext.Removed` | frontend/CookSmart/contexts/GroceryContext.tsx:59 | no remaining item has the removed id |
| `GroceryContext.RemovedIsFilter` | frontend/CookSmart/contexts/GroceryContext.tsx:58-60 | the rest is an order-preserving subsequence of the old list; it keeps every item with another id; its length is the old length minus the number of items with that id |
| `GroceryContext.RemoveAbsentIsNoOp` | frontend/CookSmart/contexts/GroceryContext.tsx:58-60 | removing an id no item has leaves the list identical |
| `GroceryContext.RemoveIdempotent` | frontend/CookSmart/contexts/GroceryContext.tsx:58-60 | after a removal the id is gone, and removing it a second time changes nothing |
| `GroceryContext.RemoveKeepsIdsUnique` | frontend/CookSmart/contexts/GroceryContext.tsx:58-60 | removal keeps unique ids unique |
| `GroceryContext.RemoveUndoesAdd` | frontend/CookSmart/contexts/GroceryContext.tsx:41-60 | removing the id just added (a fresh one) gives back the list as it was before the add |
| `GroceryContext.Toggle` | frontend/CookSmart/contexts/GroceryContext.tsx:65 | the toggled item differs from the original in `isChecked` only, and that flag is flipped |
| `GroceryContext.Toggled` | frontend/CookSmart/contexts/GroceryContext.tsx:62-68 | length and order are kept; each item changes at most in `isChecked`; the flag flips exactly on the items whose id matches |
| `GroceryContext.ToggleKeepsIds` | frontend/CookSmart/contexts/GroceryContext.tsx:62-68 | the sequence of ids is unchanged, so unique ids stay unique |
| `GroceryContext.ToggleAbsentIsNoOp` | frontend/CookSmart/contexts/GroceryContext.tsx:62-68 | toggling an id no item has leaves the list identical |
| `GroceryContext.ToggleInvolution` | frontend/CookSmart/contexts/GroceryContext.tsx:62-68 | toggling the same id twice restores the original list |
| `GroceryContext.Merge` | frontend/CookSmart/contexts/GroceryContext.tsx:73 | each field present in the partial record overwrites the item's field; each absent field keeps the item's value (for `unit`, a present `undefined` clears it) |
| `GroceryContext.MergeLaws` | frontend/CookSmart/contexts/GroceryContext.tsx:73 | merging `{}` is the identity, and merging the same record twice is merging it once |
| `GroceryContext.Updated` | frontend/CookSmart/contexts/GroceryContext.tsx:70-76 | length and order are kept; items with another id are untouched; each matching item becomes the merge of itself with the update |
| `GroceryContext.UpdateAbsentIsNoOp` | frontend/CookSmart/contexts/GroceryContext.tsx:70-76 | updating an id no item has leaves the list identical |
| `GroceryContext.UpdateQuantityOnly` | frontend/CookSmart/contexts/GroceryContext.tsx:70-76 | an update of `{ quantity: q }` sets the quantity of the matching items and changes no other field or item |
| `GroceryContext.UpdateIdempotent` | frontend/CookSmart/contexts/GroceryContext.tsx:70-76 | applying the same update twice equals applying it once, even when the update rewrites the id |
| `GroceryContext.UpdateWithoutIdKeepsIds` | frontend/CookSmart/contexts/GroceryContext.tsx:70-76 | an update without an `id` key keeps the sequence of ids |
| `GroceryContext.UpdateKeepsIdsUnique` | frontend/CookSmart/contexts/GroceryContext.tsx:70-76 | unique ids stay unique unless the update's `id` key is an id that another item already has |
| `GroceryContext.UpdateCanDuplicateIds` | frontend/CookSmart/contexts/GroceryContext.tsx:15 | because `Partial<GroceryItem>` admits `id`, updating one of two items with the other's id leaves two items with the same id |
| `GroceryContext.ItemsByCategory` | frontend/CookSmart/contexts/GroceryContext.tsx:79 | every returned item has the requested category |
| `GroceryContext.ItemsByCategoryIsFilter` | frontend/CookSmart/contexts/GroceryContext.tsx:78-80 | the group is an order-preserving subsequence of the list; it holds every item of the category, and as many items as the list has of that category |
| `GroceryContext.InGroupIff` | frontend/CookSmart/contexts/GroceryContext.tsx:78-80 | an item is in a category's group if and only if it is in the list with that category |
| `GroceryContext.Grouped` | frontend/CookSmart/contexts/GroceryContext.tsx:27-80 | the grouped view (the screen's sections, in the order of the categories list) holds exactly as many items as its sections together |
| `GroceryContext.ItemInExactlyOneGroup` | frontend/CookSmart/contexts/GroceryContext.tsx:27-80 | over the categories list, each item of the list lies in exactly one group: the one for its own category |
| `GroceryContext.GroupsReassembleList` | frontend/CookSmart/contexts/GroceryContext.tsx:27-80 | concatenating the groups in the order of the categories list is a permutation of the list (a multiset equality) |
| `GroceryContext.GroupSizesSumToLength` | frontend/CookSmart/contexts/GroceryContext.tsx:27-80 | the sizes of the groups of all categories add up to the length of the list |
| `GroceryContext.GroceryProvider.constructor` | frontend/CookSmart/contexts/GroceryContext.tsx:25 | the provider starts with an empty list |
| `GroceryContext.GroceryProvider.AddItem` | frontend/CookSmart/contexts/GroceryContext.tsx:41-56 | the new state is the old list followed by the new item; unique ids stay unique; the item closes its category's group and leaves the other groups as they were |
| `GroceryContext.GroceryProvider.RemoveItem` | frontend/CookSmart/contexts/GroceryContext.tsx:58-60 | the new state is the filtered list, with no item of that id; it is a no-op on an absent id; unique ids stay unique |
| `GroceryContext.GroceryProvider.ToggleItem` | frontend/CookSmart/contexts/GroceryContext.tsx:62-68 | the new state is the toggled list; the ids are unchanged; it is a no-op on an absent id |
| `GroceryContext.GroceryProvider.UpdateItem` | frontend/CookSmart/contexts/GroceryContext.tsx:70-76 | the new state is the updated list; without an `id` key the ids are unchanged; it is a no-op on an absent id |
| `GroceryContext.GroceryProvider.GetItemsByCategory` | frontend/CookSmart/contexts/GroceryContext.tsx:78-80 | reads the state only; returns the order-preserving subsequence of the items of the category, and an item is in it exactly when it is in the list with that category |

The client methods `SessionAddTwo`, `SessionToggle` and `SessionRemove` are
three sessions verified against the provider's method contracts and the
definition of `GetItemsByCategory`:

- Milk and bread land in their own groups, unchecked.
- Toggled apples are checked.
- Removing the eggs empties the dairy group.

## Left out

- React plumbing is not modelled: the context object, `useState`, the provider JSX, and the error thrown by `useGrocery` outside a provider. It is framework wiring, not list logic.
- Render batching is not modelled. Each mutator reads its render's snapshot, so two calls in one render can lose an update. The model applies every call to the current state.
- UUID generation is a foreign library call. It is replaced by an id the caller supplies, which must be fresh.
- Only the add form's guard is modelled. The form screen, its `Number(...)` parsing of the quantity text, its default category `other`, and its `unit.trim() || undefined` are user interface.
- The row and section renderers, category display labels and the hidden empty sections are pure rendering. So is the empty-list message.
- The Supabase client is network I/O and is not part of this model.
- Quantity is an exact real. JavaScript's floating point, `NaN` and `Infinity` are not modelled.
- Strings are sequences of Unicode characters, not UTF-16 code units. Only equality and the trim white-space set matter here, and both agree.
- In a partial record, a required field (`id`, `name`, `category`, `quantity`, `isChecked`) cannot be present with the value `undefined`. TypeScript's default settings allow that, and the spread would then leave an ill-typed item.
