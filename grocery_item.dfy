/**
 * The data types of the grocery list: the closed union of food categories
 * and the grocery item record (models/GroceryItem.ts), together with the
 * shape of a partial item that the update operation merges in.
 */
module GroceryModel {
  import opened Wrappers

  /** The eleven food categories, in the order the union declares them. */
  datatype FoodCategory =
    | Vegetables
    | Fruits
    | Poultry
    | Meat
    | Dairy
    | Grains
    | Canned
    | Frozen
    | Snacks
    | Beverages
    | Other

  /**
   * A grocery item. `quantity` is a JavaScript number, modelled as an exact
   * real; `unit` is an optional string.
   */
  datatype GroceryItem = GroceryItem(
    id: string,
    name: string,
    category: FoodCategory,
    quantity: real,
    unit: Option<string>,
    isChecked: bool)

  /**
   * `Partial<GroceryItem>`: every field may be absent (`None`). For `unit`,
   * which is itself optional, `Some(None)` is a key that is present with the
   * value `undefined`, which the object spread copies over the old unit.
   */
  datatype PartialGroceryItem = PartialGroceryItem(
    id: Option<string>,
    name: Option<string>,
    category: Option<FoodCategory>,
    quantity: Option<real>,
    unit: Option<Option<string>>,
    isChecked: Option<bool>)

  /** The partial record with no key at all (`{}`). */
  const NoUpdates := PartialGroceryItem(None, None, None, None, None, None)

  /** The string literal that represents a category at run time. */
  function Label(c: FoodCategory): (s: string)
    ensures |s| > 0
    ensures FromLabel(s) == Some(c)
  {
    match c
    case Vegetables => "vegetables"
    case Fruits => "fruits"
    case Poultry => "poultry"
    case Meat => "meat"
    case Dairy => "dairy"
    case Grains => "grains"
    case Canned => "canned"
    case Frozen => "frozen"
    case Snacks => "snacks"
    case Beverages => "beverages"
    case Other => "other"
  }

  /**
   * The category a string denotes, if the union admits it: the union is
   * closed, so every other string is refused.
   */
  function FromLabel(s: string): (r: Option<FoodCategory>)
  {
    if s == "vegetables" then Some(Vegetables)
    else if s == "fruits" then Some(Fruits)
    else if s == "poultry" then Some(Poultry)
    else if s == "meat" then Some(Meat)
    else if s == "dairy" then Some(Dairy)
    else if s == "grains" then Some(Grains)
    else if s == "canned" then Some(Canned)
    else if s == "frozen" then Some(Frozen)
    else if s == "snacks" then Some(Snacks)
    else if s == "beverages" then Some(Beverages)
    else if s == "other" then Some(Other)
    else None
  }

  /** A string is a category exactly when it is one of the eleven labels. */
  lemma FromLabelIsLabel(s: string, c: FoodCategory)
    ensures FromLabel(s) == Some(c) <==> s == Label(c)
  {
    if FromLabel(s) == Some(c) {
      match c
      case Vegetables =>
      case Fruits =>
      case Poultry =>
      case Meat =>
      case Dairy =>
      case Grains =>
      case Canned =>
      case Frozen =>
      case Snacks =>
      case Beverages =>
      case Other =>
    }
  }

  /** Distinct categories have distinct labels. */
  lemma LabelInjective(a: FoodCategory, b: FoodCategory)
    ensures Label(a) == Label(b) ==> a == b
  {
    if Label(a) == Label(b) {
      assert Some(a) == FromLabel(Label(a)) == FromLabel(Label(b)) == Some(b);
    }
  }
}
