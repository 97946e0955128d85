/**
 * The item record (Models/itemmodel.js): a reference to its shop, three
 * required scalar fields and two enums.
 */
module ItemModel {
  import opened Wrappers
  import opened Platform

  /** The fourteen menu categories. */
  datatype Category =
    | Snacks | GujratiThali | Breakfast | Lunch | MainCourse | Desserts | Pizza
    | Burgers | Sandwiches | SouthIndian | NorthIndian | Chinese | FastFood | Others

  /** The enum's strings, in the order the schema lists them. */
  const CategoryNames: seq<string> := [
    "Snacks", "Gujrati Thali", "Breakfast", "Lunch", "Main Course", "Desserts", "Pizza",
    "Burgers", "Sandwiches", "South Indian", "North Indian", "Chinese", "Fast Food", "Others"]

  function CategoryName(c: Category): (s: string)
    ensures s in CategoryNames
  {
    match c
    case Snacks => "Snacks"
    case GujratiThali => "Gujrati Thali"
    case Breakfast => "Breakfast"
    case Lunch => "Lunch"
    case MainCourse => "Main Course"
    case Desserts => "Desserts"
    case Pizza => "Pizza"
    case Burgers => "Burgers"
    case Sandwiches => "Sandwiches"
    case SouthIndian => "South Indian"
    case NorthIndian => "North Indian"
    case Chinese => "Chinese"
    case FastFood => "Fast Food"
    case Others => "Others"
  }

  /** The enum check (case-sensitive, exact match). */
  function ParseCategory(s: string): (r: Option<Category>)
    ensures r.Some? <==> s in CategoryNames
    ensures r.Some? ==> CategoryName(r.value) == s
  {
    if s == "Snacks" then Some(Snacks)
    else if s == "Gujrati Thali" then Some(GujratiThali)
    else if s == "Breakfast" then Some(Breakfast)
    else if s == "Lunch" then Some(Lunch)
    else if s == "Main Course" then Some(MainCourse)
    else if s == "Desserts" then Some(Desserts)
    else if s == "Pizza" then Some(Pizza)
    else if s == "Burgers" then Some(Burgers)
    else if s == "Sandwiches" then Some(Sandwiches)
    else if s == "South Indian" then Some(SouthIndian)
    else if s == "North Indian" then Some(NorthIndian)
    else if s == "Chinese" then Some(Chinese)
    else if s == "Fast Food" then Some(FastFood)
    else if s == "Others" then Some(Others)
    else None
  }

  /** Exactly fourteen distinct names, and each category's name parses back to it. */
  lemma CategoriesAreFourteen(c: Category)
    ensures |CategoryNames| == 14
    ensures forall i, j | 0 <= i < j < |CategoryNames| :: CategoryNames[i] != CategoryNames[j]
    ensures ParseCategory(CategoryName(c)) == Some(c)
  {
  }

  /** The `foodtype` enum: "veg", "non-veg". */
  datatype FoodType = Veg | NonVeg

  function FoodTypeName(f: FoodType): string {
    match f
    case Veg => "veg"
    case NonVeg => "non-veg"
  }

  function ParseFoodType(s: string): (r: Option<FoodType>)
    ensures r.Some? <==> s in {"veg", "non-veg"}
    ensures r.Some? ==> FoodTypeName(r.value) == s
  {
    if s == "veg" then Some(Veg) else if s == "non-veg" then Some(NonVeg) else None
  }

  /** A stored item. `shop` is required, as are the name, the image path and the price;
      the price is a JavaScript number. */
  datatype Item = Item(
    shop: Oid,
    itemname: string,
    foodimage: string,
    price: real,
    category: Category,
    foodtype: FoodType)
}
