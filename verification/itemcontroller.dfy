/**
 * addItem (Controllers/itemcontroller.js): validate the body, require an
 * uploaded image, find a shop the requester owns, create the item in it and
 * append the item's id to that shop's list. The route runs the
 * authentication gate first, so a requester is always present; the route's
 * `shopId` parameter is accepted and never read.
 */
module ItemController {
  import opened Wrappers
  import opened Platform
  import opened ShopModel
  import opened ItemModel
  import opened Store

  /** `req.body` of addItem. `price` is `None` when absent or not a number Joi accepts. */
  datatype ItemBody = ItemBody(
    itemname: Option<string>, price: Option<real>, category: Option<string>, foodtype: Option<string>,
    unknownKeys: bool)

  /** A body that passed `itemSchema.create`. */
  datatype ItemForm = ItemForm(itemname: string, price: real, category: Category, foodtype: FoodType)

  /** `itemSchema.create.validate`: name and price required, category one of the fourteen,
      foodtype "veg" or "non-veg", no other key. */
  function CheckItem(b: ItemBody): (r: Option<ItemForm>)
    ensures r.Some? <==>
      && !b.unknownKeys && JoiRequired(b.itemname) && b.price.Some?
      && b.category.Some? && b.category.value in CategoryNames
      && b.foodtype.Some? && b.foodtype.value in {"veg", "non-veg"}
    ensures r.Some? ==>
      && r.value.itemname == b.itemname.value && r.value.price == b.price.value
      && CategoryName(r.value.category) == b.category.value
      && FoodTypeName(r.value.foodtype) == b.foodtype.value
  {
    if b.unknownKeys || !JoiRequired(b.itemname) || b.price.None? then None
    else if b.category.None? || ParseCategory(b.category.value).None? then None
    else if b.foodtype.None? || ParseFoodType(b.foodtype.value).None? then None
    else Some(ItemForm(b.itemname.value, b.price.value, ParseCategory(b.category.value).value,
                       ParseFoodType(b.foodtype.value).value))
  }

  /** Some stored shop is owned by this user (`Shop.findOne({ owner })` finds one). */
  predicate OwnsAShop(shops: map<Oid, Shop>, owner: Oid) {
    exists sid | sid in shops :: shops[sid].owner == owner
  }

  /** The image check: a file with a non-empty path. */
  predicate HasImage(file: Option<Upload>) {
    file.Some? && file.value.path != ""
  }

  /** Appending a fresh item's id to the list of the shop it points at keeps every
      listed id pointing at a stored item of that shop; earlier entries are unchanged. */
  lemma AppendKeepsItemsInShops(shops: map<Oid, Shop>, items: map<Oid, Item>, id: Oid, item: Item)
    requires ItemsBelongToShops(shops, items)
    requires item.shop in shops && id !in items
    ensures var sid := item.shop;
      var after := shops[sid := shops[sid].(items := shops[sid].items + [id])];
      && ItemsBelongToShops(after, items[id := item])
      && after[sid].items[..|shops[sid].items|] == shops[sid].items
  {
    var sid := item.shop;
    var after := shops[sid := shops[sid].(items := shops[sid].items + [id])];
    var items' := items[id := item];
    forall s, k | s in after && 0 <= k < |after[s].items|
      ensures after[s].items[k] in items' && items'[after[s].items[k]].shop == s
    {
      if s != sid || k < |shops[sid].items| {
        assert after[s].items[k] == shops[s].items[k];
      }
    }
  }

  method AddItem(db: Db, body: ItemBody, file: Option<Upload>, requester: Oid, shopId: RawId)
    returns (reply: Reply, created: Option<(Oid, Item)>)
    requires db.Valid()
    modifies db
    ensures db.Valid()
    ensures db.users == old(db.users)
    ensures CheckItem(body).None? ==> reply == Reply(400, SchemaError)
    ensures CheckItem(body).Some? && !HasImage(file) ==> reply == Reply(400, Text("Image is required"))
    ensures CheckItem(body).Some? && HasImage(file) && !OwnsAShop(old(db.shops), requester) ==>
      reply == Reply(404, Text("Shop not found for this user"))
    ensures reply.status == 201 <==> CheckItem(body).Some? && HasImage(file) && OwnsAShop(old(db.shops), requester)
    ensures reply.status != 201 ==>
      db.shops == old(db.shops) && db.items == old(db.items) && db.nextId == old(db.nextId) && created.None?
    ensures reply.status == 201 ==>
      var f := CheckItem(body).value;
      var id := old(db.nextId);
      && created.Some? && created.value.0 == id
      && var item := created.value.1;
      && var sid := item.shop;
      && reply == Reply(201, Text("Item added successfully"))
      && sid in old(db.shops) && old(db.shops)[sid].owner == requester
      && item == Item(sid, f.itemname, file.value.path, f.price, f.category, f.foodtype)
      && id !in old(db.items)
      && db.nextId == id + 1
      && db.items == old(db.items)[id := item]
      && db.shops == old(db.shops)[sid := old(db.shops)[sid].(items := old(db.shops)[sid].items + [id])]
  {
    created := None;
    var form := CheckItem(body);
    if form.None? {
      return Reply(400, SchemaError), created;
    }
    if !HasImage(file) {
      return Reply(400, Text("Image is required")), created;
    }
    if !OwnsAShop(db.shops, requester) {
      return Reply(404, Text("Shop not found for this user")), created;
    }
    var sid :| sid in db.shops && db.shops[sid].owner == requester;
    var f := form.value;
    var id := db.NewId();
    var item := Item(sid, f.itemname, file.value.path, f.price, f.category, f.foodtype);
    AppendKeepsItemsInShops(db.shops, db.items, id, item);
    db.items := db.items[id := item];
    var shop := db.shops[sid];
    db.shops := db.shops[sid := shop.(items := shop.items + [id])];
    created := Some((id, item));
    reply := Reply(201, Text("Item added successfully"));
  }
}
