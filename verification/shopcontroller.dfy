/**
 * The shop handlers (Controllers/shopcontroller.js): addshop, updateshop,
 * getshopbyID, getallshop and deleteshop. `requester` is `req.user._id`
 * when the request carries a user, and `None` when it does not; the shop
 * routes mount no authentication, so on them it is always `None`.
 */
module ShopController {
  import opened Wrappers
  import opened Platform
  import opened UserModel
  import opened ShopModel
  import opened Store

  /** `req.body` of addshop. */
  datatype ShopBody = ShopBody(
    shopname: Option<string>, city: Option<string>, state: Option<string>, address: Option<string>,
    unknownKeys: bool)

  /** `req.body` of updateshop, passed to the store without validation. The modelled
      body carries the name, address fields, image and `owner` (cast to an ObjectId on
      the way in); it has no `items` field, so a body that rewrites the item list is
      not modelled. */
  datatype ShopPatch = ShopPatch(
    shopname: Option<string>, city: Option<string>, state: Option<string>, address: Option<string>,
    image: Option<string>, owner: Option<RawId>)

  /** `shopSchema.create`: a name of at least two UTF-16 code units and a city, state
      and address, all required, and no other key. */
  predicate CreateSchemaAccepts(b: ShopBody) {
    && !b.unknownKeys
    && JoiRequired(b.shopname) && Utf16Length(b.shopname.value) >= 2
    && JoiRequired(b.city) && JoiRequired(b.state) && JoiRequired(b.address)
  }

  /** addshop: validate, require an image, require a user; the new shop belongs to that
      user, shows the uploaded file's path and lists no items. */
  method AddShop(db: Db, body: ShopBody, file: Option<Upload>, requester: Option<Oid>)
    returns (reply: Reply, created: Option<(Oid, Shop)>)
    requires db.Valid()
    modifies db
    ensures db.Valid()
    ensures db.users == old(db.users) && db.items == old(db.items)
    ensures !CreateSchemaAccepts(body) ==> reply == Reply(400, SchemaError)
    ensures CreateSchemaAccepts(body) && file.None? ==> reply == Reply(400, Text("Image is required"))
    ensures CreateSchemaAccepts(body) && file.Some? && requester.None? ==> reply == Reply(401, Text("Unauthorized"))
    ensures reply.status == 201 <==> CreateSchemaAccepts(body) && file.Some? && requester.Some?
    ensures reply.status != 201 ==> db.shops == old(db.shops) && db.nextId == old(db.nextId) && created.None?
    ensures reply.status == 201 ==>
      var id := old(db.nextId);
      var shop := Shop(body.shopname.value, requester.value, body.city.value, body.state.value,
                       body.address.value, file.value.path, []);
      && reply == Reply(201, Text("Shop created successfully"))
      && id !in old(db.shops)
      && db.nextId == id + 1
      && db.shops == old(db.shops)[id := shop]
      && created == Some((id, shop))
  {
    created := None;
    if !CreateSchemaAccepts(body) {
      return Reply(400, SchemaError), created;
    }
    if file.None? {
      return Reply(400, Text("Image is required")), created;
    }
    if requester.None? {
      return Reply(401, Text("Unauthorized")), created;
    }
    var id := db.NewId();
    var shop := Shop(body.shopname.value, requester.value, body.city.value, body.state.value,
                     body.address.value, file.value.path, []);
    db.shops := db.shops[id := shop];
    created := Some((id, shop));
    reply := Reply(201, Text("Shop created successfully"));
  }

  /** The body updateshop hands to the store: an uploaded file's path replaces `image`. */
  function WithUpload(patch: ShopPatch, file: Option<Upload>): (p: ShopPatch)
    ensures file.Some? ==> p.image == Some(file.value.path)
    ensures file.None? ==> p == patch
    ensures p.(image := patch.image) == patch
  {
    if file.Some? then patch.(image := Some(file.value.path)) else patch
  }

  /** The shop after `findByIdAndUpdate(id, body)`: each present field overwrites the stored one.
      The modelled body has no `items` field, so the item list is kept. */
  function ApplyPatch(s: Shop, p: ShopPatch): (r: Shop)
    requires p.owner.Some? ==> p.owner.value.ObjectId?
    ensures r.shopname == p.shopname.GetOr(s.shopname) && r.city == p.city.GetOr(s.city)
    ensures r.state == p.state.GetOr(s.state) && r.address == p.address.GetOr(s.address)
    ensures r.image == p.image.GetOr(s.image)
    ensures r.owner == (if p.owner.Some? then p.owner.value.oid else s.owner)
    ensures r.items == s.items
  {
    Shop(p.shopname.GetOr(s.shopname),
         if p.owner.Some? then p.owner.value.oid else s.owner,
         p.city.GetOr(s.city), p.state.GetOr(s.state), p.address.GetOr(s.address),
         p.image.GetOr(s.image), s.items)
  }

  /** updateshop: reject a malformed id, fold the upload into the body, update by id.
      There is no ownership check and the update schema is never applied, so any
      caller can rename a shop or hand it to another owner. An `owner` that is not an
      ObjectId fails the cast and reaches the catch (500). */
  method UpdateShop(db: Db, id: RawId, patch: ShopPatch, file: Option<Upload>)
    returns (reply: Reply, updated: Option<Shop>)
    requires db.Valid()
    modifies db
    ensures db.Valid()
    ensures db.users == old(db.users) && db.items == old(db.items) && db.nextId == old(db.nextId)
    ensures id.NotAnObjectId? ==> reply == Reply(400, Text("Invalid shop ID"))
    ensures var p := WithUpload(patch, file);
      id.ObjectId? && p.owner == Some(NotAnObjectId) ==> reply == Reply(500, ExceptionText)
    ensures id.ObjectId? && patch.owner != Some(NotAnObjectId) && id.oid !in old(db.shops) ==>
      reply == Reply(404, Text("Shop not found"))
    ensures reply.status == 200 <==> id.ObjectId? && patch.owner != Some(NotAnObjectId) && id.oid in old(db.shops)
    ensures reply.status != 200 ==> db.shops == old(db.shops) && updated.None?
    ensures reply.status == 200 ==>
      var s := ApplyPatch(old(db.shops)[id.oid], WithUpload(patch, file));
      && reply == Reply(200, Text("Shop updated successfully"))
      && db.shops == old(db.shops)[id.oid := s]
      && updated == Some(s)
  {
    updated := None;
    if id.NotAnObjectId? {
      return Reply(400, Text("Invalid shop ID")), updated;
    }
    var p := WithUpload(patch, file);
    if p.owner == Some(NotAnObjectId) {
      return Reply(500, ExceptionText), updated;
    }
    if id.oid !in db.shops {
      return Reply(404, Text("Shop not found")), updated;
    }
    var s := ApplyPatch(db.shops[id.oid], p);
    db.shops := db.shops[id.oid := s];
    updated := Some(s);
    reply := Reply(200, Text("Shop updated successfully"));
  }

  /** `populate("owner", "username email phone")`: the owner's id and three fields, or
      `null` when the owner no longer exists. */
  datatype OwnerView = OwnerView(id: Oid, username: string, email: string, phone: nat)

  datatype ShopView = ShopView(id: Oid, shop: Shop, owner: Option<OwnerView>)

  function ViewOf(users: map<Oid, User>, id: Oid, s: Shop): (v: ShopView)
    ensures v.id == id && v.shop == s
    ensures v.owner.Some? <==> s.owner in users
    ensures v.owner.Some? ==> v.owner.value.id == s.owner && v.owner.value.email == users[s.owner].email
  {
    if s.owner in users then
      var u := users[s.owner];
      ShopView(id, s, Some(OwnerView(s.owner, u.username, u.email, u.phone)))
    else ShopView(id, s, None)
  }

  /** getshopbyID: reject a malformed id, then find by id; read-only. */
  function GetShopById(users: map<Oid, User>, shops: map<Oid, Shop>, id: RawId): (r: (Reply, Option<ShopView>))
    ensures id.NotAnObjectId? ==> r == (Reply(400, Text("Invalid shop ID")), None)
    ensures id.ObjectId? && id.oid !in shops ==> r == (Reply(404, Text("Shop not found")), None)
    ensures r.0.status == 200 <==> id.ObjectId? && id.oid in shops
    ensures r.0.status == 200 ==> r.1 == Some(ViewOf(users, id.oid, shops[id.oid]))
  {
    if id.NotAnObjectId? then (Reply(400, Text("Invalid shop ID")), None)
    else if id.oid !in shops then (Reply(404, Text("Shop not found")), None)
    else (Reply(200, NoMessage), Some(ViewOf(users, id.oid, shops[id.oid])))
  }

  /** The keys of `m` below `bound`, in increasing order. `find()` without a sort
      promises no order; listing by id is this model's choice. */
  function KeysBelow(m: map<Oid, Shop>, bound: nat): (ids: seq<Oid>)
    ensures forall k | 0 <= k < |ids| :: ids[k] in m && ids[k] < bound
    ensures forall id | id in m && id < bound :: id in ids
    ensures forall j, k | 0 <= j < k < |ids| :: ids[j] < ids[k]
  {
    if bound == 0 then []
    else
      var prefix := KeysBelow(m, bound - 1);
      if bound - 1 in m then prefix + [bound - 1] else prefix
  }

  function ViewsOf(users: map<Oid, User>, shops: map<Oid, Shop>, ids: seq<Oid>): (vs: seq<ShopView>)
    requires forall k | 0 <= k < |ids| :: ids[k] in shops
    ensures |vs| == |ids|
    ensures forall k | 0 <= k < |ids| :: vs[k] == ViewOf(users, ids[k], shops[ids[k]])
  {
    if ids == [] then [] else [ViewOf(users, ids[0], shops[ids[0]])] + ViewsOf(users, shops, ids[1..])
  }

  /** getallshop: every shop exactly once (listed by id), with `total` its count. */
  method GetAllShops(db: Db) returns (reply: Reply, total: nat, data: seq<ShopView>)
    requires db.Valid()
    ensures reply.status == 200
    ensures total == |data| == |db.shops|
    ensures forall k | 0 <= k < |data| :: data[k].id in db.shops && data[k] == ViewOf(db.users, data[k].id, db.shops[data[k].id])
    ensures forall id | id in db.shops :: exists k | 0 <= k < |data| :: data[k].id == id
    ensures forall j, k | 0 <= j < k < |data| :: data[j].id < data[k].id
  {
    var users, shops, bound := db.users, db.shops, db.nextId;
    assert forall id | id in shops :: id < bound;
    var ids := KeysBelow(shops, bound);
    data := ViewsOf(users, shops, ids);
    ListingCoversShops(users, shops, bound, ids, data);
    total := |data|;
    reply := Reply(200, NoMessage);
  }

  lemma ListingCoversShops(users: map<Oid, User>, shops: map<Oid, Shop>, bound: nat, ids: seq<Oid>, data: seq<ShopView>)
    requires forall id | id in shops :: id < bound
    requires ids == KeysBelow(shops, bound) && data == ViewsOf(users, shops, ids)
    ensures |data| == |shops|
    ensures forall k | 0 <= k < |data| :: data[k].id in shops && data[k] == ViewOf(users, data[k].id, shops[data[k].id])
    ensures forall id | id in shops :: exists k | 0 <= k < |data| :: data[k].id == id
    ensures forall j, k | 0 <= j < k < |data| :: data[j].id < data[k].id
  {
    assert forall k | 0 <= k < |data| :: data[k].id == ids[k];
    forall id | id in shops ensures exists k | 0 <= k < |data| :: data[k].id == id {
      var k :| 0 <= k < |ids| && ids[k] == id;
      assert data[k].id == id;
    }
    CountDistinctKeys(shops, ids);
  }

  /** An increasing list of exactly the keys of `m` has one entry per key. */
  lemma CountDistinctKeys(m: map<Oid, Shop>, ids: seq<Oid>)
    requires forall k | 0 <= k < |ids| :: ids[k] in m
    requires forall id | id in m :: id in ids
    requires forall j, k | 0 <= j < k < |ids| :: ids[j] < ids[k]
    ensures |ids| == |m|
  {
    var s := set k | 0 <= k < |ids| :: ids[k];
    assert s == m.Keys;
    DistinctCard(ids);
  }

  lemma {:induction false} DistinctCard(ids: seq<Oid>)
    requires forall j, k | 0 <= j < k < |ids| :: ids[j] < ids[k]
    ensures |set k | 0 <= k < |ids| :: ids[k]| == |ids|
  {
    if ids != [] {
      var last := |ids| - 1;
      DistinctCard(ids[..last]);
      var before := set k | 0 <= k < last :: ids[..last][k];
      var all := set k | 0 <= k < |ids| :: ids[k];
      assert all == before + {ids[last]};
      assert ids[last] !in before;
    }
  }

  /** deleteshop: reject a malformed id, then delete the shop only if both its id and its
      owner match. Reading `req.user._id` without a user throws (500). Items of a deleted
      shop stay in place. */
  method DeleteShop(db: Db, id: RawId, requester: Option<Oid>) returns (reply: Reply)
    requires db.Valid()
    modifies db
    ensures db.Valid()
    ensures db.users == old(db.users) && db.items == old(db.items) && db.nextId == old(db.nextId)
    ensures id.NotAnObjectId? ==> reply == Reply(400, Text("Invalid shop ID"))
    ensures id.ObjectId? && requester.None? ==> reply == Reply(500, ExceptionText)
    ensures reply.status == 200 <==>
      id.ObjectId? && requester.Some? && id.oid in old(db.shops) && old(db.shops)[id.oid].owner == requester.value
    ensures id.ObjectId? && requester.Some? && reply.status != 200 ==>
      reply == Reply(404, Text("Shop not found or not owned by you"))
    ensures reply.status == 200 ==>
      reply == Reply(200, Text("Shop deleted successfully")) && db.shops == old(db.shops) - {id.oid}
    ensures reply.status != 200 ==> db.shops == old(db.shops)
    ensures id.ObjectId? && requester.Some? ==> db.shops == AfterDelete(old(db.shops), id.oid, requester.value)
  {
    if id.NotAnObjectId? {
      return Reply(400, Text("Invalid shop ID"));
    }
    if requester.None? {
      return Reply(500, ExceptionText);
    }
    if id.oid !in db.shops || db.shops[id.oid].owner != requester.value {
      return Reply(404, Text("Shop not found or not owned by you"));
    }
    db.shops := db.shops - {id.oid};
    reply := Reply(200, Text("Shop deleted successfully"));
  }

  /** The shop table after deleteshop's owner-scoped `findOneAndDelete`, as a function of the table before it. */
  function AfterDelete(shops: map<Oid, Shop>, id: Oid, requester: Oid): map<Oid, Shop> {
    if id in shops && shops[id].owner == requester then shops - {id} else shops
  }

  /** deleteshop removes at most one shop, only one its requester owns, and leaves every other shop as it was. */
  lemma DeleteRemovesAtMostOneOwnedShop(shops: map<Oid, Shop>, id: Oid, requester: Oid)
    ensures var after := AfterDelete(shops, id, requester);
      && after.Keys <= shops.Keys
      && |shops| - 1 <= |after| <= |shops|
      && (forall sid | sid in after :: after[sid] == shops[sid])
      && (forall sid | sid in shops && sid !in after :: sid == id && shops[sid].owner == requester)
  {
    var after := AfterDelete(shops, id, requester);
    if id in shops && shops[id].owner == requester {
      assert shops.Keys == after.Keys + {id};
    }
  }
}
