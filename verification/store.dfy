/**
 * The three MongoDB collections the core touches, held in memory: users,
 * shops and items, keyed by ObjectId. Ids come from one counter, so every
 * document ever inserted has an id below `nextId` and no id is reused.
 */
module Store {
  import opened Platform
  import opened UserModel
  import opened ShopModel
  import opened ItemModel

  /** Every id listed in a shop's `items` names a stored item that points back at that shop. */
  ghost predicate ItemsBelongToShops(shops: map<Oid, Shop>, items: map<Oid, Item>) {
    forall sid, k | sid in shops && 0 <= k < |shops[sid].items| ::
      shops[sid].items[k] in items && items[shops[sid].items[k]].shop == sid
  }

  class Db {
    var users: map<Oid, User>
    var shops: map<Oid, Shop>
    var items: map<Oid, Item>
    var nextId: Oid

    /** The collections' invariants: ids were handed out by the counter, `email` is
        unique, the reset fields come in pairs, and the shop-to-item chain is intact. */
    ghost predicate Valid()
      reads this
    {
      && (forall id | id in users :: id < nextId)
      && (forall id | id in shops :: id < nextId)
      && (forall id | id in items :: id < nextId && items[id].shop < nextId)
      && UniqueEmails(users)
      && OtpPaired(users)
      && ItemsBelongToShops(shops, items)
    }

    constructor ()
      ensures Valid()
      ensures users == map[] && shops == map[] && items == map[] && nextId == 0
    {
      users, shops, items, nextId := map[], map[], map[], 0;
    }

    /** A fresh ObjectId, never used by any collection. */
    method NewId() returns (id: Oid)
      requires Valid()
      modifies this`nextId
      ensures Valid()
      ensures id == old(nextId) && nextId == id + 1
      ensures id !in users && id !in shops && id !in items
    {
      id := nextId;
      nextId := nextId + 1;
    }
  }
}
