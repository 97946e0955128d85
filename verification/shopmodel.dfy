/**
 * The shop record. Its schema file is not part of this model; the fields are
 * the ones the shop and item controllers read and write: the owning user, four
 * descriptive strings, an image path and the ids of the shop's items in the
 * order they were added.
 */
module ShopModel {
  import opened Platform

  datatype Shop = Shop(
    shopname: string,
    owner: Oid,
    city: string,
    state: string,
    address: string,
    image: string,
    items: seq<Oid>)
}
