/** The item service: a table of items by id that the service creates items
    in, deletes items from, and whose items' type it rewrites. */
module Items {
  import opened Wrappers
  import Auth

  type ItemId = int
  type BoardId = int

  /** A stored item; its parent, board, creator and assignee are held by id. */
  datatype Item = Item(id: ItemId, title: string, status: string, importance: int, itemType: string,
                       parent: Option<ItemId>, board: BoardId, creator: Auth.UserId, assignee: Option<Auth.UserId>)

  /** The create-item request body; the reference fields may be null. */
  datatype CreateItemDTO = CreateItemDTO(title: string, status: string, importance: int, itemType: string,
                                         boardId: Option<BoardId>, creatorId: Option<Auth.UserId>,
                                         assignedToUserId: Option<Auth.UserId>, parentId: Option<ItemId>)

  /** The failure message of all three operations on a missing item. */
  const ItemMissing := "the item you want to delete doesn't exists"

  /** The table with one item's type replaced. */
  function WithType(items: map<ItemId, Item>, itemId: ItemId, newType: string): (r: map<ItemId, Item>)
    requires itemId in items
    ensures r.Keys == items.Keys
    ensures r[itemId] == items[itemId].(itemType := newType)
    ensures forall k :: k in items && k != itemId ==> r[k] == items[k]
  {
    items[itemId := items[itemId].(itemType := newType)]
  }

  /** Setting the same type twice leaves the same table as setting it once. */
  lemma WithTypeIdempotent(items: map<ItemId, Item>, itemId: ItemId, newType: string)
    requires itemId in items
    ensures WithType(WithType(items, itemId, newType), itemId, newType) == WithType(items, itemId, newType)
  {
  }

  class ItemService {
    /** The item table, by id. */
    var items: map<ItemId, Item>
    /** The next id the store will assign. */
    var nextId: ItemId

    ghost predicate Valid()
      reads this
    {
      forall id :: id in items ==> items[id].id == id && id < nextId
    }

    /** The service over a repository that already holds items, each under its
        own id; firstFreeId is above every id in it. */
    constructor (initial: map<ItemId, Item>, firstFreeId: ItemId)
      requires forall id :: id in initial ==> initial[id].id == id && id < firstFreeId
      ensures Valid() && items == initial
    {
      items := initial;
      nextId := firstFreeId;
    }

    /** Stores a new item built from the request and the resolved references;
        always reports success. */
    method CreateItem(dto: CreateItemDTO, creator: Auth.User, board: BoardId,
                      assignedTo: Option<Auth.User>, parent: Option<Item>) returns (r: Result<Item, string>)
      requires Valid()
      modifies this
      ensures Valid()
      ensures r.Success?
      ensures r.value.id !in old(items) && items == old(items)[r.value.id := r.value]
      ensures r.value.title == dto.title && r.value.status == dto.status
      ensures r.value.importance == dto.importance && r.value.itemType == dto.itemType
      ensures r.value.board == board && r.value.creator == creator.id
      ensures r.value.assignee == (if assignedTo.Some? then Some(assignedTo.value.id) else None)
      ensures r.value.parent == (if parent.Some? then Some(parent.value.id) else None)
    {
      var parentId := if parent.Some? then Some(parent.value.id) else None;
      var assigneeId := if assignedTo.Some? then Some(assignedTo.value.id) else None;
      var saved := Item(nextId, dto.title, dto.status, dto.importance, dto.itemType, parentId, board, creator.id, assigneeId);
      items := items[nextId := saved];
      nextId := nextId + 1;
      r := Success(saved);
    }

    /** Deletes one item, or fails and changes nothing when the id is absent. */
    method DeleteItem(itemId: ItemId) returns (r: Result<ItemId, string>)
      requires Valid()
      modifies this
      ensures Valid()
      ensures itemId !in old(items) ==> r == Failure(ItemMissing) && items == old(items)
      ensures itemId in old(items) ==> r == Success(itemId) && items == old(items) - {itemId}
    {
      if GetItem(itemId).None? {
        return Failure(ItemMissing);
      }
      items := items - {itemId};
      r := Success(itemId);
    }

    /** Clears one item's type, or fails and changes nothing when the id is absent. */
    method RemoveType(itemId: ItemId) returns (r: Result<Item, string>)
      requires Valid()
      modifies this
      ensures Valid()
      ensures itemId !in old(items) ==> r == Failure(ItemMissing) && items == old(items)
      ensures itemId in old(items) ==>
                && items == WithType(old(items), itemId, "")
                && r == Success(items[itemId])
    {
      var found := GetItem(itemId);
      if found.None? {
        return Failure(ItemMissing);
      }
      var item := found.value.(itemType := "");
      items := items[itemId := item];
      r := Success(item);
    }

    /** Sets one item's type, or fails and changes nothing when the id is absent. */
    method AddType(itemId: ItemId, newType: string) returns (r: Result<Item, string>)
      requires Valid()
      modifies this
      ensures Valid()
      ensures itemId !in old(items) ==> r == Failure(ItemMissing) && items == old(items)
      ensures itemId in old(items) ==>
                && items == WithType(old(items), itemId, newType)
                && r == Success(items[itemId])
    {
      var found := GetItem(itemId);
      if found.None? {
        return Failure(ItemMissing);
      }
      var item := found.value.(itemType := newType);
      items := items[itemId := item];
      r := Success(item);
    }

    /** itemRepo.findById: a read-only lookup. */
    function GetItem(itemId: ItemId): (r: Option<Item>)
      reads this
      ensures r.Some? <==> itemId in items
      ensures r.Some? ==> r.value == items[itemId]
    {
      if itemId in items then Some(items[itemId]) else None
    }
  }
}
