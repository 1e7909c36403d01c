/** The item REST controller: an ordered chain of null and existence checks on
    each request body, each failing with its own message and status 400, before
    the item service is called; the service's verdict then becomes 200 or 400. */
module ItemController {
  import opened Wrappers
  import opened Auth
  import opened Items

  const ParameterNull := "parameter could not be null"
  const BoardIdNull := "Board id could not be null"
  const BoardNotFound := "Board not found"
  const CreatorIdNull := "user creator id could not be null"
  const CreatorNotFound := "user creator not found"
  const AssignedToNotFound := "user assignedTo not found"
  const ParentNotFound := "item parent not found"

  /** Body of the delete and remove-type endpoints. */
  datatype ItemIdDTO = ItemIdDTO(itemId: Option<ItemId>)

  /** Body of the add-type endpoint. */
  datatype AddItemTypeDTO = AddItemTypeDTO(itemId: Option<ItemId>, itemType: Option<string>)

  /** The arguments the controller hands to ItemService.createItem once every check passed. */
  datatype CreateArgs = CreateArgs(dto: CreateItemDTO, creator: User, board: BoardId,
                                   assignedTo: Option<User>, parent: Option<Item>)

  /** An HTTP reply: the status code and the response envelope. */
  datatype Reply<T> = Reply(status: int, body: Result<T, string>)

  /** ResponseEntity.ok() for a success, badRequest() for a failure. */
  function ToReply<T>(r: Result<T, string>): (reply: Reply<T>)
    ensures reply.body == r
    ensures reply.status == 200 <==> r.Success?
    ensures reply.status == 400 <==> r.Failure?
  {
    Reply(if r.Success? then 200 else 400, r)
  }

  predicate BoardFound(d: CreateItemDTO, boards: set<BoardId>)
  {
    d.boardId.Some? && d.boardId.value in boards
  }

  predicate CreatorFound(d: CreateItemDTO, users: map<UserId, User>)
  {
    d.creatorId.Some? && d.creatorId.value in users
  }

  predicate AssigneeResolves(d: CreateItemDTO, users: map<UserId, User>)
  {
    d.assignedToUserId.None? || d.assignedToUserId.value in users
  }

  predicate ParentResolves(d: CreateItemDTO, items: map<ItemId, Item>)
  {
    d.parentId.None? || d.parentId.value in items
  }

  /** The checks of createItem, in order, over the board ids, the user table
      and the item table: each failure is reported only when every earlier
      check passed. */
  function ValidateCreateItem(body: Option<CreateItemDTO>, boards: set<BoardId>,
                              users: map<UserId, User>, items: map<ItemId, Item>): (r: Result<CreateArgs, string>)
    ensures r == Failure(ParameterNull) <==> body.None?
    ensures r == Failure(BoardIdNull) <==> body.Some? && body.value.boardId.None?
    ensures r == Failure(BoardNotFound) <==>
              body.Some? && body.value.boardId.Some? && body.value.boardId.value !in boards
    ensures r == Failure(CreatorIdNull) <==>
              body.Some? && BoardFound(body.value, boards) && body.value.creatorId.None?
    ensures r == Failure(CreatorNotFound) <==>
              && body.Some? && BoardFound(body.value, boards)
              && body.value.creatorId.Some? && body.value.creatorId.value !in users
    ensures r == Failure(AssignedToNotFound) <==>
              && body.Some? && BoardFound(body.value, boards) && CreatorFound(body.value, users)
              && !AssigneeResolves(body.value, users)
    ensures r == Failure(ParentNotFound) <==>
              && body.Some? && BoardFound(body.value, boards) && CreatorFound(body.value, users)
              && AssigneeResolves(body.value, users) && !ParentResolves(body.value, items)
    ensures r.Success? <==>
              && body.Some? && BoardFound(body.value, boards) && CreatorFound(body.value, users)
              && AssigneeResolves(body.value, users) && ParentResolves(body.value, items)
    ensures r.Success? ==>
              && r.value.dto == body.value
              && r.value.board == body.value.boardId.value
              && r.value.creator == users[body.value.creatorId.value]
              && (body.value.assignedToUserId.None? ==> r.value.assignedTo.None?)
              && (body.value.assignedToUserId.Some? ==> r.value.assignedTo == Some(users[body.value.assignedToUserId.value]))
              && (body.value.parentId.None? ==> r.value.parent.None?)
              && (body.value.parentId.Some? ==> r.value.parent == Some(items[body.value.parentId.value]))
  {
    match body
    case None => Failure(ParameterNull)
    case Some(d) =>
      if d.boardId.None? then Failure(BoardIdNull)
      else if d.boardId.value !in boards then Failure(BoardNotFound)
      else if d.creatorId.None? then Failure(CreatorIdNull)
      else match GetUser(users, d.creatorId.value)
        case None => Failure(CreatorNotFound)
        case Some(creator) =>
          var assignee := if d.assignedToUserId.Some? then GetUser(users, d.assignedToUserId.value) else None;
          if d.assignedToUserId.Some? && assignee.None? then Failure(AssignedToNotFound)
          else
            var parent := if d.parentId.Some? && d.parentId.value in items then Some(items[d.parentId.value]) else None;
            if d.parentId.Some? && parent.None? then Failure(ParentNotFound)
            else Success(CreateArgs(d, creator, d.boardId.value, assignee, parent))
  }

  /** The guard of deleteItem and removeItemType. */
  function ValidateItemId(body: Option<ItemIdDTO>): (r: Result<ItemId, string>)
    ensures r.Failure? <==> body.None? || body.value.itemId.None?
    ensures r.Failure? ==> r.error == ParameterNull
    ensures r.Success? ==> body == Some(ItemIdDTO(Some(r.value)))
  {
    if body.None? || body.value.itemId.None? then Failure(ParameterNull)
    else Success(body.value.itemId.value)
  }

  /** The guard of addItemType: the body, its id and its type must all be present. */
  function ValidateAddItemType(body: Option<AddItemTypeDTO>): (r: Result<(ItemId, string), string>)
    ensures r.Failure? <==> body.None? || body.value.itemId.None? || body.value.itemType.None?
    ensures r.Failure? ==> r.error == ParameterNull
    ensures r.Success? ==> body == Some(AddItemTypeDTO(Some(r.value.0), Some(r.value.1)))
  {
    if body.None? || body.value.itemId.None? || body.value.itemType.None? then Failure(ParameterNull)
    else Success((body.value.itemId.value, body.value.itemType.value))
  }

  /** POST /item/create: a failed check answers 400 with its message and leaves
      the item table alone; otherwise the new item is stored and 200 returned. */
  method CreateItem(service: ItemService, body: Option<CreateItemDTO>, boards: set<BoardId>,
                    users: map<UserId, User>) returns (reply: Reply<Item>)
    requires service.Valid()
    requires KeysMatchIds(users)
    modifies service
    ensures service.Valid()
    ensures var v := ValidateCreateItem(body, boards, users, old(service.items));
            && (v.Failure? ==> reply == Reply(400, Failure(v.error)) && service.items == old(service.items))
            && (v.Success? ==>
                  && reply.status == 200 && reply.body.Success?
                  && reply.body.value.id !in old(service.items)
                  && service.items == old(service.items)[reply.body.value.id := reply.body.value]
                  && var d := body.value;
                     reply.body.value == Item(reply.body.value.id, d.title, d.status, d.importance, d.itemType,
                                              d.parentId, d.boardId.value, d.creatorId.value, d.assignedToUserId))
  {
    var v := ValidateCreateItem(body, boards, users, service.items);
    if v.Failure? {
      return ToReply(Failure(v.error));
    }
    var a := v.value;
    var d := body.value;
    assert a.creator.id == d.creatorId.value;
    assert a.assignedTo.Some? ==> a.assignedTo.value.id == d.assignedToUserId.value;
    assert a.parent.Some? ==> a.parent.value.id == d.parentId.value;
    var res := service.CreateItem(a.dto, a.creator, a.board, a.assignedTo, a.parent);
    reply := ToReply(res);
  }

  /** DELETE /item/delete. */
  method DeleteItem(service: ItemService, body: Option<ItemIdDTO>) returns (reply: Reply<ItemId>)
    requires service.Valid()
    modifies service
    ensures service.Valid()
    ensures ValidateItemId(body).Failure? ==>
              reply == Reply(400, Failure(ParameterNull)) && service.items == old(service.items)
    ensures ValidateItemId(body).Success? ==>
              var id := ValidateItemId(body).value;
              && (id in old(service.items) ==> reply == Reply(200, Success(id)) && service.items == old(service.items) - {id})
              && (id !in old(service.items) ==> reply == Reply(400, Failure(ItemMissing)) && service.items == old(service.items))
  {
    var v := ValidateItemId(body);
    if v.Failure? {
      return ToReply(Failure(v.error));
    }
    var res := service.DeleteItem(v.value);
    reply := ToReply(res);
  }

  /** PUT /item/type/remove. */
  method RemoveItemType(service: ItemService, body: Option<ItemIdDTO>) returns (reply: Reply<Item>)
    requires service.Valid()
    modifies service
    ensures service.Valid()
    ensures ValidateItemId(body).Failure? ==>
              reply == Reply(400, Failure(ParameterNull)) && service.items == old(service.items)
    ensures ValidateItemId(body).Success? ==>
              var id := ValidateItemId(body).value;
              && (id in old(service.items) ==>
                    service.items == WithType(old(service.items), id, "") && reply == Reply(200, Success(old(service.items)[id].(itemType := ""))))
              && (id !in old(service.items) ==> reply == Reply(400, Failure(ItemMissing)) && service.items == old(service.items))
  {
    var v := ValidateItemId(body);
    if v.Failure? {
      return ToReply(Failure(v.error));
    }
    var res := service.RemoveType(v.value);
    reply := ToReply(res);
  }

  /** PUT /item/type/add. */
  method AddItemType(service: ItemService, body: Option<AddItemTypeDTO>) returns (reply: Reply<Item>)
    requires service.Valid()
    modifies service
    ensures service.Valid()
    ensures ValidateAddItemType(body).Failure? ==>
              reply == Reply(400, Failure(ParameterNull)) && service.items == old(service.items)
    ensures ValidateAddItemType(body).Success? ==>
              var (id, newType) := ValidateAddItemType(body).value;
              && (id in old(service.items) ==>
                    service.items == WithType(old(service.items), id, newType) && reply == Reply(200, Success(old(service.items)[id].(itemType := newType))))
              && (id !in old(service.items) ==> reply == Reply(400, Failure(ItemMissing)) && service.items == old(service.items))
  {
    var v := ValidateAddItemType(body);
    if v.Failure? {
      return ToReply(Failure(v.error));
    }
    var res := service.AddType(v.value.0, v.value.1);
    reply := ToReply(res);
  }
}
