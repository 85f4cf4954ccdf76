/** The HTTP handler's decisions (handler/order.go): how an order is built,
    how the list cursor is read, which status updates are accepted, and which
    status code each repository outcome becomes. The clock, the random id
    source and the decoded request body are parameters. */
module Handler {
  import opened Wrappers
  import opened Uint64
  import opened Strconv
  import opened OrderModel
  import opened Redis
  import opened OrderRepo

  const StatusOK := 200
  const StatusCreated := 201
  const StatusNoContent := 204
  const StatusBadRequest := 400
  const StatusNotFound := 404
  const StatusInternalServerError := 500

  /** List always asks the repository for pages of this size. */
  const PageSize: u64 := 50

  const ShippedStatus: string := "shipped"
  const CompletedStatus: string := "completed"

  /** The decoded body of a create request. */
  datatype CreateRequest = CreateRequest(customerId: Uuid, lineItems: seq<LineItem>)

  /** The decoded body of a status update request. */
  datatype UpdateRequest = UpdateRequest(status: string)

  datatype Body = NoBody | OrderBody(order: Order) | ListBody(items: seq<Order>, next: nat)

  datatype Response = Response(status: int, body: Body)

  /** The order Create stores: the random id, the caller's customer and line
      items, created now, neither shipped nor completed. */
  function NewOrder(req: CreateRequest, randomId: u64, now: Time): (o: Order)
    ensures o.orderId == randomId && o.customerId == req.customerId && o.lineItems == req.lineItems
    ensures o.createdAt == Some(now) && o.shippedAt.None? && o.completedAt.None?
  {
    Order(randomId, req.customerId, req.lineItems, Some(now), None, None)
  }

  /** The list cursor: a missing or empty `cursor` parameter reads as "0";
      anything else must be a base-10 unsigned 64-bit number. */
  function CursorOf(param: string): (c: Option<u64>)
    ensures param == "" ==> c == Some(0)
    ensures param != "" ==> c == ParseUint(param)
  {
    ParseFormatRoundTrip(0);
    assert FormatUint(0) == "0";
    ParseUint(if param == "" then "0" else param)
  }

  /** The `next` cursor of a list response, sent back as the `cursor`
      parameter, resumes the scan where it stopped. */
  lemma NextCursorResumes(next: u64)
    ensures CursorOf(FormatUint(next)) == Some(next)
  {
    ParseFormatRoundTrip(next);
  }

  /** The status code for a repository error. */
  function ErrorStatus(e: Error): (code: int)
    ensures code == StatusNotFound <==> e == NotExist
    ensures code == StatusInternalServerError <==> e != NotExist
  {
    if e == NotExist then StatusNotFound else StatusInternalServerError
  }

  /** The status update rule as written: "shipped" is accepted only when
      the order already has a shipping time, and re-stamps it; "completed"
      is accepted only when the order already has both a completion and a
      shipping time, and re-stamps the completion time; any other status is
      refused. None means the request is refused. */
  function Transition(odr: Order, status: string, now: Time): (r: Option<Order>)
    ensures r.Some? <==> (status == ShippedStatus && odr.shippedAt.Some?)
                         || (status == CompletedStatus && odr.completedAt.Some? && odr.shippedAt.Some?)
    ensures r.Some? && status == ShippedStatus ==> r.value == odr.(shippedAt := Some(now))
    ensures r.Some? && status == CompletedStatus ==> r.value == odr.(completedAt := Some(now))
  {
    if status == ShippedStatus then
      if odr.shippedAt.None? then None else Some(odr.(shippedAt := Some(now)))
    else if status == CompletedStatus then
      if odr.completedAt.None? || odr.shippedAt.None? then None else Some(odr.(completedAt := Some(now)))
    else None
  }

  /** A status update request: the status and the time it is handled. */
  datatype StatusUpdate = StatusUpdate(status: string, at: Time)

  /** The order after a series of status update requests; a refused request
      leaves it as it was. */
  function ApplyUpdates(o: Order, updates: seq<StatusUpdate>): (r: Order)
    ensures r.orderId == o.orderId && r.customerId == o.customerId
    ensures r.lineItems == o.lineItems && r.createdAt == o.createdAt
    ensures o.shippedAt.Some? ==> r.shippedAt.Some?
    ensures o.completedAt.Some? ==> r.completedAt.Some?
    decreases |updates|
  {
    if updates == [] then o
    else match Transition(o, updates[0].status, updates[0].at)
      case None => ApplyUpdates(o, updates[1..])
      case Some(next) => ApplyUpdates(next, updates[1..])
  }

  /** An order with neither timestamp set, such as every order Create
      builds, refuses every status update, whatever the status. */
  lemma UnstampedOrderRefusesUpdates(o: Order, status: string, now: Time)
    requires o.shippedAt.None? && o.completedAt.None?
    ensures Transition(o, status, now).None?
  {
  }

  /** So no series of status updates ever changes a newly created order. */
  lemma {:induction false} NewOrderNeverAdvances(req: CreateRequest, randomId: u64, created: Time, updates: seq<StatusUpdate>)
    ensures ApplyUpdates(NewOrder(req, randomId, created), updates) == NewOrder(req, randomId, created)
  {
    var o := NewOrder(req, randomId, created);
    if updates != [] {
      UnstampedOrderRefusesUpdates(o, updates[0].status, updates[0].at);
      NewOrderNeverAdvances(req, randomId, created, updates[1..]);
    }
  }

  /** The evidently intended rule: "shipped" only while not yet shipped,
      "completed" only once shipped and while not yet completed. */
  function IntendedTransition(odr: Order, status: string, now: Time): (r: Option<Order>)
    ensures r.Some? <==> (status == ShippedStatus && odr.shippedAt.None?)
                         || (status == CompletedStatus && odr.shippedAt.Some? && odr.completedAt.None?)
    ensures r.Some? && status == ShippedStatus ==> r.value == odr.(shippedAt := Some(now))
    ensures r.Some? && status == CompletedStatus ==> r.value == odr.(completedAt := Some(now))
  {
    if status == ShippedStatus then
      if odr.shippedAt.Some? then None else Some(odr.(shippedAt := Some(now)))
    else if status == CompletedStatus then
      if odr.shippedAt.None? || odr.completedAt.Some? then None else Some(odr.(completedAt := Some(now)))
    else None
  }

  /** Under the intended rule a new order can be shipped and then completed,
      and neither step can be repeated. */
  lemma IntendedLifecycle(req: CreateRequest, randomId: u64, created: Time, shipped: Time, completed: Time)
    ensures var o := NewOrder(req, randomId, created);
      && IntendedTransition(o, CompletedStatus, completed).None?
      && IntendedTransition(o, ShippedStatus, shipped) == Some(o.(shippedAt := Some(shipped)))
      && var s := o.(shippedAt := Some(shipped));
      && IntendedTransition(s, ShippedStatus, completed).None?
      && IntendedTransition(s, CompletedStatus, completed) == Some(s.(completedAt := Some(completed)))
      && IntendedTransition(s.(completedAt := Some(completed)), CompletedStatus, completed).None?
  {
  }

  /** The intended rule keeps "completed implies shipped". */
  lemma IntendedKeepsShippedBeforeCompleted(odr: Order, status: string, now: Time)
    requires odr.completedAt.Some? ==> odr.shippedAt.Some?
    ensures var r := IntendedTransition(odr, status, now);
      r.Some? ==> (r.value.completedAt.Some? ==> r.value.shippedAt.Some?)
  {
  }

  /** The response for an order read from the repository. */
  function FoundResponse(found: Result<Order, Error>): (resp: Response)
    ensures resp.status == StatusOK <==> found.Success?
    ensures found.Success? ==> resp.body == OrderBody(found.value)
    ensures found.Failure? ==> resp == Response(ErrorStatus(found.error), NoBody)
  {
    match found
    case Success(o) => Response(StatusOK, OrderBody(o))
    case Failure(e) => Response(ErrorStatus(e), NoBody)
  }

  /** The response for a page read from the repository. */
  function ListResponse(found: Result<FindResult, Error>): (resp: Response)
    ensures resp.status == StatusOK <==> found.Success?
    ensures found.Success? ==> resp.body == ListBody(found.value.orders, found.value.cursor)
    ensures found.Failure? ==> resp == Response(StatusInternalServerError, NoBody)
  {
    match found
    case Success(page) => Response(StatusOK, ListBody(page.orders, page.cursor))
    case Failure(_) => Response(StatusInternalServerError, NoBody)
  }

  /** The response for a delete. */
  function DeleteResponse(deleted: Outcome<Error>): (resp: Response)
    ensures resp.body == NoBody
    ensures resp.status == StatusNoContent <==> deleted.Pass?
    ensures deleted.Fail? ==> resp.status == ErrorStatus(deleted.error)
  {
    match deleted
    case Pass => Response(StatusNoContent, NoBody)
    case Fail(e) => Response(ErrorStatus(e), NoBody)
  }

  /** As written, deleting an order that was never created answers 204. */
  lemma DeleteNeverCreatedAsWritten(repo: RedisRepo, id: u64)
    requires repo.Valid() && OrderIDKey(id) !in repo.kv
    ensures DeleteResponse(DeleteByIDAsWritten(repo.kv, repo.members, id, Up).outcome).status == StatusNoContent
  {
  }

  /** POST /orders. */
  method Create(repo: RedisRepo, req: Option<CreateRequest>, randomId: u64, now: Time, link: Link)
    returns (resp: Response)
    requires repo.Valid()
    modifies repo
    ensures repo.Valid()
    ensures req.None? ==> resp == Response(StatusBadRequest, NoBody) && repo.kv == old(repo.kv) && repo.members == old(repo.members)
    ensures req.Some? && link.Down? ==> resp == Response(StatusInternalServerError, NoBody) && repo.kv == old(repo.kv) && repo.members == old(repo.members)
    ensures req.Some? && link.Up? ==>
      var o := NewOrder(req.value, randomId, now);
      && resp == Response(StatusCreated, OrderBody(o))
      && repo.FindByID(randomId, Up) ==
           (if OrderIDKey(randomId) in old(repo.kv) then old(repo.FindByID(randomId, Up)) else Success(o))
      && var key := OrderIDKey(randomId);
      if key in old(repo.kv) then repo.kv == old(repo.kv) && repo.members == old(repo.members)
      else repo.kv == old(repo.kv)[key := Encode(o)] && repo.members == old(repo.members) + [key]
  {
    if req.None? {
      return Response(StatusBadRequest, NoBody);
    }
    var o := NewOrder(req.value, randomId, now);
    var inserted := repo.Insert(o, link);
    if inserted.Fail? {
      return Response(StatusInternalServerError, NoBody);
    }
    resp := Response(StatusCreated, OrderBody(o));
  }

  /** GET /orders?cursor=N; `batch` is how many members the server puts in
      its scan reply. */
  method List(repo: RedisRepo, cursorParam: string, batch: nat, scanLink: Link, mgetLink: Link) returns (resp: Response)
    requires repo.Valid()
    ensures CursorOf(cursorParam).None? ==> resp == Response(StatusBadRequest, NoBody)
    ensures CursorOf(cursorParam).Some? ==>
      var page := FindAllPage(PageSize, CursorOf(cursorParam).value);
      var reply := SScan(repo.members, page.offset, ScanCount(PageSize), batch);
      resp == if scanLink.Down? || (reply.keys != [] && mgetLink.Down?) then Response(StatusInternalServerError, NoBody)
              else ListResponse(FindAllResult(repo.kv, repo.members, page, batch))
  {
    var cursor := CursorOf(cursorParam);
    if cursor.None? {
      return Response(StatusBadRequest, NoBody);
    }
    var found := repo.FindAll(FindAllPage(PageSize, cursor.value), batch, scanLink, mgetLink);
    resp := ListResponse(found);
  }

  /** GET /orders/{id}. */
  function GetByID(repo: RedisRepo, idParam: string, link: Link): (resp: Response)
    reads repo
    ensures ParseUint(idParam).None? ==> resp == Response(StatusBadRequest, NoBody)
    ensures ParseUint(idParam).Some? && link.Down? ==> resp == Response(StatusInternalServerError, NoBody)
    ensures ParseUint(idParam).Some? && link.Up? ==>
      var key := OrderIDKey(ParseUint(idParam).value);
      && (resp.status == StatusNotFound <==> key !in repo.kv)
      && (resp.status == StatusOK <==> key in repo.kv && Decode(repo.kv[key]).Some?)
      && (resp.status == StatusOK ==> resp.body == OrderBody(Decode(repo.kv[key]).value))
      && (resp.status != StatusOK ==> resp.body == NoBody)
      && (key in repo.kv && Decode(repo.kv[key]).None? ==> resp == Response(StatusInternalServerError, NoBody))
  {
    match ParseUint(idParam)
    case None => Response(StatusBadRequest, NoBody)
    case Some(id) => FoundResponse(repo.FindByID(id, link))
  }

  /** PUT /orders/{id}: the status update, applied with the rule as written. */
  method UpdateByID(repo: RedisRepo, req: Option<UpdateRequest>, idParam: string, now: Time, findLink: Link, updateLink: Link)
    returns (resp: Response)
    requires repo.Valid()
    modifies repo
    ensures repo.Valid() && repo.members == old(repo.members)
    ensures resp.status != StatusOK ==> repo.kv == old(repo.kv) && repo.members == old(repo.members)
    ensures req.None? || ParseUint(idParam).None? ==> resp == Response(StatusBadRequest, NoBody)
    ensures req.Some? && ParseUint(idParam).Some? ==>
      var id := ParseUint(idParam).value;
      var found := old(repo.FindByID(id, findLink));
      && (found.Failure? ==> resp == Response(ErrorStatus(found.error), NoBody))
      && (found.Success? && Transition(found.value, req.value.status, now).None? ==>
            resp == Response(StatusBadRequest, NoBody))
      && (found.Success? && Transition(found.value, req.value.status, now).Some? ==>
            var updated := Transition(found.value, req.value.status, now).value;
            if updateLink.Down? then resp == Response(StatusInternalServerError, NoBody)
            else resp == Response(StatusOK, OrderBody(updated))
                 && repo.kv == old(repo.kv)[OrderIDKey(id) := Encode(updated)])
  {
    if req.None? {
      return Response(StatusBadRequest, NoBody);
    }
    var parsed := ParseUint(idParam);
    if parsed.None? {
      return Response(StatusBadRequest, NoBody);
    }
    var found := repo.FindByID(parsed.value, findLink);
    if found.Failure? {
      return Response(ErrorStatus(found.error), NoBody);
    }
    var updated := Transition(found.value, req.value.status, now);
    if updated.None? {
      return Response(StatusBadRequest, NoBody);
    }
    var written := repo.Update(updated.value, updateLink);
    if written.Fail? {
      return Response(StatusInternalServerError, NoBody);
    }
    resp := Response(StatusOK, OrderBody(updated.value));
  }

  /** DELETE /orders/{id}. */
  method DeleteByID(repo: RedisRepo, idParam: string, link: Link) returns (resp: Response)
    requires repo.Valid()
    modifies repo
    ensures repo.Valid()
    ensures resp.status != StatusNoContent ==> repo.kv == old(repo.kv) && repo.members == old(repo.members)
    ensures ParseUint(idParam).None? ==> resp == Response(StatusBadRequest, NoBody)
    ensures ParseUint(idParam).Some? ==>
      var key := OrderIDKey(ParseUint(idParam).value);
      && (link.Down? ==> resp == Response(StatusInternalServerError, NoBody))
      && (link.Up? && key !in old(repo.kv) ==> resp == Response(StatusNotFound, NoBody))
      && (link.Up? && key in old(repo.kv) ==>
            resp == Response(StatusNoContent, NoBody)
            && repo.kv == old(repo.kv) - {key} && key !in repo.members)
  {
    var parsed := ParseUint(idParam);
    if parsed.None? {
      return Response(StatusBadRequest, NoBody);
    }
    var deleted := repo.DeleteByID(parsed.value, link);
    resp := DeleteResponse(deleted);
  }
}
