# Orders API: repository and handler decisions in Dafny

This project models the core of a small orders service. Orders are stored in a
Redis-style key-value backend. Each order is one JSON string under the key
`order:<decimal id>`, and a set named `orders` holds the keys of all live
orders. The repository (`RedisRepo`) inserts, reads, deletes, updates and
pages through orders. The HTTP handler builds new orders, reads the list
cursor, decides which status updates are accepted, and turns repository
outcomes into status codes.

Modules:

- `Wrappers`: `Option`, `Result` and `Outcome`.
- `Uint64`, `Strconv`: Go's `uint64`, `fmt`'s `%d` (`FormatUint`) and `strconv.ParseUint(s, 10, 64)` (`ParseUint`).
- `OrderModel`: the `Order` value and an abstract JSON payload. `Encode` never fails, `Decode` may fail, and `Decode(Encode(o)) == Some(o)`.
- `Redis`: the backend commands the repository issues (SETNX, SETXX, DEL, SADD, SREM, MGET, SSCAN) as functions on one client's view of the store. The set's members are a duplicate-free sequence in scan order, so SSCAN is a deterministic window over it.
- `OrderRepo`: the key function, the class `RedisRepo` with fields `kv` (string keys to payloads) and `members` (the `orders` set), and its operations.
- `Handler`: the handler's pure decisions, and one method or function per endpoint over a `RedisRepo`.

`RedisRepo.Valid()` is the central invariant. The set's members are exactly the keys present in the map, without duplicates. Every payload that decodes is stored under its own order's key. Every mutating operation requires and ensures it.

A transaction (`TxPipeline` ... `Exec`) is one atomic state update. Backend failures are a `Link` parameter: on `Down`, the call fails with `Backend` and nothing is applied. The clock (`time.Now`), the random id (`rand.Uint64`) and the decoded request body are parameters of the handler members.

Where the documented behaviour and the code differ, the model follows the code:

- Inserting under a key that already exists is not an error. SETNX keeps the stored order, SADD changes nothing, and the call succeeds. `Handler.Create` then answers 201 with an order that was never stored.
- The status update rule is modelled exactly as written (see Findings).

There is one exception: delete and update of an absent key. As written, the code's not-found branches are never taken (see Findings). `OrderRepo.DeleteByIDAsWritten` and `OrderRepo.UpdateAsWritten` model the code as written. The class methods `RedisRepo.DeleteByID` and `RedisRepo.Update`, and `Handler.DeleteByID` above them, model the corrected behaviour: `NotExist` or 404.

## Model

| member | source | states |
|---|---|---|
| `Strconv.FormatUint` | repository/order/redis.go:18 | `%d` of a number is a non-empty string of digits with no leading zero |
| `Strconv.ParseUint` | handler/order.go:66-72 | succeeds iff the string is non-empty, all digits and below 2^64 in value (leading zeros allowed), and then gives that value |
| `Strconv.DigitsValueOfFormat` | repository/order/redis.go:18 | reading a formatted number's digits gives the number back |
| `Strconv.ParseFormatRoundTrip` | handler/order.go:108-112 | every 64-bit id formatted in decimal is parsed back to itself |
| `Strconv.FormatUintInjective` | repository/order/redis.go:17-19 | distinct numbers have distinct decimal forms |
| `OrderModel.Encode` | repository/order/redis.go:22-25 | marshalling never fails and decoding its output gives the order back |
| `OrderModel.Decode` | repository/order/redis.go:63-67 | unmarshalling fails exactly on a malformed payload |
| `Redis.SetNX` | repository/order/redis.go:32 | set-if-absent: the key is present afterwards, and an existing value, like every other entry, is kept |
| `Redis.SetXX` | repository/order/redis.go:108 | set-if-present: the key set is unchanged, a present key gets the new value, and every other entry is kept |
| `Redis.Del` | repository/order/redis.go:78 | the key is gone and every other entry is kept |
| `Redis.SAdd` | repository/order/redis.go:39 | adding a member gives the old members plus that one, still without duplicates |
| `Redis.SRem` | repository/order/redis.go:88 | removing a member gives exactly the old members minus that one, without duplicates; removing a non-member changes nothing |
| `Redis.MGet` | repository/order/redis.go:145 | one value per requested key, in key order |
| `Redis.SScan` | repository/order/redis.go:130-135 | a reply is a contiguous run of members from the cursor; its length is the server's choice, and the COUNT sent neither bounds nor shapes it; and is at least one while any remain; cursor 0 is returned exactly when the reply reaches the end |
| `Redis.ScanFromCovers` | repository/order/redis.go:129-135 | chaining returned cursors until 0 yields every member from the start position once, in order, however the server sizes its replies |
| `Redis.FullScan` | repository/order/redis.go:130-135 | a full iteration from cursor 0 yields exactly the set's members, for every batching |
| `OrderRepo.OrderIDKey` | repository/order/redis.go:17-19 | the key is exactly `order:` followed by the `%d` form of the id (shortest decimal, no leading zero), and that numeral parses back to the id |
| `OrderRepo.OrderIDKeyInjective` | repository/order/redis.go:17-19 | two ids share a key only if they are equal |
| `OrderRepo.ScanCount` | repository/order/redis.go:130 | the COUNT sent is the page size when it is a positive int64, otherwise the server default applies |
| `OrderRepo.DecodeAll` | repository/order/redis.go:150-162 | succeeds iff every payload decodes, and then gives one order per payload, in order |
| `OrderRepo.FindAllResult` | repository/order/redis.go:129-167 | an empty scan gives an empty page with cursor 0; otherwise one decoded order per scanned key in key order with the scan's cursor, or `Corrupt` iff some payload fails to decode |
| `OrderRepo.RedisRepo.Insert` | repository/order/redis.go:21-49 | keeps the invariant; on success, stores the encoded order and adds its key when the key is absent, and changes nothing when it is present; afterwards FindByID returns the order (or the earlier one on a collision); on failure nothing changes |
| `OrderRepo.RedisRepo.FindByID` | repository/order/redis.go:53-70 | `Backend` when the backend fails; `NotExist` iff the key is absent; `Corrupt` when the payload does not decode; `Success` of the decoded order when it decodes, and that order's id is the requested one |
| `OrderRepo.RedisRepo.DeleteByID` | repository/order/redis.go:72-98 | corrected (see Findings): keeps the invariant; on a present key removes it from map and set and nothing else; on an absent key `NotExist` with nothing changed |
| `OrderRepo.RedisRepo.Update` | repository/order/redis.go:100-116 | corrected (see Findings): keeps the invariant and never touches the set; writes only when the key is present, otherwise `NotExist` with nothing changed; afterwards FindByID returns the new order |
| `OrderRepo.DeleteByIDAsWritten` | repository/order/redis.go:72-98 | as written: unless the backend fails, the DEL+SREM transaction commits and succeeds whether or not the key existed; it keeps the map/set invariant and the keying invariant |
| `OrderRepo.UpdateAsWritten` | repository/order/redis.go:100-116 | as written: unless the backend fails, it succeeds, writing only a present key; the key set is unchanged and the keying invariant is kept |
| `OrderRepo.RedisRepo.FindAll` | repository/order/redis.go:129-168 | the loop yields exactly `FindAllResult` for the server's reply, failing on the first payload that does not decode; a backend failure on either round trip gives `Backend` |
| `OrderRepo.DeleteAbsentAsWritten` | repository/order/redis.go:78-81 | as written, deleting an absent id succeeds and changes nothing |
| `OrderRepo.UpdateAbsentAsWritten` | repository/order/redis.go:108-110 | as written, updating an absent order succeeds and writes nothing |
| `Handler.NewOrder` | handler/order.go:34-40 | the new order has the random id, the caller's customer and line items, the creation time, and no shipping or completion time |
| `Handler.CursorOf` | handler/order.go:61-72 | an empty cursor parameter reads as 0; any other is parsed as a base-10 uint64 |
| `Handler.NextCursorResumes` | handler/order.go:85-90 | the `next` cursor of a response, sent back, is read as the same cursor |
| `Handler.ErrorStatus` | handler/order.go:115-121 | `NotExist` becomes 404 and every other repository error 500 |
| `Handler.Transition` | handler/order.go:166-182 | "shipped" is accepted iff ShippedAt is set, and re-stamps only it; "completed" iff CompletedAt and ShippedAt are both set, and re-stamps only CompletedAt; anything else is refused |
| `Handler.ApplyUpdates` | handler/order.go:166-184 | a series of status updates never changes an order's id, customer, line items or creation time, and never clears a timestamp |
| `Handler.UnstampedOrderRefusesUpdates` | handler/order.go:166-182 | an order with neither timestamp refuses every status |
| `Handler.NewOrderNeverAdvances` | handler/order.go:35-40 | no series of status updates changes an order as Create builds it |
| `Handler.IntendedTransition` | handler/order.go:166-182 | the corrected rule: ship only while unshipped, complete only once shipped and while uncompleted |
| `Handler.IntendedLifecycle` | handler/order.go:162-178 | under the corrected rule a new order is shipped then completed, and neither step repeats |
| `Handler.IntendedKeepsShippedBeforeCompleted` | handler/order.go:173-178 | the corrected rule keeps "completed implies shipped" |
| `Handler.FoundResponse` | handler/order.go:114-128 | a found order is 200 with the order as body; an error is its ErrorStatus with no body |
| `Handler.ListResponse` | handler/order.go:79-99 | a page is 200 with its orders as items and its cursor as `next`; an error is 500 with no body |
| `Handler.DeleteResponse` | handler/order.go:210-220 | a successful delete is 204 with no body; a failure maps through ErrorStatus |
| `Handler.DeleteNeverCreatedAsWritten` | handler/order.go:198-221 | as written, DELETE of an id never created answers 204 |
| `Handler.Create` | handler/order.go:23-58 | a body that does not decode is 400; a failed insert is 500 with nothing stored; otherwise 201 with the new order, stored with its key added to the set when the id is new, and the store left exactly as it was when the id collided |
| `Handler.List` | handler/order.go:60-100 | a bad cursor is 400; otherwise the page requested with size 50 from that cursor, with the scan's cursor as `next`, or 500 on a failure |
| `Handler.GetByID` | handler/order.go:102-129 | a bad id is 400; 404 iff the key is absent; 200 with the decoded order iff it decodes; 500 on a corrupt payload or a backend failure |
| `Handler.UpdateByID` | handler/order.go:131-196 | 400 for a bad body or id; the read's error status; 400 when the rule refuses; 500 when the write fails; otherwise 200 and the updated order is stored; the set never changes |
| `Handler.DeleteByID` | handler/order.go:198-221 | over the corrected repository delete (see Findings): 400 for a bad id, 500 on a backend failure, 404 for an absent key with nothing changed, else 204 with the key gone from map and set |

## Findings

| source | as written | input that shows it | evidently intended | confidence | as-written member | corrected member |
|---|---|---|---|---|---|---|
| handler/order.go:167-178 | "shipped" needs ShippedAt already set; "completed" needs CompletedAt and ShippedAt already set | any order from POST /orders, then PUT `{"status":"shipped"}` or `{"status":"completed"}`: 400 | ship when not yet shipped; complete when shipped and not yet completed | high (conditions inverted); not executed | `Handler.NewOrderNeverAdvances` | `Handler.IntendedLifecycle` |
| repository/order/redis.go:78-81 | tests the queued DEL for a nil reply before EXEC | DELETE /orders/999999 on an empty store: 204 | 404 when no key was deleted | medium (rests on the client library reporting queued errors only at EXEC, and on DEL replying a count); not executed | `OrderRepo.DeleteAbsentAsWritten` | `OrderRepo.RedisRepo.DeleteByID` |
| repository/order/redis.go:108-110 | tests SET ... XX for a nil error | Update of an order whose key is absent: success, nothing written | `NotExist` | medium (rests on the client library turning the nil reply of SET XX into `false` without an error); not executed | `OrderRepo.UpdateAbsentAsWritten` | `OrderRepo.RedisRepo.Update` |

The repository methods and `Handler.DeleteByID` use the corrected delete and update. `Handler.UpdateByID` keeps the transition rule as written, because that rule is the behaviour this model describes. `Handler.IntendedTransition` is the corrected rule, with its lifecycle proved beside it.

## Left out

- JSON encoding internals: payloads are `Json(order)` or `Malformed(text)`. The marshalling error branches (repository/order/redis.go:22-25, 101-104) and the handler's response encoding failures are unreachable or writer I/O, and are not modelled.
- Errors queued before EXEC (repository/order/redis.go:33-36, 39-42, 88-91) are not modelled separately. A backend failure is a failed EXEC or command, and it discards everything. Error messages are reduced to `NotExist`, `Backend` and `Corrupt`.
- Handler.Create: answers 201, although the handler writes the body before the header, so the status actually sent is 200. That ordering is transport behaviour.
- Concurrency: there is one sequential client. Transaction isolation across clients and SSCAN's weak consistency under concurrent changes are not modelled.
- Redis.SScan: the scan cursor is a position in the member sequence, not Redis's hash-table cursor, and it is an unbounded `nat`, not limited to 64 bits. The reply's length is a parameter chosen by the server, and COUNT does not bound it. A reply carries at least one member while any remain. A real SSCAN may return an empty reply with a non-zero cursor, and that case is not modelled.
- Handler.List: the page it answers has as many orders as the server's scan reply has members. This can be more or fewer than the requested size of 50, and that size is only the COUNT hint.
- OrderRepo.RedisRepo.FindAll: drops the scan's cursor on an empty reply. In this model an empty reply always comes with cursor 0. With a real SSCAN, an empty reply with a non-zero cursor would make a client stop early.
- MGET's nil entries for missing keys, and the resulting failed type assertion, are not modelled. The invariant rules them out.
- `time.Now`, `rand.Uint64`, request decoding and route parameters are parameters. Logging is not modelled.
- application/app.go, application/config.go and main.go (startup, configuration, shutdown) are not part of this model. Neither is model/order.go: `Order` has the fields the handler uses, and `LineItem` is an item id and a quantity.
