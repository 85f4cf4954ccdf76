/** The order repository over the key-value backend (repository/order/redis.go).
    Each order is stored as one string value under `order:<decimal id>`, and
    the keys of all live orders are the members of the set `orders`. */
module OrderRepo {
  import opened Wrappers
  import opened Uint64
  import opened Strconv
  import opened OrderModel
  import opened Redis

  const KeyPrefix: string := "order:"

  /** The name of the set holding the keys of all live orders. */
  const OrdersSet: string := "orders"

  /** The key under which the order with this id is stored. The decimal id
      can be read back from the key, so distinct ids never share a key. */
  function OrderIDKey(id: u64): (key: string)
    ensures key == KeyPrefix + FormatUint(id)
    ensures |key| > |KeyPrefix| && key[..|KeyPrefix|] == KeyPrefix
    ensures ParseUint(key[|KeyPrefix|..]) == Some(id)
  {
    ParseFormatRoundTrip(id);
    var key := KeyPrefix + FormatUint(id);
    assert key[|KeyPrefix|..] == FormatUint(id);
    key
  }

  lemma OrderIDKeyInjective(a: u64, b: u64)
    ensures OrderIDKey(a) == OrderIDKey(b) <==> a == b
  {
    if OrderIDKey(a) == OrderIDKey(b) {
      assert ParseUint(OrderIDKey(a)[|KeyPrefix|..]) == Some(b);
    }
  }

  /** `ErrNotExist` and the wrapped errors the repository returns: a backend
      (transport or transaction) failure, and a payload that does not decode. */
  datatype Error = NotExist | Backend | Corrupt

  /** Whether the backend answers the next round trip; on `Down` the command
      or transaction fails and nothing it would have changed is applied. */
  datatype Link = Up | Down

  datatype FindAllPage = FindAllPage(size: u64, offset: u64)

  datatype FindResult = FindResult(orders: seq<Order>, cursor: nat)

  /** The map/set invariant: the set's members are exactly the keys present. */
  ghost predicate Consistent(kv: map<string, Payload>, members: seq<string>)
  {
    NoDuplicates(members) && forall k :: k in kv <==> k in members
  }

  /** Every payload that decodes is stored under its own order's key. */
  ghost predicate WellKeyed(kv: map<string, Payload>)
  {
    forall k :: k in kv && Decode(kv[k]).Some? ==> k == OrderIDKey(Decode(kv[k]).value.orderId)
  }

  /** The scan count FindAll sends: the page size converted to int64; a
      count that is not positive is left out of the command, and the server
      then uses its default of 10. */
  function ScanCount(size: u64): (count: nat)
    ensures count > 0
    ensures 0 < size < 0x8000_0000_0000_0000 ==> count == size
  {
    if 0 < size < 0x8000_0000_0000_0000 then size else 10
  }

  /** Decodes every payload; one failure fails the whole sequence. */
  function DecodeAll(ps: seq<Payload>): (r: Option<seq<Order>>)
    ensures r.Some? <==> forall i :: 0 <= i < |ps| ==> Decode(ps[i]).Some?
    ensures r.Some? ==> |r.value| == |ps| && forall i :: 0 <= i < |ps| ==> Decode(ps[i]) == Some(r.value[i])
  {
    if ps == [] then Some([])
    else match (Decode(ps[0]), DecodeAll(ps[1..]))
      case (Some(o), Some(os)) =>
        assert forall i :: 1 <= i < |ps| ==> ps[i] == ps[1..][i - 1];
        Some([o] + os)
      case (None, _) => None
      case (_, None) =>
        assert forall i :: 0 <= i < |ps[1..]| ==> ps[1..][i] == ps[i + 1];
        None
  }

  lemma DecodeAllOfDecoded(ps: seq<Payload>, os: seq<Order>)
    requires |os| == |ps| && forall i :: 0 <= i < |ps| ==> Decode(ps[i]) == Some(os[i])
    ensures DecodeAll(ps) == Some(os)
  {
    var all := DecodeAll(ps).value;
    assert forall i :: 0 <= i < |ps| ==> all[i] == os[i];
    assert all == os;
  }

  /** What one FindAll call answers when the backend is reachable and its
      scan reply carries `batch` members. */
  function FindAllResult(kv: map<string, Payload>, members: seq<string>, page: FindAllPage, batch: nat): (r: Result<FindResult, Error>)
    requires Consistent(kv, members)
    ensures var reply := SScan(members, page.offset, ScanCount(page.size), batch);
      && (reply.keys == [] ==> r == Success(FindResult([], 0)))
      && (r.Failure? ==> r.error == Corrupt)
      && (r.Failure? <==> exists i :: 0 <= i < |reply.keys| && Decode(kv[reply.keys[i]]).None?)
      && (r.Success? && reply.keys != [] ==>
            r.value.cursor == reply.cursor && |r.value.orders| == |reply.keys|
            && forall i :: 0 <= i < |reply.keys| ==> Decode(kv[reply.keys[i]]) == Some(r.value.orders[i]))
  {
    var reply := SScan(members, page.offset, ScanCount(page.size), batch);
    if reply.keys == [] then Success(FindResult([], 0))
    else match DecodeAll(MGet(kv, reply.keys))
      case None => Failure(Corrupt)
      case Some(orders) => Success(FindResult(orders, reply.cursor))
  }

  /** `RedisRepo`: the store it reaches through its client. */
  class RedisRepo {
    /** The backend's string keys and their values. */
    var kv: map<string, Payload>
    /** The members of the set `OrdersSet`, in scan order. */
    var members: seq<string>

    ghost predicate Valid()
      reads this
    {
      Consistent(kv, members) && WellKeyed(kv)
    }

    constructor ()
      ensures Valid() && kv == map[] && members == []
    {
      kv := map[];
      members := [];
    }

    /** Stores the order under its key if that key is absent and adds the key
        to the set, both in one transaction. An existing order under the key
        is kept and the call still succeeds. */
    method Insert(o: Order, link: Link) returns (r: Outcome<Error>)
      requires Valid()
      modifies this
      ensures Valid()
      ensures r == if link.Up? then Pass else Fail(Backend)
      ensures var key := OrderIDKey(o.orderId);
        if r.Fail? || key in old(kv) then kv == old(kv) && members == old(members)
        else kv == old(kv)[key := Encode(o)] && members == old(members) + [key]
      ensures r.Pass? ==> (FindByID(o.orderId, Up) ==
        if OrderIDKey(o.orderId) in old(kv) then old(FindByID(o.orderId, Up)) else Success(o))
    {
      var data := Encode(o);
      var key := OrderIDKey(o.orderId);
      // the transaction: SETNX then SADD, applied together by EXEC
      var txnKv := SetNX(kv, key, data);
      var txnMembers := SAdd(members, key);
      if link.Down? {
        return Fail(Backend);
      }
      kv, members := txnKv, txnMembers;
      r := Pass;
    }

    /** Reads and decodes the order stored under the id's key. */
    function FindByID(id: u64, link: Link): (r: Result<Order, Error>)
      reads this
      ensures link.Down? ==> r == Failure(Backend)
      ensures link.Up? ==> (r == Failure(NotExist) <==> OrderIDKey(id) !in kv)
      ensures r.Success? ==> OrderIDKey(id) in kv && Decode(kv[OrderIDKey(id)]) == Some(r.value)
      ensures link.Up? && OrderIDKey(id) in kv && Decode(kv[OrderIDKey(id)]).None? ==> r == Failure(Corrupt)
      ensures link.Up? && OrderIDKey(id) in kv && Decode(kv[OrderIDKey(id)]).Some? ==>
                r == Success(Decode(kv[OrderIDKey(id)]).value)
      ensures Valid() && r.Success? ==> r.value.orderId == id
    {
      var key := OrderIDKey(id);
      if link.Down? then Failure(Backend)
      else if key !in kv then Failure(NotExist)
      else match Decode(kv[key])
        case None => Failure(Corrupt)
        case Some(o) =>
          OrderIDKeyInjective(o.orderId, id);
          Success(o)
    }

    /** Deletes the order's key and removes it from the set in one
        transaction; when no key was deleted the transaction is discarded
        and `NotExist` is returned. */
    method DeleteByID(id: u64, link: Link) returns (r: Outcome<Error>)
      requires Valid()
      modifies this
      ensures Valid()
      ensures var key := OrderIDKey(id);
        && r == (if link.Down? then Fail(Backend) else if key !in old(kv) then Fail(NotExist) else Pass)
        && (r.Fail? ==> kv == old(kv) && members == old(members))
        && (r.Pass? ==> kv == old(kv) - {key} && members == SRem(old(members), key))
      ensures r.Pass? ==> FindByID(id, Up) == Failure(NotExist) && OrderIDKey(id) !in members
    {
      var key := OrderIDKey(id);
      if link.Down? {
        return Fail(Backend);
      }
      if key !in kv {
        return Fail(NotExist);
      }
      kv, members := Del(kv, key), SRem(members, key);
      r := Pass;
    }

    /** Replaces the stored order under its key, only if the key is present;
        the set is never touched. */
    method Update(o: Order, link: Link) returns (r: Outcome<Error>)
      requires Valid()
      modifies this
      ensures Valid()
      ensures members == old(members)
      ensures var key := OrderIDKey(o.orderId);
        && r == (if link.Down? then Fail(Backend) else if key !in old(kv) then Fail(NotExist) else Pass)
        && kv == (if r.Pass? then old(kv)[key := Encode(o)] else old(kv))
      ensures r.Pass? ==> FindByID(o.orderId, Up) == Success(o)
    {
      var data := Encode(o);
      var key := OrderIDKey(o.orderId);
      if link.Down? {
        return Fail(Backend);
      }
      if key !in kv {
        return Fail(NotExist);
      }
      kv := SetXX(kv, key, data);
      r := Pass;
    }

    /** One page of orders: scan the set from the page offset, fetch all the
        scanned keys with one MGET, and decode each value in turn. `batch` is
        how many members the server puts in its scan reply. */
    method FindAll(page: FindAllPage, batch: nat, scanLink: Link, mgetLink: Link) returns (r: Result<FindResult, Error>)
      requires Valid()
      ensures var reply := SScan(members, page.offset, ScanCount(page.size), batch);
        r == if scanLink.Down? || (reply.keys != [] && mgetLink.Down?) then Failure(Backend)
             else FindAllResult(kv, members, page, batch)
    {
      if scanLink.Down? {
        return Failure(Backend);
      }
      var reply := SScan(members, page.offset, ScanCount(page.size), batch);
      if reply.keys == [] {
        // MGET refuses an empty key list: answer an empty page
        return Success(FindResult([], 0));
      }
      if mgetLink.Down? {
        return Failure(Backend);
      }
      var xs := MGet(kv, reply.keys);
      var orders := new Order[|xs|];
      for i := 0 to |xs|
        invariant forall j :: 0 <= j < i ==> Decode(xs[j]) == Some(orders[j])
      {
        var decoded := Decode(xs[i]);
        if decoded.None? {
          assert DecodeAll(xs).None?;
          return Failure(Corrupt);
        }
        orders[i] := decoded.value;
      }
      DecodeAllOfDecoded(xs, orders[..]);
      r := Success(FindResult(orders[..], reply.cursor));
    }
  }

  /** A backend state and the outcome of a call that produced it. */
  datatype Committed = Committed(outcome: Outcome<Error>, kv: map<string, Payload>, members: seq<string>)

  /** DeleteByID as the client library runs it: a command queued in a
      transaction pipeline reports no error until EXEC, and DEL answers a
      count of deleted keys, never a nil reply, so the `ErrNotExist` branch is
      never taken and the transaction always runs. */
  function DeleteByIDAsWritten(kv: map<string, Payload>, members: seq<string>, id: u64, link: Link): (c: Committed)
    ensures c.outcome == if link.Up? then Pass else Fail(Backend)
    ensures c.outcome.Fail? ==> c.kv == kv && c.members == members
    ensures c.outcome.Pass? ==> c.kv == kv - {OrderIDKey(id)} && OrderIDKey(id) !in c.members
    ensures Consistent(kv, members) ==> Consistent(c.kv, c.members)
    ensures WellKeyed(kv) ==> WellKeyed(c.kv)
  {
    var key := OrderIDKey(id);
    if link.Down? then Committed(Fail(Backend), kv, members)
    else Committed(Pass, Del(kv, key), SRem(members, key))
  }

  /** Deleting an id that was never stored succeeds as written. */
  lemma DeleteAbsentAsWritten(kv: map<string, Payload>, members: seq<string>, id: u64)
    requires Consistent(kv, members) && OrderIDKey(id) !in kv
    ensures DeleteByIDAsWritten(kv, members, id, Up) == Committed(Pass, kv, members)
  {
    assert Del(kv, OrderIDKey(id)) == kv;
  }

  /** Update as the client library runs it: SET ... XX on an absent key gets
      a nil reply, which the client turns into `false` with no error, so the
      `ErrNotExist` branch is never taken. */
  function UpdateAsWritten(kv: map<string, Payload>, o: Order, link: Link): (r: (Outcome<Error>, map<string, Payload>))
    ensures r.0 == if link.Up? then Pass else Fail(Backend)
    ensures r.1.Keys == kv.Keys
    ensures r.0.Pass? && OrderIDKey(o.orderId) in kv ==> r.1 == kv[OrderIDKey(o.orderId) := Encode(o)]
    ensures r.0.Fail? || OrderIDKey(o.orderId) !in kv ==> r.1 == kv
    ensures WellKeyed(kv) ==> WellKeyed(r.1)
  {
    if link.Down? then (Fail(Backend), kv)
    else (Pass, SetXX(kv, OrderIDKey(o.orderId), Encode(o)))
  }

  /** Updating an order that was never stored succeeds as written and writes nothing. */
  lemma UpdateAbsentAsWritten(kv: map<string, Payload>, o: Order)
    requires OrderIDKey(o.orderId) !in kv
    ensures UpdateAsWritten(kv, o, Up) == (Pass, kv)
  {
  }
}
