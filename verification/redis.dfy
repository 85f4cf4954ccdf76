/** The backend commands the repository issues, as their effect on one
    sequential client's view of the store: string keys with their values, and
    the members of one set. A set's members are kept as a duplicate-free
    sequence in the order the server's incremental scan visits them. */
module Redis {

  ghost predicate NoDuplicates(s: seq<string>)
  {
    forall i, j :: 0 <= i < j < |s| ==> s[i] != s[j]
  }

  /** SET key value NX: write only when the key is absent. */
  function SetNX<V>(kv: map<string, V>, key: string, value: V): (r: map<string, V>)
    ensures r.Keys == kv.Keys + {key}
    ensures r[key] == if key in kv then kv[key] else value
    ensures forall k :: k in kv ==> r[k] == kv[k]
  {
    if key in kv then kv else kv[key := value]
  }

  /** SET key value XX: write only when the key is present. */
  function SetXX<V>(kv: map<string, V>, key: string, value: V): (r: map<string, V>)
    ensures r.Keys == kv.Keys
    ensures key in kv ==> r[key] == value
    ensures forall k :: k in kv && k != key ==> r[k] == kv[k]
  {
    if key in kv then kv[key := value] else kv
  }

  /** DEL key. */
  function Del<V>(kv: map<string, V>, key: string): (r: map<string, V>)
    ensures r.Keys == kv.Keys - {key}
    ensures forall k :: k in r ==> r[k] == kv[k]
  {
    kv - {key}
  }

  /** SADD set member: adding a member already present changes nothing. */
  function SAdd(s: seq<string>, member: string): (r: seq<string>)
    ensures forall x :: x in r <==> x in s || x == member
    ensures NoDuplicates(s) ==> NoDuplicates(r)
  {
    if member in s then s else s + [member]
  }

  /** SREM set member. */
  function SRem(s: seq<string>, member: string): (r: seq<string>)
    ensures forall x :: x in r <==> x in s && x != member
    ensures NoDuplicates(s) ==> NoDuplicates(r)
    ensures member !in s ==> r == s
  {
    if s == [] then []
    else if s[0] == member then SRem(s[1..], member)
    else
      var rest := SRem(s[1..], member);
      assert NoDuplicates(s) ==> NoDuplicates(s[1..]) && s[0] !in rest by {
        if NoDuplicates(s) {
          assert forall j :: 0 <= j < |s[1..]| ==> s[1..][j] == s[1 + j];
        }
      }
      [s[0]] + rest
  }

  /** MGET keys: one value per key, in the order of the keys. */
  function MGet<V>(kv: map<string, V>, keys: seq<string>): (vs: seq<V>)
    requires forall k :: k in keys ==> k in kv
    ensures |vs| == |keys| && forall i :: 0 <= i < |keys| ==> vs[i] == kv[keys[i]]
  {
    seq(|keys|, i requires 0 <= i < |keys| => kv[keys[i]])
  }

  /** One SSCAN reply: a batch of members and the cursor to continue from;
      cursor 0 means the iteration is complete. */
  datatype ScanReply = ScanReply(keys: seq<string>, cursor: nat)

  /** SSCAN set cursor COUNT count, with the cursor read as a position in the
      scan order. `count` is the COUNT argument the client sends; it is only
      a hint and does not shape the reply: how many members a reply carries
      is the server's choice (a small set comes back whole, whatever the
      count), modelled by `batch`. A reply carries at least one member while
      any remain, and never more than remain. */
  function SScan(s: seq<string>, cursor: nat, count: nat, batch: nat): (r: ScanReply)
    ensures cursor >= |s| ==> r == ScanReply([], 0)
    ensures cursor < |s| ==> 0 < |r.keys| && cursor + |r.keys| <= |s|
                             && r.keys == s[cursor..cursor + |r.keys|]
    ensures cursor < |s| && 0 < batch <= |s| - cursor ==> |r.keys| == batch
    ensures cursor < |s| && |s| - cursor <= batch ==> r == ScanReply(s[cursor..], 0)
    ensures r.cursor == 0 || (r.cursor == cursor + |r.keys| && r.cursor < |s|)
    ensures r.cursor == 0 && cursor < |s| ==> cursor + |r.keys| == |s|
    ensures forall k :: k in r.keys ==> k in s
  {
    var n := if batch == 0 then 1 else batch;
    if cursor >= |s| then ScanReply([], 0)
    else if cursor + n >= |s| then ScanReply(s[cursor..], 0)
    else ScanReply(s[cursor..cursor + n], cursor + n)
  }

  /** The members a client sees when it starts at `cursor` and keeps calling
      SSCAN with the returned cursor until that cursor is 0; the server
      answers the call at cursor `c` with `batches(c)` members. */
  ghost function ScanFrom(s: seq<string>, cursor: nat, count: nat, batches: nat -> nat): seq<string>
    decreases |s| - cursor
  {
    var r := SScan(s, cursor, count, batches(cursor));
    if r.cursor == 0 then r.keys else r.keys + ScanFrom(s, r.cursor, count, batches)
  }

  /** A complete iteration from any position returns every member from that
      position on exactly once, in scan order, however the server batches
      its replies. */
  lemma {:induction false} ScanFromCovers(s: seq<string>, cursor: nat, count: nat, batches: nat -> nat)
    requires cursor <= |s|
    ensures ScanFrom(s, cursor, count, batches) == s[cursor..]
    decreases |s| - cursor
  {
    var r := SScan(s, cursor, count, batches(cursor));
    if r.cursor != 0 {
      ScanFromCovers(s, r.cursor, count, batches);
      assert s[cursor..] == s[cursor..r.cursor] + s[r.cursor..];
    }
  }

  /** A complete iteration started at cursor 0 returns exactly the set's members. */
  lemma FullScan(s: seq<string>, count: nat, batches: nat -> nat)
    ensures ScanFrom(s, 0, count, batches) == s
  {
    ScanFromCovers(s, 0, count, batches);
  }
}
