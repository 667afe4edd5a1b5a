/**
 * The stream worker's write-batching buffer (app/worker/worker.py).
 *
 * Three dictionaries keyed by (genre, location) hold the buffered items,
 * the arrival time of the first of them and their approximate size.
 * Messages are decoded into the buffer one by one; a key is flushed once a
 * count, age or byte threshold is crossed, by one bulk-insert call followed
 * by one acknowledgement per source stream. Redis and MySQL are outside the
 * model: the clock is the parameter `now`, the insert's outcome is the input
 * `insertSucceeds`, and acknowledgements are recorded as (stream, ids) calls.
 */
module Worker {
  import opened Wrappers
  import opened Blogs

  /** The composite buffer key (genre, location). */
  type Key = (string, string)

  /** A decoded row together with the stream entry it came from (BufferedItem). */
  datatype BufferedItem = BufferedItem(row: BlogRow, stream: string, messageId: string)

  /** One element of the JSON array handed to the bulk-insert procedure. */
  datatype JsonRow = JsonRow(
    clientMsgId: string,
    author: string,
    createdAt: Time,
    updatedAt: Time,
    genre: string,
    location: string,
    content: string)

  /** One acknowledge-and-delete call on a stream for the given entry ids. */
  datatype AckCall = AckCall(stream: string, messageIds: seq<string>)

  /** What a call of `_flush_key` did. */
  datatype FlushOutcome =
    | NothingBuffered
    | InsertRaised(rows: seq<JsonRow>)
    | Flushed(rows: seq<JsonRow>, acks: seq<AckCall>)

  const StreamPrefix: string := "blogs:genre:"

  /** `stream_for_genre`: the genre can be read back after the fixed prefix. */
  function StreamForGenre(genre: string): (s: string)
    ensures |s| == |StreamPrefix| + |genre|
    ensures s[..|StreamPrefix|] == StreamPrefix && s[|StreamPrefix|..] == genre
  {
    StreamPrefix + genre
  }

  /** Distinct genres give distinct streams. */
  lemma StreamForGenreInjective(g1: string, g2: string)
    requires StreamForGenre(g1) == StreamForGenre(g2)
    ensures g1 == g2
  {
    assert g1 == StreamForGenre(g1)[|StreamPrefix|..];
  }

  /** The buffer key of a row. */
  function KeyOf(row: BlogRow): Key
  {
    (row.genre, row.location)
  }

  /** `fields.get(name, "")`. */
  function FieldOr(fields: map<string, string>, name: string): string
  {
    if name in fields then fields[name] else ""
  }

  /**
   * The decoding half of `_add_to_buffer`. It never fails: a missing text
   * field reads as "", a missing id as None, and a creation time that is
   * missing or that `parseIso` rejects falls back to `now`, which is also
   * the row's update time.
   */
  function DecodeRow(fields: map<string, string>, now: Time, parseIso: string -> Option<Time>): (row: BlogRow)
    ensures "genre" in fields ==> row.genre == fields["genre"]
    ensures "location" in fields ==> row.location == fields["location"]
    ensures "author" in fields ==> row.author == fields["author"]
    ensures "content" in fields ==> row.content == fields["content"]
    ensures "genre" !in fields ==> row.genre == ""
    ensures "location" !in fields ==> row.location == ""
    ensures "author" !in fields ==> row.author == ""
    ensures "content" !in fields ==> row.content == ""
    ensures "client_msg_id" in fields ==> row.clientMsgId == Some(fields["client_msg_id"])
    ensures "client_msg_id" !in fields ==> row.clientMsgId == None
    ensures "created_at_iso" in fields && parseIso(fields["created_at_iso"]).Some? ==>
              row.createdAt == parseIso(fields["created_at_iso"]).value
    ensures ("created_at_iso" !in fields || parseIso(fields["created_at_iso"]).None?) ==> row.createdAt == now
    ensures row.updatedAt == now
  {
    var clientMsgId := if "client_msg_id" in fields then Some(fields["client_msg_id"]) else None;
    var createdAt :=
      if "created_at_iso" in fields then parseIso(fields["created_at_iso"]).GetOr(now) else now;
    BlogRow(clientMsgId, FieldOr(fields, "author"), createdAt, now,
            FieldOr(fields, "genre"), FieldOr(fields, "location"), FieldOr(fields, "content"))
  }

  /** The size estimate one item adds to its key. */
  function ApproxBytes(row: BlogRow): nat
  {
    |row.content| + |row.author| + |row.location| + |row.genre| + 64
  }

  /** The sum of the size estimates of `items`. */
  function SumBytes(items: seq<BufferedItem>): nat
  {
    if items == [] then 0 else SumBytes(items[..|items| - 1]) + ApproxBytes(items[|items| - 1].row)
  }

  /** Every buffered item weighs at least 64. */
  lemma {:induction false} SumBytesAtLeast(items: seq<BufferedItem>)
    ensures SumBytes(items) >= 64 * |items|
  {
    if items != [] {
      SumBytesAtLeast(items[..|items| - 1]);
    }
  }

  lemma SumBytesSnoc(items: seq<BufferedItem>, item: BufferedItem)
    ensures SumBytes(items + [item]) == SumBytes(items) + ApproxBytes(item.row)
  {
    assert (items + [item])[..|items|] == items;
  }

  /** The JSON form of one row: an absent client id is sent as "". */
  function ToJsonRow(r: BlogRow): (j: JsonRow)
    ensures j.clientMsgId == r.clientMsgId.GetOr("")
    ensures j.author == r.author && j.genre == r.genre && j.location == r.location && j.content == r.content
    ensures j.createdAt == r.createdAt && j.updatedAt == r.updatedAt
  {
    JsonRow(r.clientMsgId.GetOr(""), r.author, r.createdAt, r.updatedAt, r.genre, r.location, r.content)
  }

  /** The first loop of `_flush_key`: one JSON row per item, in buffer order. */
  method BuildRowsJson(items: seq<BufferedItem>) returns (rows: seq<JsonRow>)
    ensures |rows| == |items|
    ensures forall i :: 0 <= i < |items| ==> rows[i] == ToJsonRow(items[i].row)
  {
    rows := [];
    for i := 0 to |items|
      invariant |rows| == i
      invariant forall k :: 0 <= k < i ==> rows[k] == ToJsonRow(items[k].row)
    {
      rows := rows + [ToJsonRow(items[i].row)];
    }
  }

  /** The streams of `items`, each once, in order of first appearance. */
  function StreamsInOrder(items: seq<BufferedItem>): seq<string>
  {
    if items == [] then []
    else
      var earlier := StreamsInOrder(items[..|items| - 1]);
      var s := items[|items| - 1].stream;
      if s in earlier then earlier else earlier + [s]
  }

  /** The message ids of the items from stream `s`, in arrival order. */
  function IdsOf(items: seq<BufferedItem>, s: string): seq<string>
  {
    if items == [] then []
    else
      var last := items[|items| - 1];
      IdsOf(items[..|items| - 1], s) + (if last.stream == s then [last.messageId] else [])
  }

  /** All message ids of `items`, in arrival order. */
  function MessageIds(items: seq<BufferedItem>): seq<string>
  {
    if items == [] then [] else MessageIds(items[..|items| - 1]) + [items[|items| - 1].messageId]
  }

  ghost predicate Distinct<T>(s: seq<T>)
  {
    forall i, j :: 0 <= i < j < |s| ==> s[i] != s[j]
  }

  /** A stream is listed exactly when some item came from it, and only once. */
  lemma {:induction false} StreamsInOrderSpec(items: seq<BufferedItem>)
    ensures Distinct(StreamsInOrder(items))
    ensures forall s :: s in StreamsInOrder(items) <==> exists i :: 0 <= i < |items| && items[i].stream == s
  {
    if items != [] {
      var prefix := items[..|items| - 1];
      StreamsInOrderSpec(prefix);
      forall s | s in StreamsInOrder(items)
        ensures exists i :: 0 <= i < |items| && items[i].stream == s
      {
        if s in StreamsInOrder(prefix) {
          var i :| 0 <= i < |prefix| && prefix[i].stream == s;
          assert items[i].stream == s;
        } else {
          assert items[|items| - 1].stream == s;
        }
      }
      forall s | exists i :: 0 <= i < |items| && items[i].stream == s
        ensures s in StreamsInOrder(items)
      {
        var i :| 0 <= i < |items| && items[i].stream == s;
        if i < |items| - 1 {
          assert prefix[i].stream == s;
        }
      }
    }
  }

  /** A stream no item came from has no ids. */
  lemma {:induction false} IdsOfUnseen(items: seq<BufferedItem>, s: string)
    requires s !in StreamsInOrder(items)
    ensures IdsOf(items, s) == []
  {
    if items != [] {
      IdsOfUnseen(items[..|items| - 1], s);
    }
  }

  /**
   * The second loop of `_flush_key`: message ids grouped by stream, streams
   * in order of first appearance (a Python dict keeps insertion order).
   */
  method GroupByStream(items: seq<BufferedItem>) returns (order: seq<string>, groups: map<string, seq<string>>)
    ensures order == StreamsInOrder(items)
    ensures forall s :: s in groups <==> s in order
    ensures forall s :: s in groups ==> groups[s] == IdsOf(items, s)
  {
    order, groups := [], map[];
    for i := 0 to |items|
      invariant order == StreamsInOrder(items[..i])
      invariant forall s :: s in groups <==> s in order
      invariant forall s :: s in groups ==> groups[s] == IdsOf(items[..i], s)
    {
      assert items[..i + 1][..i] == items[..i];
      var s := items[i].stream;
      if s !in groups {
        IdsOfUnseen(items[..i], s);
        order := order + [s];
        groups := groups[s := []];
      }
      groups := groups[s := groups[s] + [items[i].messageId]];
    }
    assert items[..|items|] == items;
  }

  /** One acknowledgement per stream in `streams`, each with that stream's ids. */
  function AckCallsFor(items: seq<BufferedItem>, streams: seq<string>): (acks: seq<AckCall>)
    ensures |acks| == |streams|
    ensures forall j :: 0 <= j < |streams| ==> acks[j] == AckCall(streams[j], IdsOf(items, streams[j]))
  {
    if streams == [] then [] else [AckCall(streams[0], IdsOf(items, streams[0]))] + AckCallsFor(items, streams[1..])
  }

  /** The acknowledgements a successful flush of `items` issues. */
  function AckCalls(items: seq<BufferedItem>): seq<AckCall>
  {
    AckCallsFor(items, StreamsInOrder(items))
  }

  /** Every id acknowledged by `acks`, call after call. */
  function AckedIds(acks: seq<AckCall>): seq<string>
  {
    if acks == [] then [] else acks[0].messageIds + AckedIds(acks[1..])
  }

  /** One more item adds its id once, under the one stream of `streams` it belongs to. */
  lemma {:induction false} AckedIdsSnoc(items: seq<BufferedItem>, item: BufferedItem, streams: seq<string>)
    requires Distinct(streams)
    ensures multiset(AckedIds(AckCallsFor(items + [item], streams)))
         == multiset(AckedIds(AckCallsFor(items, streams)))
            + (if item.stream in streams then multiset{item.messageId} else multiset{})
  {
    if streams != [] {
      var s, rest := streams[0], streams[1..];
      var more := items + [item];
      assert Distinct(rest);
      AckedIdsSnoc(items, item, rest);
      assert more[..|items|] == items;
      var extra := if item.stream == s then [item.messageId] else [];
      assert IdsOf(more, s) == IdsOf(items, s) + extra;
      assert AckedIds(AckCallsFor(more, streams)) == IdsOf(more, s) + AckedIds(AckCallsFor(more, rest));
      assert AckedIds(AckCallsFor(items, streams)) == IdsOf(items, s) + AckedIds(AckCallsFor(items, rest));
      assert item.stream == s ==> item.stream !in rest;
      assert item.stream in streams <==> item.stream == s || item.stream in rest;
    }
  }

  /**
   * The acknowledgements cover exactly the buffered ids: each id as often
   * as it was buffered, no more and no fewer.
   */
  lemma {:induction false} AckCallsCoverBuffer(items: seq<BufferedItem>, streams: seq<string>)
    requires Distinct(streams)
    requires forall i :: 0 <= i < |items| ==> items[i].stream in streams
    ensures multiset(AckedIds(AckCallsFor(items, streams))) == multiset(MessageIds(items))
  {
    if items == [] {
      AckedIdsEmpty(streams);
    } else {
      var prefix, last := items[..|items| - 1], items[|items| - 1];
      assert items == prefix + [last];
      AckCallsCoverBuffer(prefix, streams);
      AckedIdsSnoc(prefix, last, streams);
    }
  }

  lemma {:induction false} AckedIdsEmpty(streams: seq<string>)
    ensures AckedIds(AckCallsFor([], streams)) == []
  {
    if streams != [] {
      AckedIdsEmpty(streams[1..]);
    }
  }

  /**
   * The acknowledgements of a flush: one call per stream, streams distinct,
   * each call holding exactly its stream's ids in arrival order, and all
   * calls together holding exactly the buffered ids.
   */
  lemma AckCallsSpec(items: seq<BufferedItem>)
    ensures Distinct(StreamsInOrder(items))
    ensures forall s :: s in StreamsInOrder(items) <==> exists i :: 0 <= i < |items| && items[i].stream == s
    ensures forall a :: a in AckCalls(items) ==> a.messageIds == IdsOf(items, a.stream)
    ensures multiset(AckedIds(AckCalls(items))) == multiset(MessageIds(items))
  {
    StreamsInOrderSpec(items);
    forall i | 0 <= i < |items| ensures items[i].stream in StreamsInOrder(items) {
    }
    AckCallsCoverBuffer(items, StreamsInOrder(items));
  }

  /**
   * The acknowledgement loop of `_flush_key`: group the ids by stream, then
   * one call per stream, streams in order of first appearance.
   */
  method PlanAcks(items: seq<BufferedItem>) returns (calls: seq<AckCall>)
    ensures calls == AckCalls(items)
  {
    var order, groups := GroupByStream(items);
    calls := [];
    for j := 0 to |order|
      invariant |calls| == j
      invariant forall t :: 0 <= t < j ==> calls[t] == AckCall(order[t], IdsOf(items, order[t]))
    {
      calls := calls + [AckCall(order[j], groups[order[j]])];
    }
  }

  /** `a` occurs in `s` before some occurrence of `b`. */
  ghost predicate Before<T>(s: seq<T>, a: T, b: T)
  {
    exists p, q :: 0 <= p < q < |s| && s[p] == a && s[q] == b
  }

  /** Any two elements of `sub` come in `s` in the same order as in `sub`. */
  ghost predicate InOrderOf<T>(sub: seq<T>, s: seq<T>)
  {
    forall i, j :: 0 <= i < j < |sub| ==> Before(s, sub[i], sub[j])
  }

  /**
   * Keeping or dropping the head of `s` in front of elements chosen, in
   * order, from its tail keeps them in the order of `s`.
   */
  lemma InOrderOfCons<T>(s: seq<T>, rest: seq<T>)
    requires s != []
    requires InOrderOf(rest, s[1..])
    requires forall k :: k in rest ==> k in s[1..]
    ensures InOrderOf(rest, s)
    ensures InOrderOf([s[0]] + rest, s)
  {
    var tail := s[1..];
    forall i, j | 0 <= i < j < |rest| ensures Before(s, rest[i], rest[j]) {
      assert Before(tail, rest[i], rest[j]);
      var p, q :| 0 <= p < q < |tail| && tail[p] == rest[i] && tail[q] == rest[j];
      assert s[p + 1] == rest[i] && s[q + 1] == rest[j];
    }
    var sub := [s[0]] + rest;
    forall i, j | 0 <= i < j < |sub| ensures Before(s, sub[i], sub[j]) {
      if i == 0 {
        assert sub[j] == rest[j - 1] && rest[j - 1] in tail;
        var q :| 0 <= q < |tail| && tail[q] == sub[j];
        assert s[0] == sub[0] && s[q + 1] == sub[j];
      } else {
        assert sub[i] == rest[i - 1] && sub[j] == rest[j - 1];
      }
    }
  }

  /** `m[key]` of a defaultdict(list): an absent key reads as []. */
  function ItemsIn(m: map<Key, seq<BufferedItem>>, key: Key): seq<BufferedItem>
  {
    if key in m then m[key] else []
  }

  /** `m.get(key, 0)`. */
  function CountIn(m: map<Key, int>, key: Key): int
  {
    if key in m then m[key] else 0
  }

  /**
   * The buffer tables agree: the same keys everywhere, a first-arrival time
   * exactly for the non-empty lists, the byte count equal to the sum of the
   * item sizes, and every item filed under its own key.
   */
  ghost predicate TablesValid(buffers: map<Key, seq<BufferedItem>>, firstAt: map<Key, Time>,
                              bytes: map<Key, int>, keyOrder: seq<Key>)
  {
    && Distinct(keyOrder)
    && forall k {:trigger ItemsIn(buffers, k)} ::
         && (k in keyOrder <==> k in buffers)
         && (k in bytes <==> k in buffers)
         && (k in firstAt <==> ItemsIn(buffers, k) != [])
         && CountIn(bytes, k) == SumBytes(ItemsIn(buffers, k))
         && forall i :: 0 <= i < |ItemsIn(buffers, k)| ==> KeyOf(ItemsIn(buffers, k)[i].row) == k
  }

  /** Appending an item under its own key keeps the tables in agreement. */
  lemma AppendKeepsTables(buffers: map<Key, seq<BufferedItem>>, firstAt: map<Key, Time>,
                          bytes: map<Key, int>, keyOrder: seq<Key>, item: BufferedItem, now: Time)
    requires TablesValid(buffers, firstAt, bytes, keyOrder)
    ensures var key := KeyOf(item.row);
      TablesValid(buffers[key := ItemsIn(buffers, key) + [item]],
                  if key in firstAt then firstAt else firstAt[key := now],
                  bytes[key := CountIn(bytes, key) + ApproxBytes(item.row)],
                  if key in buffers then keyOrder else keyOrder + [key])
  {
    var key := KeyOf(item.row);
    SumBytesSnoc(ItemsIn(buffers, key), item);
    var b := buffers[key := ItemsIn(buffers, key) + [item]];
    var f := if key in firstAt then firstAt else firstAt[key := now];
    var n := bytes[key := CountIn(bytes, key) + ApproxBytes(item.row)];
    var o := if key in buffers then keyOrder else keyOrder + [key];
    if key !in buffers {
      assert key !in keyOrder;
      assert forall i :: 0 <= i < |keyOrder| ==> o[i] == keyOrder[i];
    }
    forall k
      ensures && (k in o <==> k in b)
              && (k in n <==> k in b)
              && (k in f <==> ItemsIn(b, k) != [])
              && CountIn(n, k) == SumBytes(ItemsIn(b, k))
              && forall i :: 0 <= i < |ItemsIn(b, k)| ==> KeyOf(ItemsIn(b, k)[i].row) == k
    {
      if k == key {
        var i := |ItemsIn(b, k)| - 1;
        assert ItemsIn(b, k)[i] == item;
        assert ItemsIn(b, k)[..i] == ItemsIn(buffers, key);
      } else {
        assert ItemsIn(b, k) == ItemsIn(buffers, k);
      }
    }
  }

  /** Emptying one key keeps the tables in agreement. */
  lemma ResetKeepsTables(buffers: map<Key, seq<BufferedItem>>, firstAt: map<Key, Time>,
                         bytes: map<Key, int>, keyOrder: seq<Key>, key: Key)
    requires TablesValid(buffers, firstAt, bytes, keyOrder)
    requires key in buffers
    ensures TablesValid(buffers[key := []], firstAt - {key}, bytes[key := 0], keyOrder)
  {
    var b := buffers[key := []];
    forall k
      ensures && (k in keyOrder <==> k in b)
              && (k in bytes[key := 0] <==> k in b)
              && (k in firstAt - {key} <==> ItemsIn(b, k) != [])
              && CountIn(bytes[key := 0], k) == SumBytes(ItemsIn(b, k))
              && forall i :: 0 <= i < |ItemsIn(b, k)| ==> KeyOf(ItemsIn(b, k)[i].row) == k
    {
      if k != key {
        assert ItemsIn(b, k) == ItemsIn(buffers, k);
      } else {
        assert ItemsIn(buffers, k) == buffers[k];
      }
    }
  }

  /**
   * Between flushes a key's byte count is the sum of its items' estimates,
   * hence at least 64 per buffered item.
   */
  lemma BytesBound(buffers: map<Key, seq<BufferedItem>>, firstAt: map<Key, Time>,
                   bytes: map<Key, int>, keyOrder: seq<Key>, key: Key)
    requires TablesValid(buffers, firstAt, bytes, keyOrder)
    ensures CountIn(bytes, key) == SumBytes(ItemsIn(buffers, key))
    ensures CountIn(bytes, key) >= 64 * |ItemsIn(buffers, key)|
  {
    SumBytesAtLeast(ItemsIn(buffers, key));
  }

  /** The worker's buffer state (the buffering part of BlogWorker). */
  class BlogWorker {
    const batchMaxCount: int
    const batchMaxAgeMs: int
    const batchMaxBytes: int

    var buffers: map<Key, seq<BufferedItem>>
    var bufferFirstAt: map<Key, Time>
    var bufferBytes: map<Key, int>
    /** The keys of `buffers` in insertion order, as the dict iterates them. */
    var keyOrder: seq<Key>
    /** Every acknowledgement issued so far. */
    var acked: seq<AckCall>

    ghost predicate Valid()
      reads this
    {
      TablesValid(buffers, bufferFirstAt, bufferBytes, keyOrder)
    }

    /** `self.buffers[key]` of the defaultdict: an absent key reads as []. */
    function Items(key: Key): seq<BufferedItem>
      reads this
    {
      ItemsIn(buffers, key)
    }

    /** `self.buffer_bytes.get(key, 0)`. */
    function BytesOf(key: Key): int
      reads this
    {
      CountIn(bufferBytes, key)
    }

    constructor (maxCount: int, maxAgeMs: int, maxBytes: int)
      ensures Valid()
      ensures batchMaxCount == maxCount && batchMaxAgeMs == maxAgeMs && batchMaxBytes == maxBytes
      ensures buffers == map[] && bufferFirstAt == map[] && bufferBytes == map[]
      ensures keyOrder == [] && acked == []
    {
      batchMaxCount, batchMaxAgeMs, batchMaxBytes := maxCount, maxAgeMs, maxBytes;
      buffers, bufferFirstAt, bufferBytes := map[], map[], map[];
      keyOrder, acked := [], [];
    }

    /**
     * `_add_to_buffer`: decode the fields and append one item at the end of
     * its key's list; the first-arrival time is set only for an empty list,
     * and the byte count grows by the item's estimate. Nothing else changes.
     */
    method AddToBuffer(stream: string, mid: string, fields: map<string, string>,
                       now: Time, parseIso: string -> Option<Time>)
      requires Valid()
      modifies this
      ensures Valid()
      ensures var item := BufferedItem(DecodeRow(fields, now, parseIso), stream, mid);
        var key := KeyOf(item.row);
        && buffers == old(buffers)[key := ItemsIn(old(buffers), key) + [item]]
        && bufferFirstAt == (if key in old(bufferFirstAt) then old(bufferFirstAt) else old(bufferFirstAt)[key := now])
        && bufferBytes == old(bufferBytes)[key := CountIn(old(bufferBytes), key) + ApproxBytes(item.row)]
        && keyOrder == (if key in old(buffers) then old(keyOrder) else old(keyOrder) + [key])
      ensures acked == old(acked)
    {
      var row := DecodeRow(fields, now, parseIso);
      var key := KeyOf(row);
      var item := BufferedItem(row, stream, mid);
      AppendKeepsTables(buffers, bufferFirstAt, bufferBytes, keyOrder, item, now);
      buffers, bufferFirstAt, bufferBytes, keyOrder :=
        buffers[key := ItemsIn(buffers, key) + [item]],
        if key in bufferFirstAt then bufferFirstAt else bufferFirstAt[key := now],
        bufferBytes[key := CountIn(bufferBytes, key) + ApproxBytes(row)],
        if key in buffers then keyOrder else keyOrder + [key];
    }

    /**
     * `_should_flush`: never for an empty list; otherwise when the count,
     * the age of the first item or the byte estimate reaches its threshold.
     */
    function ShouldFlush(key: Key, now: Time): (r: bool)
      requires Valid()
      reads this
      ensures Items(key) == [] ==> !r
      ensures r <==> (Items(key) != [] &&
        (|Items(key)| >= batchMaxCount
         || now - bufferFirstAt[key] >= batchMaxAgeMs
         || SumBytes(Items(key)) >= batchMaxBytes))
    {
      var items := Items(key);
      if items == [] then false
      else if |items| >= batchMaxCount then true
      else if key in bufferFirstAt && now - bufferFirstAt[key] >= batchMaxAgeMs then true
      else BytesOf(key) >= batchMaxBytes
    }

    /** The keys of `ks` that are due, in the order of `ks`. */
    function DueAmong(ks: seq<Key>, now: Time): (due: seq<Key>)
      requires Valid()
      reads this
      ensures forall k :: k in due <==> k in ks && ShouldFlush(k, now)
      ensures Distinct(ks) ==> Distinct(due)
      ensures InOrderOf(due, ks)
    {
      if ks == [] then []
      else
        var rest := DueAmong(ks[1..], now);
        assert forall k :: k in ks <==> k == ks[0] || k in ks[1..];
        InOrderOfCons(ks, rest);
        if ShouldFlush(ks[0], now) then [ks[0]] + rest else rest
    }

    /**
     * The flush selection of `run` (line 177): the due keys, each once, in
     * the order the buffer table lists them.
     */
    function KeysToFlush(now: Time): (due: seq<Key>)
      requires Valid()
      reads this
      ensures forall k :: k in due <==> k in buffers && ShouldFlush(k, now)
      ensures Distinct(due)
      ensures InOrderOf(due, keyOrder)
    {
      DueAmong(keyOrder, now)
    }

    /**
     * `_flush_key`. An empty key is left alone. Otherwise the rows go to one
     * bulk insert; if it raises, nothing is acknowledged and nothing reset.
     * If it succeeds, one acknowledgement per stream is recorded (a failing
     * acknowledgement is only logged) and then exactly this key is reset.
     */
    method FlushKey(key: Key, insertSucceeds: bool) returns (outcome: FlushOutcome)
      requires Valid()
      modifies this
      ensures Valid()
      ensures keyOrder == old(keyOrder)
      ensures var items := ItemsIn(old(buffers), key);
        items == [] ==>
          outcome == NothingBuffered && buffers == old(buffers) && bufferFirstAt == old(bufferFirstAt)
          && bufferBytes == old(bufferBytes) && acked == old(acked)
      ensures var items := ItemsIn(old(buffers), key);
        items != [] ==>
          && (outcome.InsertRaised? || outcome.Flushed?)
          && |outcome.rows| == |items|
          && forall i :: 0 <= i < |items| ==> outcome.rows[i] == ToJsonRow(items[i].row)
      ensures var items := ItemsIn(old(buffers), key);
        items != [] && !insertSucceeds ==>
          outcome.InsertRaised? && buffers == old(buffers) && bufferFirstAt == old(bufferFirstAt)
          && bufferBytes == old(bufferBytes) && acked == old(acked)
      ensures var items := ItemsIn(old(buffers), key);
        items != [] && insertSucceeds ==>
          && outcome.Flushed? && outcome.acks == AckCalls(items)
          && buffers == old(buffers)[key := []]
          && bufferFirstAt == old(bufferFirstAt) - {key}
          && bufferBytes == old(bufferBytes)[key := 0]
          && acked == old(acked) + AckCalls(items)
    {
      var items := ItemsIn(buffers, key);
      if items == [] {
        return NothingBuffered;
      }
      var rows := BuildRowsJson(items);
      if !insertSucceeds {
        return InsertRaised(rows);
      }
      var calls := PlanAcks(items);
      ResetKeepsTables(buffers, bufferFirstAt, bufferBytes, keyOrder, key);
      acked, buffers, bufferFirstAt, bufferBytes := acked + calls, buffers[key := []], bufferFirstAt - {key}, bufferBytes[key := 0];
      outcome := Flushed(rows, calls);
    }
  }
}
