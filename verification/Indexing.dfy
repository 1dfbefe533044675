/**
 The workspace index: one row per resource with the chunks of its text, kept by upserts and
 by replacing chunks, and its agreement with the log of all that was indexed.
 */
module Indexing {
  import opened Text
  import opened Json
  import opened Chunking
  import EmbeddingCache

  type Embedding = EmbeddingCache.Embedding

  datatype Item = Item(
    service: string,
    resourceId: string,
    title: string,
    searchableText: string,
    metadata: seq<Field>,
    createdAt: Option<string>,
    updatedAt: Option<string>)

  /** What identifies a resource: user, service and external id. */
  type ResourceKey = (string, string, string)

  function KeyOf(user: string, item: Item): ResourceKey {
    (user, item.service, item.resourceId)
  }

  datatype ItemRow = ItemRow(id: nat, user: string, item: Item)

  function RowKey(row: ItemRow): ResourceKey {
    KeyOf(row.user, row.item)
  }

  datatype ChunkRow = ChunkRow(itemId: nat, user: string, index: nat, text: string, embedding: Embedding)

  datatype SyncStatus = Pending | Running | Completed | Failed

  datatype SyncState = SyncState(
    status: SyncStatus,
    cursor: Option<string>,
    lastSuccess: Option<nat>,
    lastAttempt: Option<nat>,
    failed: bool)

  datatype Index = Index(rows: seq<ItemRow>, chunks: seq<ChunkRow>, nextId: nat)

  /** The part of the database that synchronization writes. */
  datatype Tables = Tables(index: Index, states: map<(string, string), SyncState>)

  // ---------- chunks of an item ----------

  const SIZE := Size(850, 100)

  /** The chunks of a text at the production size, at which chunking always stops. */
  ghost function TextChunks(text: string): seq<string> {
    SomeChunks(text);
    var chunks :| IsChunked(text, SIZE, Some(chunks));
    chunks
  }

  lemma {:induction false} SomeChunks(text: string)
    ensures exists chunks :: IsChunked(text, SIZE, Some(chunks))
  {
    TerminatesIffOverlapIsSmall(SIZE);
    var c := Cleaned(text);
    if c == "" {
      assert IsChunked(text, SIZE, Some([]));
    } else {
      var spans: seq<Span> :| IsRun(c, SIZE, spans);
      SpansAreInBounds(c, SIZE, spans);
      assert AreChunks(c, spans, Some(ChunksOf(c, spans)));
      assert IsChunked(text, SIZE, Some(ChunksOf(c, spans)));
    }
  }

  /** A text has one list of chunks. */
  lemma {:induction false} TextChunksAreUnique(text: string, chunks: seq<string>)
    ensures IsChunked(text, Size(850, 100), Some(chunks)) <==> chunks == TextChunks(text)
  {
    SomeChunks(text);
    if IsChunked(text, SIZE, Some(chunks)) && Cleaned(text) != "" {
      ChunkedOnce(text, chunks, TextChunks(text));
    }
  }

  lemma {:induction false} ChunkedOnce(text: string, chunks: seq<string>, others: seq<string>)
    requires IsChunked(text, SIZE, Some(chunks)) && IsChunked(text, SIZE, Some(others)) && Cleaned(text) != ""
    ensures chunks == others
  {
    var c := Cleaned(text);
    var a: seq<Span> :| IsRun(c, SIZE, a) && AreChunks(c, a, Some(chunks));
    var b: seq<Span> :| IsRun(c, SIZE, b) && AreChunks(c, b, Some(others));
    RunIsUnique(c, SIZE, a, b);
  }

  function Numbered(id: nat, user: string, texts: seq<string>, vectors: seq<Embedding>): (rows: seq<ChunkRow>)
    requires |texts| == |vectors|
    ensures |rows| == |texts| && forall i :: 0 <= i < |rows| ==> rows[i] == ChunkRow(id, user, i, texts[i], vectors[i])
  {
    seq(|texts|, i requires 0 <= i < |texts| => ChunkRow(id, user, i, texts[i], vectors[i]))
  }

  predicate IsChunkOf(c: ChunkRow, id: nat, user: string) {
    c.itemId == id && c.user == user
  }

  function ChunksFor(chunks: seq<ChunkRow>, id: nat, user: string): (r: seq<ChunkRow>)
    ensures forall c :: c in r <==> c in chunks && IsChunkOf(c, id, user)
  {
    if chunks == [] then []
    else
      (if IsChunkOf(chunks[0], id, user) then [chunks[0]] else []) + ChunksFor(chunks[1..], id, user)
  }

  function ChunksOfOthers(chunks: seq<ChunkRow>, id: nat, user: string): (r: seq<ChunkRow>)
    ensures forall c :: c in r <==> c in chunks && !IsChunkOf(c, id, user)
  {
    if chunks == [] then []
    else
      (if IsChunkOf(chunks[0], id, user) then [] else [chunks[0]]) + ChunksOfOthers(chunks[1..], id, user)
  }

  // ---------- indexing one item ----------

  function FindRow(rows: seq<ItemRow>, key: ResourceKey): (r: Option<nat>)
    ensures r.Some? ==> r.value < |rows| && RowKey(rows[r.value]) == key
    ensures r.None? ==> forall i :: 0 <= i < |rows| ==> RowKey(rows[i]) != key
  {
    if rows == [] then None
    else if RowKey(rows[0]) == key then Some(0)
    else
      var r := FindRow(rows[1..], key);
      assert forall i :: 0 < i < |rows| ==> rows[i] == rows[1..][i - 1];
      if r.Some? then Some(r.value + 1) else None
  }

  /** `insert … on conflict do update … returning id` */
  function Upsert(index: Index, user: string, item: Item): (Index, nat) {
    var found := FindRow(index.rows, KeyOf(user, item));
    if found.Some? then
      var row := index.rows[found.value];
      (index.(rows := index.rows[found.value := row.(item := item)]), row.id)
    else
      (index.(rows := index.rows + [ItemRow(index.nextId, user, item)], nextId := index.nextId + 1), index.nextId)
  }

  /** The embeddings of chunks; none are asked for when there are no chunks. */
  function Vectors(embed: seq<string> -> Option<seq<Embedding>>, texts: seq<string>): (r: Option<seq<Embedding>>)
    ensures r.Some? ==> |r.value| == |texts|
  {
    if texts == [] then Some([])
    else
      var vectors := embed(texts);
      if vectors.Some? && |vectors.value| == |texts| then vectors else None
  }

  /** The index without the chunks of a row. */
  function WithoutChunks(index: Index, id: nat, user: string): Index {
    index.(chunks := ChunksOfOthers(index.chunks, id, user))
  }

  function ReplaceChunks(index: Index, id: nat, user: string, texts: seq<string>, vectors: seq<Embedding>): Index
    requires |texts| == |vectors|
  {
    index.(chunks := ChunksOfOthers(index.chunks, id, user) + Numbered(id, user, texts, vectors))
  }

  /** The index after an item, or nothing when its chunks cannot be embedded. */
  ghost function Indexed(index: Index, embed: seq<string> -> Option<seq<Embedding>>, user: string, item: Item)
    : Option<Index>
  {
    var texts := TextChunks(item.searchableText);
    var vectors := Vectors(embed, texts);
    var (upserted, id) := Upsert(index, user, item);
    if vectors.None? then None else Some(ReplaceChunks(upserted, id, user, texts, vectors.value))
  }

  // ---------- the index agrees with what was indexed ----------

  datatype Entry = Entry(user: string, item: Item)

  /** The last item indexed under a key. */
  function Last(log: seq<Entry>, key: ResourceKey): Option<Item> {
    if log == [] then None
    else
      var e := log[|log| - 1];
      if KeyOf(e.user, e.item) == key then Some(e.item) else Last(log[..|log| - 1], key)
  }

  /** One row per key, one id per row. */
  predicate RowsDistinct(index: Index) {
    && (forall i :: 0 <= i < |index.rows| ==> index.rows[i].id < index.nextId)
    && forall i, j :: 0 <= i < j < |index.rows| ==>
         index.rows[i].id != index.rows[j].id && RowKey(index.rows[i]) != RowKey(index.rows[j])
  }

  /** The chunk rows of an item row are the chunks of its text, numbered from zero, with their embeddings. */
  ghost predicate ChunksRight(chunks: seq<ChunkRow>, embed: seq<string> -> Option<seq<Embedding>>, row: ItemRow) {
    var texts := TextChunks(row.item.searchableText);
    var vectors := Vectors(embed, texts);
    vectors.Some? && ChunksFor(chunks, row.id, row.user) == Numbered(row.id, row.user, texts, vectors.value)
  }

  ghost predicate HasRow(rows: seq<ItemRow>, key: ResourceKey) {
    exists i :: 0 <= i < |rows| && RowKey(rows[i]) == key
  }

  ghost predicate HasOwner(rows: seq<ItemRow>, c: ChunkRow) {
    exists i :: 0 <= i < |rows| && IsChunkOf(c, rows[i].id, rows[i].user)
  }

  /** The index holds the last item of every key in the log, with its chunks, and nothing else. */
  ghost predicate Agrees(index: Index, embed: seq<string> -> Option<seq<Embedding>>, log: seq<Entry>) {
    && RowsDistinct(index)
    && (forall i :: 0 <= i < |index.rows| ==> Last(log, RowKey(index.rows[i])) == Some(index.rows[i].item))
    && (forall key :: Last(log, key).Some? ==> HasRow(index.rows, key))
    && (forall i :: 0 <= i < |index.rows| ==> ChunksRight(index.chunks, embed, index.rows[i]))
    && forall c :: c in index.chunks ==> HasOwner(index.rows, c)
  }

  lemma {:induction false} FilterAppends(a: seq<ChunkRow>, b: seq<ChunkRow>, id: nat, user: string)
    ensures ChunksFor(a + b, id, user) == ChunksFor(a, id, user) + ChunksFor(b, id, user)
  {
    if a == [] {
      assert a + b == b;
    } else {
      assert (a + b)[1..] == a[1..] + b;
      FilterAppends(a[1..], b, id, user);
    }
  }

  lemma {:induction false} FilterKeepsAll(a: seq<ChunkRow>, id: nat, user: string)
    requires forall i :: 0 <= i < |a| ==> IsChunkOf(a[i], id, user)
    ensures ChunksFor(a, id, user) == a
  {
    if a != [] {
      FilterKeepsAll(a[1..], id, user);
      assert a == [a[0]] + a[1..];
    }
  }

  lemma {:induction false} FilterKeepsNone(a: seq<ChunkRow>, id: nat, user: string)
    requires forall i :: 0 <= i < |a| ==> !IsChunkOf(a[i], id, user)
    ensures ChunksFor(a, id, user) == []
  {
    if a != [] {
      FilterKeepsNone(a[1..], id, user);
    }
  }

  lemma {:induction false} FilterOfOthers(a: seq<ChunkRow>, id: nat, user: string, id': nat, user': string)
    requires id != id'
    ensures ChunksFor(ChunksOfOthers(a, id, user), id', user') == ChunksFor(a, id', user')
  {
    if a != [] {
      var rest := ChunksOfOthers(a[1..], id, user);
      FilterOfOthers(a[1..], id, user, id', user');
      if !IsChunkOf(a[0], id, user) {
        assert ChunksOfOthers(a, id, user) == [a[0]] + rest;
        assert ([a[0]] + rest)[1..] == rest;
      } else {
        assert ChunksOfOthers(a, id, user) == rest;
      }
    }
  }

  /** Replacing chunks gives the item its own and leaves every other item's. */
  lemma {:induction false} ReplacedChunks(index: Index, id: nat, user: string, texts: seq<string>,
                                          vectors: seq<Embedding>)
    requires |texts| == |vectors|
    ensures var chunks := ReplaceChunks(index, id, user, texts, vectors).chunks;
            && ChunksFor(chunks, id, user) == Numbered(id, user, texts, vectors)
            && forall id', user' :: id' != id ==> ChunksFor(chunks, id', user') == ChunksFor(index.chunks, id', user')
  {
    var others, new_ := ChunksOfOthers(index.chunks, id, user), Numbered(id, user, texts, vectors);
    FilterAppends(others, new_, id, user);
    FilterKeepsAll(new_, id, user);
    forall i | 0 <= i < |others| ensures !IsChunkOf(others[i], id, user) {
      assert others[i] in others;
    }
    FilterKeepsNone(others, id, user);
    forall id', user' | id' != id
      ensures ChunksFor(others + new_, id', user') == ChunksFor(index.chunks, id', user')
    {
      FilterAppends(others, new_, id', user');
      FilterKeepsNone(new_, id', user');
      FilterOfOthers(index.chunks, id, user, id', user');
    }
  }

  /** The upserted row, and that all others stay. */
  lemma {:induction false} Upserted(index: Index, user: string, item: Item) returns (at: nat)
    requires RowsDistinct(index)
    ensures var (r, id) := Upsert(index, user, item);
            && RowsDistinct(r) && r.chunks == index.chunks
            && |index.rows| <= |r.rows| <= |index.rows| + 1
            && at < |r.rows| && r.rows[at] == ItemRow(id, user, item)
            && (at < |index.rows| ==>
                 |r.rows| == |index.rows| && RowKey(index.rows[at]) == KeyOf(user, item) && index.rows[at].id == id)
            && (at >= |index.rows| ==> id == index.nextId)
            && forall i :: 0 <= i < |index.rows| && i != at ==>
                 r.rows[i] == index.rows[i] && r.rows[i].id != id && RowKey(r.rows[i]) != KeyOf(user, item)
  {
    var found := FindRow(index.rows, KeyOf(user, item));
    at := if found.Some? then found.value else |index.rows|;
  }

  lemma {:induction false} LastOfMore(log: seq<Entry>, e: Entry, key: ResourceKey)
    ensures Last(log + [e], key) == if KeyOf(e.user, e.item) == key then Some(e.item) else Last(log, key)
  {
    assert (log + [e])[..|log|] == log;
  }

  /** The rows after an item hold the last items of the longer log. */
  lemma {:induction false} RowsAgree(index: Index, embed: seq<string> -> Option<seq<Embedding>>, log: seq<Entry>,
                                     user: string, item: Item)
    requires Agrees(index, embed, log)
    ensures var (r, _) := Upsert(index, user, item);
            var more := log + [Entry(user, item)];
            && RowsDistinct(r)
            && (forall i :: 0 <= i < |r.rows| ==> Last(more, RowKey(r.rows[i])) == Some(r.rows[i].item))
            && forall key :: Last(more, key).Some? ==> HasRow(r.rows, key)
  {
    var e := Entry(user, item);
    var (r, id) := Upsert(index, user, item);
    var at := Upserted(index, user, item);
    forall i | 0 <= i < |r.rows| ensures Last(log + [e], RowKey(r.rows[i])) == Some(r.rows[i].item) {
      LastOfMore(log, e, RowKey(r.rows[i]));
    }
    forall key | Last(log + [e], key).Some? ensures HasRow(r.rows, key) {
      LastOfMore(log, e, key);
      if KeyOf(user, item) == key {
        assert RowKey(r.rows[at]) == key;
      } else {
        assert HasRow(index.rows, key);
        var i :| 0 <= i < |index.rows| && RowKey(index.rows[i]) == key;
        assert RowKey(r.rows[i]) == key;
      }
    }
  }

  /** The chunk rows after an item are those of the upserted rows. */
  lemma {:induction false} ChunksAgree(index: Index, embed: seq<string> -> Option<seq<Embedding>>, log: seq<Entry>,
                                       user: string, item: Item)
    requires Agrees(index, embed, log) && Indexed(index, embed, user, item).Some?
    ensures var r := Indexed(index, embed, user, item).value;
            && (forall i :: 0 <= i < |r.rows| ==> ChunksRight(r.chunks, embed, r.rows[i]))
            && forall c :: c in r.chunks ==> HasOwner(r.rows, c)
  {
    var texts := TextChunks(item.searchableText);
    var vectors := Vectors(embed, texts).value;
    var (u, id) := Upsert(index, user, item);
    var at := Upserted(index, user, item);
    ReplacedChunks(u, id, user, texts, vectors);
    var r := ReplaceChunks(u, id, user, texts, vectors);
    forall i | 0 <= i < |r.rows| ensures ChunksRight(r.chunks, embed, r.rows[i]) {
      if i != at {
        assert ChunksRight(index.chunks, embed, index.rows[i]);
      }
    }
    forall c | c in r.chunks ensures HasOwner(r.rows, c) {
      if c in ChunksOfOthers(u.chunks, id, user) {
        OwnerStays(index, user, item, at, c);
      } else {
        assert c in Numbered(id, user, texts, vectors);
        assert IsChunkOf(c, r.rows[at].id, r.rows[at].user);
      }
    }
  }

  lemma {:induction false} OwnerStays(index: Index, user: string, item: Item, at: nat, c: ChunkRow)
    requires HasOwner(index.rows, c)
    requires var (u, id) := Upsert(index, user, item);
             && |index.rows| <= |u.rows|
             && at < |u.rows| && u.rows[at] == ItemRow(id, user, item)
             && (at < |index.rows| ==> index.rows[at].id == id && index.rows[at].user == user)
             && forall i :: 0 <= i < |index.rows| && i != at ==> u.rows[i] == index.rows[i]
    ensures HasOwner(Upsert(index, user, item).0.rows, c)
  {
    var i :| 0 <= i < |index.rows| && IsChunkOf(c, index.rows[i].id, index.rows[i].user);
    var rows := Upsert(index, user, item).0.rows;
    assert IsChunkOf(c, rows[i].id, rows[i].user);
  }

  /** Indexing an item keeps the index in agreement with all that was indexed. */
  lemma {:induction false} IndexingKeepsAgreement(index: Index, embed: seq<string> -> Option<seq<Embedding>>,
                                                  log: seq<Entry>, user: string, item: Item)
    requires Agrees(index, embed, log) && Indexed(index, embed, user, item).Some?
    ensures Agrees(Indexed(index, embed, user, item).value, embed, log + [Entry(user, item)])
  {
    RowsAgree(index, embed, log, user, item);
    ChunksAgree(index, embed, log, user, item);
  }

  /** The index after a run of items of one user, one after the other. */
  ghost function IndexedAll(index: Index, embed: seq<string> -> Option<seq<Embedding>>, user: string, items: seq<Item>)
    : Option<Index>
  {
    if items == [] then Some(index)
    else
      var before := IndexedAll(index, embed, user, items[..|items| - 1]);
      if before.None? then None else Indexed(before.value, embed, user, items[|items| - 1])
  }

  function Entries(user: string, items: seq<Item>): (log: seq<Entry>)
    ensures |log| == |items| && forall i :: 0 <= i < |log| ==> log[i] == Entry(user, items[i])
  {
    seq(|items|, i requires 0 <= i < |items| => Entry(user, items[i]))
  }

  lemma {:induction false} EntriesAppend(log: seq<Entry>, user: string, items: seq<Item>)
    ensures items == [] ==> log + Entries(user, items) == log
    ensures items != [] ==>
      var front, last := items[..|items| - 1], items[|items| - 1];
      log + Entries(user, items) == (log + Entries(user, front)) + [Entry(user, last)]
  {
  }

  /** After any sequence of items the index agrees with the whole log. */
  lemma {:induction false} IndexingAllKeepsAgreement(index: Index, embed: seq<string> -> Option<seq<Embedding>>,
                                                     log: seq<Entry>, user: string, items: seq<Item>)
    requires Agrees(index, embed, log) && IndexedAll(index, embed, user, items).Some?
    ensures Agrees(IndexedAll(index, embed, user, items).value, embed, log + Entries(user, items))
  {
    EntriesAppend(log, user, items);
    if items != [] {
      var front, last := items[..|items| - 1], items[|items| - 1];
      var before := IndexedAll(index, embed, user, front).value;
      IndexingAllKeepsAgreement(index, embed, log, user, front);
      IndexingKeepsAgreement(before, embed, log + Entries(user, front), user, last);
    }
  }

  // ---------- what agreement means ----------

  predicate SameResource(a: Entry, b: Entry) {
    a.user == b.user && a.item.service == b.item.service && a.item.resourceId == b.item.resourceId
  }

  /** Nothing was indexed for the resource of this entry after it. */
  predicate IsLatest(log: seq<Entry>, i: nat)
    requires i < |log|
  {
    forall j :: i < j < |log| ==> !SameResource(log[j], log[i])
  }

  /** The row holds the latest entry of its resource. */
  ghost predicate HoldsLatest(log: seq<Entry>, row: ItemRow) {
    exists i :: 0 <= i < |log| && IsLatest(log, i) && log[i] == Entry(row.user, row.item)
  }

  /** Every resource that was indexed has a row. */
  ghost predicate IsHeld(rows: seq<ItemRow>, e: Entry) {
    exists r :: 0 <= r < |rows| && SameResource(Entry(rows[r].user, rows[r].item), e)
  }

  /** The vectors that belong to texts: as many as there are texts, none of them asked for without a text. */
  ghost predicate AreVectors(embed: seq<string> -> Option<seq<Embedding>>, texts: seq<string>,
                             vectors: seq<Embedding>)
  {
    |vectors| == |texts| && (texts != [] ==> embed(texts) == Some(vectors))
  }

  /** The row's chunks at the production size are there once each, numbered, and no others are. */
  ghost predicate HasChunks(chunks: seq<ChunkRow>, embed: seq<string> -> Option<seq<Embedding>>, row: ItemRow) {
    exists texts, vectors {:trigger AreVectors(embed, texts, vectors)} ::
      && IsChunked(row.item.searchableText, Size(850, 100), Some(texts)) && AreVectors(embed, texts, vectors)
      && IsOnceEach(chunks, row, texts, vectors)
  }

  ghost predicate IsOnceEach(chunks: seq<ChunkRow>, row: ItemRow, texts: seq<string>, vectors: seq<Embedding>)
    requires |texts| == |vectors|
  {
    && (forall i :: 0 <= i < |texts| ==> multiset(chunks)[ChunkRow(row.id, row.user, i, texts[i], vectors[i])] == 1)
    && forall c :: c in chunks && c.itemId == row.id && c.user == row.user ==>
         c.index < |texts| && c.text == texts[c.index] && c.embedding == vectors[c.index]
  }

  lemma {:induction false} FilterCounts(chunks: seq<ChunkRow>, id: nat, user: string, c: ChunkRow)
    requires c.itemId == id && c.user == user
    ensures multiset(ChunksFor(chunks, id, user))[c] == multiset(chunks)[c]
  {
    if chunks != [] {
      FilterCounts(chunks[1..], id, user, c);
      assert chunks == [chunks[0]] + chunks[1..];
    }
  }

  lemma {:induction false} NumberedOnce(id: nat, user: string, texts: seq<string>, vectors: seq<Embedding>, i: nat)
    requires |texts| == |vectors| && i < |texts|
    ensures multiset(Numbered(id, user, texts, vectors))[ChunkRow(id, user, i, texts[i], vectors[i])] == 1
  {
    var rows := Numbered(id, user, texts, vectors);
    var c := ChunkRow(id, user, i, texts[i], vectors[i]);
    assert rows == rows[..i] + [c] + rows[i + 1..];
    assert c !in rows[..i] && c !in rows[i + 1..];
  }

  lemma {:induction false} RightChunks(chunks: seq<ChunkRow>, embed: seq<string> -> Option<seq<Embedding>>,
                                       row: ItemRow)
    requires ChunksRight(chunks, embed, row)
    ensures HasChunks(chunks, embed, row)
  {
    var texts := TextChunks(row.item.searchableText);
    var vectors := Vectors(embed, texts).value;
    TextChunksAreUnique(row.item.searchableText, texts);
    assert AreVectors(embed, texts, vectors);
    forall i | 0 <= i < |texts|
      ensures multiset(chunks)[ChunkRow(row.id, row.user, i, texts[i], vectors[i])] == 1
    {
      NumberedOnce(row.id, row.user, texts, vectors, i);
      FilterCounts(chunks, row.id, row.user, ChunkRow(row.id, row.user, i, texts[i], vectors[i]));
    }
    forall c | c in chunks && c.itemId == row.id && c.user == row.user
      ensures c.index < |texts| && c.text == texts[c.index] && c.embedding == vectors[c.index]
    {
      assert c in ChunksFor(chunks, row.id, row.user);
    }
  }

  lemma {:induction false} LastMeans(log: seq<Entry>, e: Entry)
    ensures var last := Last(log, KeyOf(e.user, e.item));
            && (last.None? ==> forall i :: 0 <= i < |log| ==> !SameResource(log[i], e))
            && (last.Some? ==> SameResource(Entry(e.user, last.value), e)
                               && HoldsLatest(log, ItemRow(0, e.user, last.value)))
  {
    if log != [] {
      var n := |log| - 1;
      LastMeans(log[..n], e);
      var last := Last(log, KeyOf(e.user, e.item));
      if SameResource(log[n], e) {
        assert IsLatest(log, n) && log[n] == Entry(e.user, last.value);
      } else if last.Some? {
        LatestStays(log, e, last.value);
      }
    }
  }

  lemma {:induction false} LatestStays(log: seq<Entry>, e: Entry, item: Item)
    requires log != [] && !SameResource(log[|log| - 1], e) && SameResource(Entry(e.user, item), e)
    requires HoldsLatest(log[..|log| - 1], ItemRow(0, e.user, item))
    ensures HoldsLatest(log, ItemRow(0, e.user, item))
  {
    var before := log[..|log| - 1];
    var i :| 0 <= i < |before| && IsLatest(before, i) && before[i] == Entry(e.user, item);
    assert forall j :: i < j < |before| ==> log[j] == before[j];
    assert IsLatest(log, i) && log[i] == Entry(e.user, item);
  }

  /**
   An index that agrees with a log has exactly one row for each resource in it, which holds the
   resource's latest item, with exactly that item's chunks.
   */
  lemma {:induction false} AgreementMeans(index: Index, embed: seq<string> -> Option<seq<Embedding>>, log: seq<Entry>)
    requires Agrees(index, embed, log)
    ensures forall i :: 0 <= i < |log| ==> IsHeld(index.rows, log[i])
    ensures forall r :: 0 <= r < |index.rows| ==>
              HoldsLatest(log, index.rows[r]) && HasChunks(index.chunks, embed, index.rows[r])
    ensures forall r, s :: 0 <= r < s < |index.rows| ==>
              !SameResource(Entry(index.rows[r].user, index.rows[r].item),
                            Entry(index.rows[s].user, index.rows[s].item))
    ensures forall c :: c in index.chunks ==> HasOwner(index.rows, c)
  {
    forall i | 0 <= i < |log| ensures IsHeld(index.rows, log[i]) {
      LastMeans(log, log[i]);
      assert HasRow(index.rows, KeyOf(log[i].user, log[i].item));
    }
    forall r | 0 <= r < |index.rows|
      ensures HoldsLatest(log, index.rows[r]) && HasChunks(index.chunks, embed, index.rows[r])
    {
      var row := index.rows[r];
      LastMeans(log, Entry(row.user, row.item));
      RightChunks(index.chunks, embed, row);
    }
  }
}
