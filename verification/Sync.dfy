/**
 Synchronization of one service: page listings are indexed inside a transaction that is
 committed whole or rolled back whole, with the sync state row telling which.
 */
module Sync {
  import opened Text
  import opened Chunking
  import opened Indexing
  import Contracts

  /** A page of a listing; an entry that cannot be fetched or read is missing, as is a page whose request fails. */
  datatype Page = Page(entries: seq<Option<Item>>, token: Option<string>) | Broken

  /** A finite chain of pages: each but the last names the next one. */
  predicate IsListing(pages: seq<Page>) {
    && pages != []
    && (forall j :: 0 <= j < |pages| - 1 ==> pages[j].Page? && pages[j].token.Some?)
    && (pages[|pages| - 1].Page? ==> pages[|pages| - 1].token.None?)
  }

  /** The entries of the pages, concatenated. */
  function Listed(pages: seq<Page>): seq<Option<Item>> {
    if pages == [] then []
    else
      var last := pages[|pages| - 1];
      Listed(pages[..|pages| - 1]) + if last.Page? then last.entries else []
  }

  /** `items` are the entries, all of which could be fetched. */
  predicate AreItems(entries: seq<Option<Item>>, items: seq<Item>) {
    |items| == |entries| && forall i :: 0 <= i < |entries| ==> entries[i] == Some(items[i])
  }

  function Least(a: nat, b: nat): nat {
    if a <= b then a else b
  }

  /** The entries a listing is to be indexed for: all of them, or the first `maximum`. */
  function Wanted(pages: seq<Page>, maximum: Option<nat>): seq<Option<Item>> {
    var all := Listed(pages);
    if maximum.None? then all else all[..Least(maximum.value, |all|)]
  }

  /** `index` is what indexing the items of `entries` makes of `start`. */
  ghost predicate HasIndexed(start: Index, embed: seq<string> -> Option<seq<Embedding>>, user: string,
                             entries: seq<Option<Item>>, items: seq<Item>, index: Index) {
    AreItems(entries, items) && IndexedAll(start, embed, user, items) == Some(index)
  }

  lemma {:induction false} IndexedNext(start: Index, embed: seq<string> -> Option<seq<Embedding>>, user: string,
                                       entries: seq<Option<Item>>, items: seq<Item>, item: Item, next: Index)
    requires AreItems(entries, items) && IndexedAll(start, embed, user, items).Some?
    requires Indexed(IndexedAll(start, embed, user, items).value, embed, user, item) == Some(next)
    ensures HasIndexed(start, embed, user, entries + [Some(item)], items + [item], next)
  {
    assert (items + [item])[..|items|] == items;
  }

  /** How many entries of a page fit. */
  function Taken(room: Option<nat>, entries: seq<Option<Item>>): nat {
    if room.Some? then Least(room.value, |entries|) else |entries|
  }

  /** Why indexing a page may fail: an entry is missing, or some text cannot be embedded. */
  ghost predicate Fails(entries: seq<Option<Item>>, embed: seq<string> -> Option<seq<Embedding>>) {
    (exists e :: e in entries && e.None?) || exists texts :: Vectors(embed, texts).None?
  }

  /** Nothing goes wrong with the listing: every page and entry arrives, and every text can be embedded. */
  ghost predicate IsSound(pages: seq<Page>, embed: seq<string> -> Option<seq<Embedding>>) {
    && (forall j :: 0 <= j < |pages| ==> pages[j].Page?)
    && (forall e :: e in Listed(pages) ==> e.Some?)
    && forall texts :: Vectors(embed, texts).Some?
  }

  lemma {:induction false} NothingWanted(pages: seq<Page>)
    ensures Wanted(pages, Some(0)) == Listed(pages[..0]) == []
  {
  }

  lemma {:induction false} ListedPrefix(pages: seq<Page>, j: nat)
    requires j <= |pages|
    ensures Listed(pages[..j]) <= Listed(pages)
    decreases |pages|
  {
    if j < |pages| {
      assert pages[..|pages| - 1][..j] == pages[..j];
      ListedPrefix(pages[..|pages| - 1], j);
    } else {
      assert pages[..j] == pages;
    }
  }

  lemma {:induction false} ListedNext(pages: seq<Page>, j: nat)
    requires j < |pages| && pages[j].Page?
    ensures Listed(pages[..j + 1]) == Listed(pages[..j]) + pages[j].entries
  {
    assert pages[..j + 1][..j] == pages[..j];
  }

  lemma {:induction false} EntriesAreListed(pages: seq<Page>, j: nat)
    requires j < |pages| && pages[j].Page?
    ensures Listed(pages[..j]) + pages[j].entries <= Listed(pages)
    ensures forall e :: e in pages[j].entries ==> e in Listed(pages)
  {
    ListedNext(pages, j);
    ListedPrefix(pages, j + 1);
    var front := Listed(pages[..j]) + pages[j].entries;
    forall e | e in pages[j].entries ensures e in Listed(pages) {
      assert e in front;
      var i :| 0 <= i < |front| && front[i] == e;
      assert Listed(pages)[i] == e;
    }
  }

  predicate IsFull(maximum: Option<nat>, count: nat) {
    maximum.Some? && count >= maximum.value
  }

  /** Room left for more entries. */
  function Room(maximum: Option<nat>, count: nat): Option<nat> {
    if maximum.Some? && count <= maximum.value then Some(maximum.value - count) else None
  }

  /** What has been taken of a listing after some more of its next page. */
  lemma {:induction false} PageTaken(pages: seq<Page>, j: nat, maximum: Option<nat>, added: nat)
    requires IsListing(pages) && j < |pages| && pages[j].Page?
    requires !IsFull(maximum, |Listed(pages[..j])|)
    requires added == Taken(Room(maximum, |Listed(pages[..j])|), pages[j].entries)
    ensures var taken := Listed(pages[..j]) + pages[j].entries[..added];
            && |taken| == |Listed(pages[..j])| + added
            && (!IsFull(maximum, |taken|) ==> taken == Listed(pages[..j + 1]))
            && (IsFull(maximum, |taken|) || pages[j].token.None? ==> taken == Wanted(pages, maximum))
            && (maximum.Some? ==> |taken| == Least(maximum.value, |Listed(pages[..j + 1])|))
  {
    ListedNext(pages, j);
    EntriesAreListed(pages, j);
    var before, entries := Listed(pages[..j]), pages[j].entries;
    var taken := before + entries[..added];
    assert taken == (before + entries)[..|taken|] == Listed(pages)[..|taken|];
    if pages[j].token.None? {
      assert pages[..j + 1] == pages;
    }
  }

  /** With a maximum the listing is left after this page: it fills up, or is the last. */
  predicate StopsAt(pages: seq<Page>, maximum: nat, j: nat) {
    && j < |pages| && |Listed(pages[..j])| < maximum
    && (|Listed(pages[..j + 1])| >= maximum || j + 1 == |pages|)
  }

  /** What a limited listing leaves as its cursor: the token of the page it stops at, if it reads any. */
  ghost predicate IsCursor(pages: seq<Page>, maximum: Option<nat>, cursor: Option<string>) {
    if maximum.None? || maximum.value == 0 then cursor == None
    else exists j: nat :: StopsAt(pages, maximum.value, j) && pages[j].Page? && cursor == pages[j].token
  }

  /** There is only one such cursor. */
  lemma {:induction false} CursorIsUnique(pages: seq<Page>, maximum: Option<nat>, a: Option<string>, b: Option<string>)
    requires IsCursor(pages, maximum, a) && IsCursor(pages, maximum, b)
    ensures a == b
  {
    if maximum.Some? && maximum.value > 0 {
      var i: nat :| StopsAt(pages, maximum.value, i) && pages[i].Page? && a == pages[i].token;
      var j: nat :| StopsAt(pages, maximum.value, j) && pages[j].Page? && b == pages[j].token;
      if i < j {
        StopsOnce(pages, maximum.value, i, j);
      } else if j < i {
        StopsOnce(pages, maximum.value, j, i);
      }
    }
  }

  lemma {:induction false} StopsOnce(pages: seq<Page>, maximum: nat, i: nat, j: nat)
    requires i < j && StopsAt(pages, maximum, i)
    ensures !StopsAt(pages, maximum, j)
  {
    if j < |pages| {
      assert pages[..j][..i + 1] == pages[..i + 1];
      ListedPrefix(pages[..j], i + 1);
    }
  }

  datatype Settings = Settings(gmailMaximum: nat, driveMaximum: nat)

  function Maximum(settings: Settings, service: Contracts.Service): Option<nat> {
    match service
    case Gmail => Some(settings.gmailMaximum)
    case Drive => Some(settings.driveMaximum)
    case _ => None
  }

  datatype SyncResult = Unsupported | Synced(count: nat, cursor: Option<string>) | SyncFailed

  function StateKey(user: string, service: Contracts.Service): (string, string) {
    (user, Contracts.ServiceName(service))
  }

  /** Every user has a state row of its own for each service. */
  lemma {:induction false} StateKeysDiffer(user: string, service: Contracts.Service, user': string,
                                           service': Contracts.Service)
    ensures StateKey(user, service) == StateKey(user', service') <==> user == user' && service == service'
  {
    assert |"gmail"| == 5 && |"google_calendar"| == 15 && |"google_drive"| == 12 && |"workspace"| == 9;
  }

  function StateOf(tables: Tables, key: (string, string)): SyncState {
    if key in tables.states then tables.states[key] else SyncState(Pending, None, None, None, false)
  }

  /** A database session: what is committed, and the working state of the open transaction. */
  class Session {
    const embed: seq<string> -> Option<seq<Embedding>>
    var committed: Tables
    var working: Tables

    constructor (embed: seq<string> -> Option<seq<Embedding>>, tables: Tables)
      ensures this.embed == embed && committed == working == tables
    {
      this.embed := embed;
      committed, working := tables, tables;
    }

    method Commit()
      modifies this`committed
      ensures committed == working
    {
      committed := working;
    }

    method Rollback()
      modifies this`working
      ensures working == committed
    {
      working := committed;
    }

    /**
     Upserts the item's row, then replaces its chunks. If no vectors arrive the row alone is
     upserted; if too few or too many do, the old chunks are gone too.
     */
    method IndexItem(user: string, item: Item) returns (ok: bool)
      modifies this`working
      ensures ok <==> Vectors(embed, TextChunks(item.searchableText)).Some?
      ensures ok ==> Indexed(old(working.index), embed, user, item) == Some(working.index)
      ensures !ok ==>
        var (upserted, id) := Upsert(old(working.index), user, item);
        working.index ==
          if embed(TextChunks(item.searchableText)).None? then upserted else WithoutChunks(upserted, id, user)
      ensures working.states == old(working.states)
    {
      var (upserted, id) := Upsert(working.index, user, item);
      working := working.(index := upserted);
      TerminatesIffOverlapIsSmall(SIZE);
      var chunked := ChunkText(item.searchableText, SIZE);
      var chunks := chunked.value;
      TextChunksAreUnique(item.searchableText, chunks);
      var vectors := if chunks == [] then Some([]) else embed(chunks);
      if vectors.None? {
        return false;
      }
      working := working.(index := WithoutChunks(working.index, id, user));
      if |vectors.value| != |chunks| {
        return false;
      }
      var rows := Numbered(id, user, chunks, vectors.value);
      working := working.(index := working.index.(chunks := working.index.chunks + rows));
      return true;
    }

    /** Indexes one more entry of a page. */
    method IndexEntry(user: string, entries: seq<Option<Item>>, i: nat,
                      ghost start: Index, ghost before: seq<Option<Item>>, ghost done: seq<Item>)
      returns (ok: bool, ghost items: seq<Item>)
      requires i < |entries| && HasIndexed(start, embed, user, before + entries[..i], done, working.index)
      modifies this`working
      ensures working.states == old(working.states)
      ensures ok ==> HasIndexed(start, embed, user, before + entries[..i + 1], items, working.index)
      ensures !ok ==> Fails(entries, embed)
    {
      if entries[i].None? {
        return false, done;
      }
      var item := entries[i].value;
      ok := IndexItem(user, item);
      items := done + [item];
      if ok {
        IndexedNext(start, embed, user, before + entries[..i], done, item, working.index);
        assert before + entries[..i] + [Some(item)] == before + entries[..i + 1];
      }
    }

    /** Indexes the entries of one page, the first `room` of them if there is such a limit. */
    method IndexPage(user: string, entries: seq<Option<Item>>, room: Option<nat>,
                     ghost start: Index, ghost before: seq<Option<Item>>, ghost done: seq<Item>)
      returns (ok: bool, count: nat, ghost items: seq<Item>)
      requires HasIndexed(start, embed, user, before, done, working.index)
      requires room.Some? ==> room.value > 0
      modifies this`working
      ensures working.states == old(working.states)
      ensures ok ==> count == Taken(room, entries)
      ensures ok ==> HasIndexed(start, embed, user, before + entries[..count], items, working.index)
      ensures !ok ==> Fails(entries, embed)
    {
      items := done;
      count := 0;
      assert before + entries[..0] == before;
      for i := 0 to |entries|
        invariant count == i && (room.Some? ==> i < room.value)
        invariant working.states == old(working.states)
        invariant HasIndexed(start, embed, user, before + entries[..i], items, working.index)
      {
        ok, items := IndexEntry(user, entries, i, start, before, items);
        if !ok {
          return;
        }
        count := count + 1;
        if room.Some? && room.value == count {
          return;
        }
      }
      return true, count, items;
    }

    /** Indexes what is wanted of the next page. */
    method IndexNextPage(user: string, pages: seq<Page>, j: nat, maximum: Option<nat>, count: nat,
                         ghost start: Index, ghost done: seq<Item>)
      returns (ok: bool, total: nat, ghost items: seq<Item>)
      requires IsListing(pages) && j < |pages| && !IsFull(maximum, count)
      requires count == |Listed(pages[..j])| && HasIndexed(start, embed, user, Listed(pages[..j]), done, working.index)
      modifies this`working
      ensures working.states == old(working.states)
      ensures !ok ==> !IsSound(pages, embed)
      ensures ok ==> pages[j].Page?
      ensures ok && maximum.Some? ==> total == Least(maximum.value, |Listed(pages[..j + 1])|)
      ensures ok && !IsFull(maximum, total) ==>
                total == |Listed(pages[..j + 1])|
                  && HasIndexed(start, embed, user, Listed(pages[..j + 1]), items, working.index)
      ensures ok && (IsFull(maximum, total) || pages[j].token.None?) ==>
                total == |Wanted(pages, maximum)|
                  && HasIndexed(start, embed, user, Wanted(pages, maximum), items, working.index)
    {
      if pages[j].Broken? {
        return false, count, done;
      }
      EntriesAreListed(pages, j);
      var added;
      ok, added, items := IndexPage(user, pages[j].entries, Room(maximum, count), start, Listed(pages[..j]), done);
      total := count + added;
      if ok {
        PageTaken(pages, j, maximum, added);
      }
    }

    /** The mail and drive loops: pages are requested and indexed until `maximum` items are in. */
    method IndexAtMost(user: string, pages: seq<Page>, maximum: nat)
      returns (ok: bool, count: nat, cursor: Option<string>, ghost items: seq<Item>)
      requires IsListing(pages)
      modifies this`working
      ensures working.states == old(working.states)
      ensures ok ==> HasIndexed(old(working.index), embed, user, Wanted(pages, Some(maximum)), items, working.index)
      ensures ok ==> count == |Wanted(pages, Some(maximum))| && IsCursor(pages, Some(maximum), cursor)
      ensures IsSound(pages, embed) ==> ok
    {
      ghost var start := working.index;
      var j := 0;
      items, count, cursor := [], 0, None;
      while count < maximum
        invariant j < |pages| && count == |Listed(pages[..j])| && (j > 0 ==> count < maximum)
        invariant working.states == old(working.states)
        invariant HasIndexed(start, embed, user, Listed(pages[..j]), items, working.index)
        decreases |pages| - j
      {
        ok, count, items := IndexNextPage(user, pages, j, Some(maximum), count, start, items);
        if !ok {
          return;
        }
        cursor := pages[j].token;
        if cursor.None? || count >= maximum {
          assert ok ==> StopsAt(pages, maximum, j);
          return;
        }
        j := j + 1;
      }
      NothingWanted(pages);
      assert j == 0 && maximum == 0;
      return true, count, None, items;
    }

    /** The calendar loop: all pages are indexed. */
    method IndexAll(user: string, pages: seq<Page>) returns (ok: bool, count: nat, ghost items: seq<Item>)
      requires IsListing(pages)
      modifies this`working
      ensures working.states == old(working.states)
      ensures ok ==> HasIndexed(old(working.index), embed, user, Listed(pages), items, working.index)
      ensures ok ==> count == |Listed(pages)|
      ensures IsSound(pages, embed) ==> ok
    {
      ghost var start := working.index;
      var j := 0;
      items, count := [], 0;
      while true
        invariant j < |pages| && count == |Listed(pages[..j])|
        invariant working.states == old(working.states)
        invariant HasIndexed(start, embed, user, Listed(pages[..j]), items, working.index)
        decreases |pages| - j
      {
        ok, count, items := IndexNextPage(user, pages, j, None, count, start, items);
        if !ok || pages[j].token.None? {
          return;
        }
        assert !IsFull(None, count);
        j := j + 1;
      }
    }

    /** The state row of a service; created when there is none. */
    method SetState(key: (string, string), state: SyncState)
      modifies this`working
      ensures working == old(working).(states := old(working).states[key := state])
    {
      working := working.(states := working.states[key := state]);
    }

    /** The listing of a service: how much of it is wanted, and what is kept as its cursor. */
    method IndexService(user: string, service: Contracts.Service, settings: Settings, pages: seq<Page>)
      returns (ok: bool, count: nat, cursor: Option<string>, ghost items: seq<Item>)
      requires IsListing(pages)
      modifies this`working
      ensures working.states == old(working.states)
      ensures var wanted := Wanted(pages, Maximum(settings, service));
        ok ==> HasIndexed(old(working.index), embed, user, wanted, items, working.index) && count == |wanted|
      ensures IsSound(pages, embed) ==> ok
      ensures ok ==> IsCursor(pages, Maximum(settings, service), cursor)
    {
      match service
      case Gmail => ok, count, cursor, items := IndexAtMost(user, pages, settings.gmailMaximum);
      case Drive => ok, count, cursor, items := IndexAtMost(user, pages, settings.driveMaximum);
      case _ =>
        ok, count, items := IndexAll(user, pages);
        cursor := None;
    }

    /**
     One synchronization. Either everything wanted is indexed and the success recorded, or
     rows, chunks, cursor and last success stay as they were; `commits` is whether the
     database takes the final commit.
     */
    method SyncService(user: string, service: Contracts.Service, settings: Settings, pages: seq<Page>,
                       attempt: nat, now: nat, commits: bool)
      returns (r: SyncResult, ghost items: seq<Item>)
      requires IsListing(pages) && working == committed
      modifies this
      ensures working == committed
      ensures r.Unsupported? <==> service.Workspace?
      ensures r.Unsupported? ==> committed == old(committed)
      ensures forall key :: key != StateKey(user, service) ==>
                (key in committed.states <==> key in old(committed).states)
                && (key in committed.states ==> committed.states[key] == old(committed).states[key])
      ensures r.Synced? ==>
                var wanted := Wanted(pages, Maximum(settings, service));
                && HasIndexed(old(committed).index, embed, user, wanted, items, committed.index)
                && r.count == |wanted|
                && IsCursor(pages, Maximum(settings, service), r.cursor)
                && StateOf(committed, StateKey(user, service)) ==
                     SyncState(Completed, r.cursor, Some(now), Some(attempt), false)
      ensures r.SyncFailed? ==>
                && committed.index == old(committed).index
                && StateOf(committed, StateKey(user, service)) ==
                   StateOf(old(committed), StateKey(user, service)).(
                     status := Failed, lastAttempt := Some(attempt), failed := true)
      ensures r.SyncFailed? && StateKey(user, service) !in old(committed).states ==>
                StateOf(committed, StateKey(user, service)) == SyncState(Failed, None, None, Some(attempt), true)
      ensures !service.Workspace? ==> StateKey(user, service) in committed.states
      ensures IsSound(pages, embed) && commits && !service.Workspace? ==> r.Synced?
    {
      items := [];
      if service.Workspace? {
        return Unsupported, items;
      }
      var key := StateKey(user, service);
      var state := StateOf(working, key).(status := Running, lastAttempt := Some(attempt), failed := false);
      SetState(key, state);
      Commit();
      var ok, count, cursor;
      ok, count, cursor, items := IndexService(user, service, settings, pages);
      if ok {
        SetState(key,
          StateOf(working, key).(status := Completed, cursor := cursor, lastSuccess := Some(now), failed := false));
        if commits {
          Commit();
          return Synced(count, cursor), items;
        }
      }
      Rollback();
      SetState(key, StateOf(working, key).(status := Failed, failed := true));
      Commit();
      return SyncFailed, items;
    }
  }

  /** Whatever arrives from `embed` is what the provider computes; it may fail where the provider would not. */
  ghost predicate PartOf(embed: seq<string> -> Option<seq<Embedding>>,
                         provider: seq<string> -> Option<seq<Embedding>>)
  {
    forall texts :: Vectors(embed, texts).Some? ==> Vectors(provider, texts) == Vectors(embed, texts)
  }

  lemma {:induction false} IndexedByProvider(start: Index, embed: seq<string> -> Option<seq<Embedding>>,
                                             provider: seq<string> -> Option<seq<Embedding>>, user: string,
                                             items: seq<Item>)
    requires PartOf(embed, provider) && IndexedAll(start, embed, user, items).Some?
    ensures IndexedAll(start, provider, user, items) == IndexedAll(start, embed, user, items)
  {
    if items != [] {
      IndexedByProvider(start, embed, provider, user, items[..|items| - 1]);
      assert Vectors(embed, TextChunks(items[|items| - 1].searchableText)).Some?;
    }
  }

  /**
   A completed synchronization leaves the index in agreement with all that was ever indexed, even if
   what could be embedded has changed from one synchronization to the next.
   */
  lemma {:induction false} SyncKeepsAgreement(before: Index, after: Index, embed: seq<string> -> Option<seq<Embedding>>,
                                              provider: seq<string> -> Option<seq<Embedding>>, log: seq<Entry>,
                                              user: string, entries: seq<Option<Item>>, items: seq<Item>)
    requires PartOf(embed, provider)
    requires Agrees(before, provider, log) && HasIndexed(before, embed, user, entries, items, after)
    ensures Agrees(after, provider, log + Entries(user, items))
  {
    IndexedByProvider(before, embed, provider, user, items);
    IndexingAllKeepsAgreement(before, provider, log, user, items);
  }
}
