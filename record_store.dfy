/**
 * One open wallet: the record operations of a storage handle, the iterator that
 * `get_all` and `search` return, and the helper that reads an item's tags.
 *
 * A handle is bound to one wallet id and reads and writes only that wallet's rows of
 * the shared database.  Every statement group the source runs in a transaction is
 * modelled by building the new tag rows in a local value and assigning them to the
 * database only on the success path; an early `return` is a rollback.
 */
module RecordStore {
  import opened Wrappers
  import opened Tags
  import opened Options
  import opened Errors
  import opened Database

  /** What a read hands back: the item name, and the parts the options asked for. */
  datatype StorageRecord = StorageRecord(
    id: Bytes,
    value: Option<EncryptedValue>,
    type_: Option<Bytes>,
    tags: Option<seq<Tag>>)

  /** A row of `SELECT id, name, value, key, type FROM items ...`. */
  datatype Row = Row(id: nat, name: Bytes, value: EncryptedValue, type_: Bytes)

  /**
   * `rec` is the record a read returns for an item with this name, value, type and
   * tag rows under options `o`: the name always, each other part exactly when its
   * option is set, and the tags as the item's rows, each once, in any order.
   */
  ghost predicate Projects(rec: StorageRecord, name: Bytes, value: EncryptedValue, type_: Bytes,
                           tags: TagMaps, o: RecordOptions)
  {
    && rec.id == name
    && rec.value == (if o.retrieveValue then Some(value) else None)
    && rec.type_ == (if o.retrieveType then Some(type_) else None)
    && rec.tags.Some? == o.retrieveTags
    && (rec.tags.Some? ==> multiset(rec.tags.value) == multiset(TagSet(tags)))
  }

  /** Moving key `n` from the keys still to visit to the visited part of a table. */
  lemma TakeOneMore<V>(rows: map<Bytes, V>, rest: set<Bytes>, n: Bytes)
    requires n in rest && rest <= rows.Keys
    ensures (rows - rest)[n := rows[n]] == rows - (rest - {n})
  {
  }

  /** Appends one row per entry of an encrypted-tag table, in any order. */
  method PushEncrypted(tags: seq<Tag>, rows: map<Bytes, Bytes>) returns (out: seq<Tag>)
    ensures |tags| <= |out| && out[..|tags|] == tags
    ensures multiset(out) == multiset(tags) + multiset(EncSet(rows))
  {
    out := tags;
    var rest := rows.Keys;
    while rest != {}
      invariant rest <= rows.Keys
      invariant |tags| <= |out| && out[..|tags|] == tags
      invariant multiset(out) == multiset(tags) + multiset(EncSet(rows - rest))
      decreases rest
    {
      var n :| n in rest;
      EncSetPutFresh(rows - rest, n, rows[n]);
      TakeOneMore(rows, rest, n);
      out := out + [Encrypted(n, rows[n])];
      rest := rest - {n};
    }
    assert rows - rest == rows;
  }

  /** Appends one row per entry of a plaintext-tag table, in any order. */
  method PushPlain(tags: seq<Tag>, rows: map<Bytes, string>) returns (out: seq<Tag>)
    ensures |tags| <= |out| && out[..|tags|] == tags
    ensures multiset(out) == multiset(tags) + multiset(PlainSet(rows))
  {
    out := tags;
    var rest := rows.Keys;
    while rest != {}
      invariant rest <= rows.Keys
      invariant |tags| <= |out| && out[..|tags|] == tags
      invariant multiset(out) == multiset(tags) + multiset(PlainSet(rows - rest))
      decreases rest
    {
      var n :| n in rest;
      PlainSetPutFresh(rows - rest, n, rows[n]);
      TakeOneMore(rows, rest, n);
      out := out + [PlainText(n, rows[n])];
      rest := rest - {n};
    }
    assert rows - rest == rows;
  }

  /** The two prepared tag queries of an iterator, both selecting by item id alone. */
  class TagRetriever {
    const db: Database

    constructor (db: Database)
      ensures this.db == db
    {
      this.db := db;
    }

    /** Plaintext rows first, then encrypted ones: every tag of the item, each once. */
    method Retrieve(id: nat) returns (tags: seq<Tag>)
      ensures multiset(tags) == multiset(TagSet(db.TagsOf(id)))
    {
      var m := db.TagsOf(id);
      tags := PushPlain([], m.plain);
      tags := PushEncrypted(tags, m.enc);
      TagSetMultiset(m);
    }
  }

  /**
   * The iterator over a result set.  `rows` is None when records were not
   * requested; the position only moves forward, one row per record handed out.
   */
  class StorageIterator {
    const rows: Option<seq<Row>>
    const tagRetriever: Option<TagRetriever>
    const options: RecordOptions
    const totalCount: Option<nat>
    var iterCount: nat

    ghost predicate Valid()
      reads this
    {
      if rows.Some? then iterCount <= |rows.value| else iterCount == 0
    }

    constructor (rows: Option<seq<Row>>, options: RecordOptions, tagRetriever: Option<TagRetriever>,
                 totalCount: Option<nat>)
      ensures Valid() && iterCount == 0
      ensures this.rows == rows && this.options == options
      ensures this.tagRetriever == tagRetriever && this.totalCount == totalCount
    {
      this.rows := rows;
      this.options := options;
      this.tagRetriever := tagRetriever;
      this.totalCount := totalCount;
      iterCount := 0;
    }

    /** The rows not yet handed out. */
    function Remaining(): seq<Row>
      reads this
      requires Valid()
    {
      if rows.Some? then rows.value[iterCount..] else []
    }

    /** The tag rows of `id` as the retriever sees them now; none without one. */
    function LiveTags(id: nat): TagMaps
      reads if tagRetriever.Some? then {tagRetriever.value.db} else {}
    {
      if tagRetriever.Some? then tagRetriever.value.db.TagsOf(id) else NoTags
    }

    /** The live tag rows of each row's item, in row order. */
    ghost function LiveTagsOfRows(rows: seq<Row>): (r: seq<TagMaps>)
      reads if tagRetriever.Some? then {tagRetriever.value.db} else {}
      ensures |r| == |rows|
      ensures forall i :: 0 <= i < |rows| ==> r[i] == LiveTags(rows[i].id)
      decreases |rows|
    {
      if rows == [] then [] else LiveTagsOfRows(rows[..|rows| - 1]) + [LiveTags(rows[|rows| - 1].id)]
    }

    /**
     * Without a result set, or once it is used up, Ok(None) and nothing moves.
     * Otherwise the next row, projected by the options; the position advances before
     * the tags are fetched, so asking for tags without a retriever fails with
     * InvalidState and still consumes the row.
     */
    method Next() returns (r: Result<Option<StorageRecord>, WalletStorageError>)
      requires Valid()
      modifies this
      ensures Valid()
      ensures old(Remaining()) == [] ==> r == Ok(None) && iterCount == old(iterCount)
      ensures old(Remaining()) != [] ==>
                && iterCount == old(iterCount) + 1
                && Remaining() == old(Remaining())[1..]
                && var row := old(Remaining())[0];
                   if options.retrieveTags && tagRetriever.None? then
                     r == Err(CommonError(InvalidState))
                   else
                     r.Ok? && r.value.Some? &&
                     Projects(r.value.value, row.name, row.value, row.type_, LiveTags(row.id), options)
    {
      if rows.None? {
        return Ok(None);
      }
      if iterCount >= |rows.value| {
        return Ok(None);
      }
      var row := rows.value[iterCount];
      iterCount := iterCount + 1;
      var value := if options.retrieveValue then Some(row.value) else None;
      var tags: Option<seq<Tag>> := None;
      if options.retrieveTags {
        match tagRetriever {
          case None =>
            return Err(CommonError(InvalidState));
          case Some(retriever) =>
            var t := retriever.Retrieve(row.id);
            tags := Some(t);
        }
      }
      var type_ := if options.retrieveType then Some(row.type_) else None;
      r := Ok(Some(StorageRecord(row.name, value, type_, tags)));
    }

    /** The count fixed when the search ran. */
    method GetTotalCount() returns (r: Result<Option<nat>, WalletStorageError>)
      ensures r == Ok(totalCount)
    {
      r := Ok(totalCount);
    }
  }

  /** The first |records| rows came out as `records`, projected by options `o`, the
      i-th with tag rows `tags[i]`. */
  ghost predicate Delivered(rows: seq<Row>, tags: seq<TagMaps>, o: RecordOptions, records: seq<StorageRecord>) {
    && |records| <= |rows| == |tags|
    && forall i :: 0 <= i < |records| ==>
         Projects(records[i], rows[i].name, rows[i].value, rows[i].type_, tags[i], o)
  }

  lemma DeliveredOneMore(rows: seq<Row>, tags: seq<TagMaps>, o: RecordOptions, records: seq<StorageRecord>,
                         rec: StorageRecord)
    requires Delivered(rows, tags, o, records) && |records| < |rows|
    requires var (row, n) := (rows[|records|], |records|); Projects(rec, row.name, row.value, row.type_, tags[n], o)
    ensures Delivered(rows, tags, o, records + [rec])
  {
  }

  /**
   * A consumer that calls `Next` until it yields None: it receives one record per
   * remaining row, in row order, and the iterator is left exhausted.
   */
  method Drain(it: StorageIterator) returns (records: seq<StorageRecord>)
    requires it.Valid()
    requires it.options.retrieveTags ==> it.tagRetriever.Some?
    modifies it
    ensures it.Valid() && it.Remaining() == []
    ensures |records| == |old(it.Remaining())|
    ensures Delivered(old(it.Remaining()), it.LiveTagsOfRows(old(it.Remaining())), it.options, records)
  {
    records := [];
    ghost var rows := it.Remaining();
    ghost var tags := it.LiveTagsOfRows(rows);
    ghost var start := it.iterCount;
    while true
      invariant it.Valid()
      invariant Delivered(rows, tags, it.options, records)
      invariant it.iterCount == start + |records|
      decreases |rows| - |records|
    {
      var r := it.Next();
      if r.Err? || r.value.None? {
        return;
      }
      DeliveredOneMore(rows, tags, it.options, records, r.value.value);
      records := records + [r.value.value];
    }
  }

  /**
   * Plain INSERTs of the tag rows of a new or emptied item, in list order, into a
   * transaction-local copy: the first tag whose key is already written violates the
   * primary key and stops the loop with None.
   */
  method InsertTags(tags: seq<Tag>) returns (res: Option<TagMaps>)
    ensures res == InsertAll(NoTags, tags)
    ensures res.Some? <==> DistinctKeys(tags)
  {
    InsertIntoNoTagsSucceeds(tags);
    var pending := NoTags;
    var i := 0;
    while i < |tags|
      invariant 0 <= i <= |tags|
      invariant InsertAll(NoTags, tags[..i]) == Some(pending)
    {
      var step := Insert(pending, tags[i]);
      InsertAllStep(NoTags, tags, i, pending);
      if step.None? {
        InsertAllPrefixFails(NoTags, tags, i + 1);
        return None;
      }
      pending := step.value;
      i := i + 1;
    }
    assert tags[..i] == tags;
    res := Some(pending);
  }

  /** The row `get_all` reads for an item. */
  function RowOf(k: ItemKey, item: ItemRow): Row {
    Row(item.id, k.name, item.value, k.type_)
  }

  /** Within one wallet, distinct items give distinct rows. */
  lemma RowOfFresh(items: map<ItemKey, ItemRow>, w: WalletId, done: set<ItemKey>, k: ItemKey)
    requires forall d :: d in done ==> d in items && d.wallet == w
    requires k in items && k.wallet == w && k !in done
    ensures RowOf(k, items[k]) !in (set d | d in done :: RowOf(d, items[d]))
    ensures (set d | d in done + {k} :: RowOf(d, items[d]))
         == (set d | d in done :: RowOf(d, items[d])) + {RowOf(k, items[k])}
  {
    forall d | d in done ensures RowOf(d, items[d]) != RowOf(k, items[k]) {
      assert d != k;
    }
  }

  /** A handle on one wallet of the database. */
  class PostgresStorage {
    const db: Database
    const walletId: WalletId

    /** The schema exists and the wallet id fits its column, as for any opened wallet. */
    ghost predicate Valid()
      reads db
    {
      db.Valid() && db.schema && |walletId| <= MaxWalletIdLength
    }

    constructor (db: Database, walletId: WalletId)
      ensures this.db == db && this.walletId == walletId
    {
      this.db := db;
      this.walletId := walletId;
    }

    function ItemKeyOf(type_: Bytes, name: Bytes): ItemKey {
      ItemKey(walletId, type_, name)
    }

    /** The rows `get_all` reads: one per item of this wallet. */
    function WalletRowSet(): set<Row>
      reads db
    {
      set k | k in db.items && k.wallet == walletId :: RowOf(k, db.items[k])
    }

    /**
     * The item stored under (type, name) in this wallet, projected by the options.
     * The literal `{}` takes a fast path to the defaults; it agrees with parsing.
     */
    method Get(type_: Bytes, name: Bytes, options: Parsed<RecordOptionsJson>)
      returns (r: Result<StorageRecord, WalletStorageError>)
      ensures options.Malformed? ==> r == Err(CommonError(InvalidStructure))
      ensures options.Parsed? ==>
                var key := ItemKeyOf(type_, name);
                && (key !in db.items ==> r == Err(ItemNotFound))
                && (key in db.items ==>
                      r.Ok? &&
                      Projects(r.value, name, db.items[key].value, type_, db.TagsOf(db.items[key].id),
                               ResolveRecordOptions(options.value)))
    {
      var o: RecordOptions;
      if options == Parsed(EmptyRecordOptionsJson) {
        o := DefaultRecordOptions();
        EmptyDocumentIsDefault();
      } else {
        match options {
          case Malformed =>
            return Err(CommonError(InvalidStructure));
          case Parsed(j) =>
            o := ResolveRecordOptions(j);
        }
      }
      var key := ItemKeyOf(type_, name);
      if key !in db.items {
        return Err(ItemNotFound);
      }
      var item := db.items[key];
      var value := if o.retrieveValue then Some(item.value) else None;
      var t := if o.retrieveType then Some(type_) else None;
      var tags: Option<seq<Tag>> := None;
      if o.retrieveTags {
        var m := db.TagsOf(item.id);
        var found := PushEncrypted([], m.enc);
        found := PushPlain(found, m.plain);
        TagSetMultiset(m);
        tags := Some(found);
      }
      r := Ok(StorageRecord(name, value, t, tags));
    }

    /** `SELECT id FROM items WHERE wallet_id = $1 AND type = $2 AND name = $3`. */
    method ResolveId(type_: Bytes, name: Bytes) returns (r: Option<nat>)
      ensures r.Some? <==> ItemKeyOf(type_, name) in db.items
      ensures r.Some? ==> r.value == db.items[ItemKeyOf(type_, name)].id
    {
      var key := ItemKeyOf(type_, name);
      if key in db.items {
        r := Some(db.items[key].id);
      } else {
        r := None;
      }
    }

    /**
     * Insert the item under a new id, then its tags one row at a time.  A taken
     * (type, name) or two tags with one key violate a unique index and give
     * ItemAlreadyExists with nothing written; the id is drawn either way.
     */
    method Add(type_: Bytes, name: Bytes, value: EncryptedValue, tags: seq<Tag>)
      returns (r: Result<(), WalletStorageError>)
      requires Valid()
      modifies db
      ensures Valid()
      ensures db.nextItemId == old(db.nextItemId) + 1
      ensures r.Ok? <==> ItemKeyOf(type_, name) !in old(db.items) && DistinctKeys(tags)
      ensures r.Err? ==> r.error == ItemAlreadyExists && db.Rows() == old(db.Rows())
      ensures r.Ok? ==>
                var id := old(db.nextItemId);
                && id !in old(db.ItemIds())
                && InsertAll(NoTags, tags) == Some(db.TagsOf(id))
                && multiset(TagSet(db.TagsOf(id))) == multiset(tags)
                && db.Rows() == old(db.Rows()).(
                     items := old(db.items)[ItemKeyOf(type_, name) := ItemRow(id, value)],
                     encTags := old(db.encTags)[id := db.TagsOf(id).enc],
                     plainTags := old(db.plainTags)[id := db.TagsOf(id).plain])
    {
      var id := db.DrawItemId();
      var key := ItemKeyOf(type_, name);
      if key in db.items {
        return Err(ItemAlreadyExists);
      }
      var inserted := InsertTags(tags);
      if inserted.None? {
        return Err(ItemAlreadyExists);
      }
      StoredListReadsBack(tags);
      db.InsertItem(key, id, value, inserted.value);
      r := Ok(());
    }

    /**
     * `UPDATE items SET value, key`: Ok when it changed exactly one row, ItemNotFound
     * when it changed none, InvalidState for any other count (which the unique index
     * rules out, see `MatchingItemsAtMostOne`).  Only the value changes.
     */
    method Update(type_: Bytes, name: Bytes, value: EncryptedValue) returns (r: Result<(), WalletStorageError>)
      requires Valid()
      modifies db
      ensures Valid()
      ensures var key := ItemKeyOf(type_, name);
              var rowCount := |old(db.MatchingItems(key))|;
                && (rowCount == 1 ==>
                      key in old(db.items) && r == Ok(()) &&
                      db.Rows() == old(db.Rows()).(items := old(db.items)[key := ItemRow(old(db.items)[key].id, value)]))
                && (rowCount == 0 ==> r == Err(ItemNotFound) && db.Rows() == old(db.Rows()))
                && (rowCount > 1 ==> r == Err(CommonError(InvalidState)) && db.Rows() == old(db.Rows()))
      ensures db.nextItemId == old(db.nextItemId)
    {
      var key := ItemKeyOf(type_, name);
      var rowCount := |db.MatchingItems(key)|;
      if rowCount == 1 {
        var k :| k in db.MatchingItems(key);
        db.items := db.items[key := ItemRow(db.items[key].id, value)];
        assert db.ItemIds() == old(db.ItemIds()) by {
          forall x | x in old(db.ItemIds()) ensures x in db.ItemIds() {
            var k :| k in old(db.items) && old(db.items)[k].id == x;
            assert k in db.items && db.items[k].id == x;
          }
        }
        r := Ok(());
      } else if rowCount == 0 {
        r := Err(ItemNotFound);
      } else {
        r := Err(CommonError(InvalidState));
      }
    }

    /** Upsert each tag in order; a later tag with the key of an earlier one wins. */
    method AddTags(type_: Bytes, name: Bytes, tags: seq<Tag>) returns (r: Result<(), WalletStorageError>)
      requires Valid()
      modifies db
      ensures Valid()
      ensures var key := ItemKeyOf(type_, name);
                && (key !in old(db.items) ==> r == Err(ItemNotFound) && db.Rows() == old(db.Rows()))
                && (key in old(db.items) ==>
                      var id := old(db.items)[key].id;
                      var after := UpsertAll(old(db.TagsOf(id)), tags);
                      r == Ok(()) &&
                      db.Rows() == old(db.Rows()).(encTags := old(db.encTags)[id := after.enc],
                                                   plainTags := old(db.plainTags)[id := after.plain]))
      ensures db.nextItemId == old(db.nextItemId)
    {
      var found := ResolveId(type_, name);
      if found.None? {
        return Err(ItemNotFound);
      }
      var id := found.value;
      var pending := db.TagsOf(id);
      ghost var start := pending;
      var i := 0;
      while i < |tags|
        invariant 0 <= i <= |tags|
        invariant pending == UpsertAll(start, tags[..i])
      {
        assert tags[..i + 1][..i] == tags[..i];
        match tags[i] {
          case Encrypted(n, d) =>
            pending := pending.(enc := pending.enc[n := d]);
          case PlainText(n, s) =>
            pending := pending.(plain := pending.plain[n := s]);
        }
        i := i + 1;
      }
      assert tags[..i] == tags;
      db.ReplaceTags(id, pending);
      r := Ok(());
    }

    /**
     * Delete the item's tag rows, then insert the new ones with plain INSERTs: two
     * tags with one key fail the second insert and roll the whole update back.
     */
    method UpdateTags(type_: Bytes, name: Bytes, tags: seq<Tag>) returns (r: Result<(), WalletStorageError>)
      requires Valid()
      modifies db
      ensures Valid()
      ensures var key := ItemKeyOf(type_, name);
                && (key !in old(db.items) ==> r == Err(ItemNotFound) && db.Rows() == old(db.Rows()))
                && (key in old(db.items) && !DistinctKeys(tags) ==>
                      r == Err(IOError) && db.Rows() == old(db.Rows()))
                && (key in old(db.items) && DistinctKeys(tags) ==>
                      var id := old(db.items)[key].id;
                      && r == Ok(())
                      && InsertAll(NoTags, tags) == Some(db.TagsOf(id))
                      && TagSet(db.TagsOf(id)) == (set t | t in tags)
                      && db.Rows() == old(db.Rows()).(encTags := old(db.encTags)[id := db.TagsOf(id).enc],
                                                      plainTags := old(db.plainTags)[id := db.TagsOf(id).plain]))
      ensures db.nextItemId == old(db.nextItemId)
    {
      var found := ResolveId(type_, name);
      if found.None? {
        return Err(ItemNotFound);
      }
      var id := found.value;
      var inserted := InsertTags(tags);
      if inserted.None? {
        return Err(IOError);
      }
      var pending := inserted.value;
      StoredListReadsBack(tags);
      db.ReplaceTags(id, pending);
      r := Ok(());
    }

    /** Delete each named tag row; names with no row are skipped silently. */
    method DeleteTags(type_: Bytes, name: Bytes, names: seq<TagName>) returns (r: Result<(), WalletStorageError>)
      requires Valid()
      modifies db
      ensures Valid()
      ensures var key := ItemKeyOf(type_, name);
                && (key !in old(db.items) ==> r == Err(ItemNotFound) && db.Rows() == old(db.Rows()))
                && (key in old(db.items) ==>
                      var id := old(db.items)[key].id;
                      var after := RemoveAll(old(db.TagsOf(id)), names);
                      r == Ok(()) &&
                      db.Rows() == old(db.Rows()).(encTags := old(db.encTags)[id := after.enc],
                                                   plainTags := old(db.plainTags)[id := after.plain]))
      ensures db.nextItemId == old(db.nextItemId)
    {
      var found := ResolveId(type_, name);
      if found.None? {
        return Err(ItemNotFound);
      }
      var id := found.value;
      var pending := db.TagsOf(id);
      ghost var start := pending;
      var i := 0;
      while i < |names|
        invariant 0 <= i <= |names|
        invariant pending == RemoveAll(start, names[..i])
      {
        assert names[..i + 1][..i] == names[..i];
        match names[i] {
          case OfEncrypted(n) =>
            pending := pending.(enc := pending.enc - {n});
          case OfPlain(n) =>
            pending := pending.(plain := pending.plain - {n});
        }
        i := i + 1;
      }
      assert names[..i] == names;
      db.ReplaceTags(id, pending);
      r := Ok(());
    }

    /** Delete the item; its tag rows go with it by the cascading foreign keys. */
    method Delete(type_: Bytes, name: Bytes) returns (r: Result<(), WalletStorageError>)
      requires Valid()
      modifies db
      ensures Valid()
      ensures var key := ItemKeyOf(type_, name);
                && (key in old(db.items) ==>
                      var id := old(db.items)[key].id;
                      r == Ok(()) &&
                      db.Rows() == old(db.Rows()).(items := old(db.items) - {key},
                                                   encTags := old(db.encTags) - {id},
                                                   plainTags := old(db.plainTags) - {id}))
                && (key !in old(db.items) ==> r == Err(ItemNotFound) && db.Rows() == old(db.Rows()))
      ensures db.nextItemId == old(db.nextItemId)
    {
      var key := ItemKeyOf(type_, name);
      var rowCount := if key in db.items then 1 else 0;
      if rowCount == 1 {
        var id := db.items[key].id;
        db.items := db.items - {key};
        db.encTags := db.encTags - {id};
        db.plainTags := db.plainTags - {id};
        assert db.ItemIds() == old(db.ItemIds()) - {id} by {
          forall x | x in old(db.ItemIds()) - {id} ensures x in db.ItemIds() {
            var k :| k in old(db.items) && old(db.items)[k].id == x;
            assert k != key;
            assert k in db.items && db.items[k].id == x;
          }
        }
        r := Ok(());
      } else {
        r := Err(ItemNotFound);
      }
    }

    /** The wallet's metadata row, or ItemNotFound when it has none. */
    method GetStorageMetadata() returns (r: Result<Bytes, WalletStorageError>)
      ensures r.Ok? <==> db.HasWallet(walletId)
      ensures r.Ok? ==> MetadataRow(walletId, r.value) in db.metadata
      ensures r.Err? ==> r.error == ItemNotFound
    {
      if db.HasWallet(walletId) {
        var row :| row in db.metadata && row.wallet == walletId;
        r := Ok(row.value);
      } else {
        r := Err(ItemNotFound);
      }
    }

    /** `UPDATE metadata`: replaces the wallet's row if there is one and never adds one. */
    method SetStorageMetadata(metadata: Bytes) returns (r: Result<(), WalletStorageError>)
      requires Valid()
      modifies db
      ensures Valid() && r == Ok(())
      ensures db.nextItemId == old(db.nextItemId)
      ensures db.HasWallet(walletId) == old(db.HasWallet(walletId))
      ensures db.Rows() == old(db.Rows()).(metadata :=
                (set row | row in old(db.metadata) && row.wallet != walletId) +
                (if old(db.HasWallet(walletId)) then {MetadataRow(walletId, metadata)} else {}))
    {
      var updated := set row | row in db.metadata :: if row.wallet == walletId then MetadataRow(walletId, metadata) else row;
      ghost var expected := (set row | row in db.metadata && row.wallet != walletId) +
                            (if db.HasWallet(walletId) then {MetadataRow(walletId, metadata)} else {});
      assert updated == expected by {
        if db.HasWallet(walletId) {
          var row :| row in db.metadata && row.wallet == walletId;
          assert MetadataRow(walletId, metadata) in updated;
        }
      }
      db.metadata := updated;
      r := Ok(());
    }

    /** Runs the wallet's item query: every item of the wallet, once each. */
    method WalletRows() returns (rows: seq<Row>)
      ensures multiset(rows) == multiset(WalletRowSet())
    {
      rows := [];
      var keys := set k | k in db.items && k.wallet == walletId;
      var rest := keys;
      while rest != {}
        invariant rest <= keys
        invariant multiset(rows) == multiset(set d | d in keys - rest :: RowOf(d, db.items[d]))
        decreases rest
      {
        var k :| k in rest;
        RowOfFresh(db.items, walletId, keys - rest, k);
        MultisetOfFreshUnion(set d | d in keys - rest :: RowOf(d, db.items[d]), RowOf(k, db.items[k]));
        assert (keys - rest) + {k} == keys - (rest - {k});
        rows := rows + [RowOf(k, db.items[k])];
        rest := rest - {k};
      }
      assert keys - rest == keys;
    }

    /** Every item of this wallet with its value, type and tags; no total count. */
    method GetAll() returns (it: StorageIterator)
      ensures fresh(it) && it.Valid() && it.iterCount == 0
      ensures it.rows.Some? && multiset(it.rows.value) == multiset(WalletRowSet())
      ensures it.options == RecordOptions(true, true, true)
      ensures it.tagRetriever.Some? && it.tagRetriever.value.db == db
      ensures it.totalCount == None
    {
      var rows := WalletRows();
      var retriever := new TagRetriever(db);
      it := new StorageIterator(Some(rows), RecordOptions(true, true, true), Some(retriever), None);
    }

    /**
     * A search.  The query compiler is outside this model: `matching` are the rows
     * its record query returns and `matchCount` the number its count query returns.
     * Absent options take the defaults; malformed ones give InvalidStructure.  The
     * count is taken only when asked for; without records the iterator is empty.
     */
    method Search(matching: seq<Row>, matchCount: nat, options: Option<Parsed<SearchOptionsJson>>)
      returns (r: Result<StorageIterator, WalletStorageError>)
      ensures options == Some(Malformed) ==> r == Err(CommonError(InvalidStructure))
      ensures options != Some(Malformed) ==>
                var s := if options.Some? then ResolveSearchOptions(options.value.value) else DefaultSearchOptions();
                && r.Ok? && fresh(r.value) && r.value.Valid() && r.value.iterCount == 0
                && r.value.totalCount == (if s.retrieveTotalCount then Some(matchCount) else None)
                && (s.retrieveRecords ==>
                      && r.value.rows == Some(matching)
                      && r.value.options == FetchOptions(s)
                      && (r.value.tagRetriever.Some? <==> s.retrieveTags)
                      && (r.value.tagRetriever.Some? ==> r.value.tagRetriever.value.db == db))
                && (!s.retrieveRecords ==>
                      && r.value.rows == None
                      && r.value.options == DefaultRecordOptions()
                      && r.value.tagRetriever == None)
    {
      var s: SearchOptions;
      match options {
        case None =>
          s := DefaultSearchOptions();
        case Some(Malformed) =>
          return Err(CommonError(InvalidStructure));
        case Some(Parsed(j)) =>
          s := ResolveSearchOptions(j);
      }
      var totalCount := if s.retrieveTotalCount then Some(matchCount) else None;
      var it: StorageIterator;
      if s.retrieveRecords {
        var fetch := FetchOptions(s);
        var retriever: Option<TagRetriever> := None;
        if fetch.retrieveTags {
          var t := new TagRetriever(db);
          retriever := Some(t);
        }
        it := new StorageIterator(Some(matching), fetch, retriever, totalCount);
      } else {
        it := new StorageIterator(None, DefaultRecordOptions(), None, totalCount);
      }
      r := Ok(it);
    }
  }
}
