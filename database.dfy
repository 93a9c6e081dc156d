/**
 * The backend database: the four tables of the fixed schema, shared by all
 * wallets and kept apart by wallet_id.
 *
 *  - metadata(wallet_id, value): one row per wallet (see CreateStorage);
 *  - items(wallet_id, id, type, name, value, key): unique on (wallet_id, type, name),
 *    which is the key of the `items` map, and on its serial id;
 *  - tags_encrypted / tags_plaintext(wallet_id, name, value, item_id): primary key
 *    (wallet_id, name, item_id) and a foreign key to the item with ON DELETE CASCADE.
 *    Item ids are drawn from one sequence, so an id determines its item and its
 *    wallet; each tag table is therefore a map from item id to that item's rows,
 *    keyed by tag name.
 */
module Database {
  import opened Tags
  import opened Errors

  /** Every wallet_id column is VARCHAR(64). */
  const MaxWalletIdLength: nat := 64

  type WalletId = string

  /** An encrypted item value: ciphertext and the wrapped item key. */
  datatype EncryptedValue = EncryptedValue(data: Bytes, key: Bytes)

  datatype ItemKey = ItemKey(wallet: WalletId, type_: Bytes, name: Bytes)
  datatype ItemRow = ItemRow(id: nat, value: EncryptedValue)
  datatype MetadataRow = MetadataRow(wallet: WalletId, value: Bytes)

  /** The contents of all four tables at one moment. */
  datatype Tables = Tables(
    metadata: set<MetadataRow>,
    items: map<ItemKey, ItemRow>,
    encTags: map<nat, map<Bytes, Bytes>>,
    plainTags: map<nat, map<Bytes, string>>)

  /** No wallet has two metadata rows. */
  predicate OneRowPerWallet(rows: set<MetadataRow>) {
    forall r1, r2 :: r1 in rows && r2 in rows && r1.wallet == r2.wallet ==> r1 == r2
  }

  /** The serial ids of a set of item rows. */
  function IdsOf(items: map<ItemKey, ItemRow>): set<nat> {
    set k | k in items :: items[k].id
  }

  /** The ids of wallet `w`'s items. */
  function WalletIds(t: Tables, w: WalletId): set<nat> {
    set k | k in t.items && k.wallet == w :: t.items[k].id
  }

  /**
   * The constraints of the schema, plus one metadata row per wallet: without the
   * schema there are no rows; wallet ids fit their column; item ids come from the
   * sequence and are unique; every tag row references an item.
   */
  ghost predicate TablesValid(t: Tables, schema: bool, nextItemId: nat) {
    && (!schema ==> t.metadata == {} && t.items == map[] && t.encTags == map[] && t.plainTags == map[])
    && (forall row :: row in t.metadata ==> |row.wallet| <= MaxWalletIdLength)
    && OneRowPerWallet(t.metadata)
    && (forall k :: k in t.items ==> |k.wallet| <= MaxWalletIdLength && t.items[k].id < nextItemId)
    && (forall k1, k2 :: k1 in t.items && k2 in t.items && t.items[k1].id == t.items[k2].id ==> k1 == k2)
    && t.encTags.Keys <= IdsOf(t.items)
    && t.plainTags.Keys <= IdsOf(t.items)
  }

  /** The statements of a wallet deletion, in the order they run. */
  datatype DeleteStatement = DeletePlainTags | DeleteEncryptedTags | DeleteItems | DeleteMetadata

  const DeleteWallet: seq<DeleteStatement> := [DeletePlainTags, DeleteEncryptedTags, DeleteItems, DeleteMetadata]

  /** The metadata rows of wallet `w`. */
  function MetadataOf(t: Tables, w: WalletId): set<MetadataRow> {
    set row | row in t.metadata && row.wallet == w
  }

  /** The tables after one `DELETE FROM <table> WHERE wallet_id = $1`; deleting items
      cascades to their tag rows. */
  function AfterDelete(t: Tables, stmt: DeleteStatement, w: WalletId): Tables {
    match stmt
    case DeletePlainTags => t.(plainTags := t.plainTags - WalletIds(t, w))
    case DeleteEncryptedTags => t.(encTags := t.encTags - WalletIds(t, w))
    case DeleteItems =>
      t.(items := map k | k in t.items && k.wallet != w :: t.items[k],
         encTags := t.encTags - WalletIds(t, w),
         plainTags := t.plainTags - WalletIds(t, w))
    case DeleteMetadata => t.(metadata := t.metadata - MetadataOf(t, w))
  }

  /** The number of rows that statement reports: the rows of its own table it removed. */
  function RowsDeleted(t: Tables, stmt: DeleteStatement, w: WalletId): nat {
    match stmt
    case DeletePlainTags =>
      |set id, n | id in t.plainTags && id in WalletIds(t, w) && n in t.plainTags[id] :: (id, n)|
    case DeleteEncryptedTags =>
      |set id, n | id in t.encTags && id in WalletIds(t, w) && n in t.encTags[id] :: (id, n)|
    case DeleteItems => |set k | k in t.items && k.wallet == w|
    case DeleteMetadata => |MetadataOf(t, w)|
  }

  /** The statements run in order. */
  function RunDeletes(t: Tables, stmts: seq<DeleteStatement>, w: WalletId): Tables
    decreases |stmts|
  {
    if stmts == [] then t else AfterDelete(RunDeletes(t, stmts[..|stmts| - 1], w), stmts[|stmts| - 1], w)
  }

  /** The tables once every row of wallet `w` is gone, and nothing else. */
  function WithoutWallet(t: Tables, w: WalletId): Tables {
    Tables(
      t.metadata - MetadataOf(t, w),
      map k | k in t.items && k.wallet != w :: t.items[k],
      t.encTags - WalletIds(t, w),
      t.plainTags - WalletIds(t, w))
  }

  /** Removing a wallet's items keeps every id of the other wallets' items. */
  lemma KeptItemIds(items: map<ItemKey, ItemRow>, w: WalletId)
    ensures var kept := map k | k in items && k.wallet != w :: items[k];
            IdsOf(items) - (set k | k in items && k.wallet == w :: items[k].id) <= IdsOf(kept)
  {
    var kept := map k | k in items && k.wallet != w :: items[k];
    var mine := set k | k in items && k.wallet == w :: items[k].id;
    forall id | id in IdsOf(items) && id !in mine ensures id in IdsOf(kept) {
      var k :| k in items && items[k].id == id;
      assert k in kept;
    }
  }

  /** Each deletion keeps the constraints. */
  lemma AfterDeleteValid(t: Tables, schema: bool, nextItemId: nat, stmt: DeleteStatement, w: WalletId)
    requires TablesValid(t, schema, nextItemId)
    ensures TablesValid(AfterDelete(t, stmt, w), schema, nextItemId)
  {
    if stmt == DeleteItems {
      KeptItemIds(t.items, w);
    }
  }

  /** The four statements of a wallet deletion remove exactly that wallet's rows. */
  lemma DeleteWalletRemovesWallet(t: Tables, w: WalletId)
    ensures RunDeletes(t, DeleteWallet, w) == WithoutWallet(t, w)
    ensures RowsDeleted(RunDeletes(t, DeleteWallet[..3], w), DeleteMetadata, w) == |MetadataOf(t, w)|
  {
    var t1 := RunDeletes(t, DeleteWallet[..1], w);
    var t2 := RunDeletes(t, DeleteWallet[..2], w);
    var t3 := RunDeletes(t, DeleteWallet[..3], w);
    assert DeleteWallet[..1] == [DeletePlainTags] && DeleteWallet[..1][..0] == [];
    assert RunDeletes(t, [], w) == t;
    assert t1 == AfterDelete(t, DeletePlainTags, w);
    assert DeleteWallet[..2][..1] == DeleteWallet[..1];
    assert t2 == AfterDelete(t1, DeleteEncryptedTags, w);
    assert DeleteWallet[..3][..2] == DeleteWallet[..2];
    assert t3 == AfterDelete(t2, DeleteItems, w);
    assert DeleteWallet[..3] == DeleteWallet[..|DeleteWallet| - 1];
    assert WalletIds(t2, w) == WalletIds(t, w);
  }

  /** A wallet has a metadata row exactly when deleting its metadata removes one. */
  lemma MetadataCountIsPresence(t: Tables, w: WalletId)
    ensures |MetadataOf(t, w)| == 0 <==> !exists row :: row in t.metadata && row.wallet == w
  {
    if exists row :: row in t.metadata && row.wallet == w {
      var row :| row in t.metadata && row.wallet == w;
      assert row in MetadataOf(t, w);
    }
  }

  class Database {
    /** Whether the `wallets` database and its schema have been provisioned. */
    var schema: bool
    var metadata: set<MetadataRow>
    var items: map<ItemKey, ItemRow>
    /** The next value of the items id sequence. */
    var nextItemId: nat
    var encTags: map<nat, map<Bytes, Bytes>>
    var plainTags: map<nat, map<Bytes, string>>

    ghost predicate Valid()
      reads this
    {
      TablesValid(Rows(), schema, nextItemId)
    }

    constructor ()
      ensures Valid() && !schema
      ensures metadata == {} && items == map[] && encTags == map[] && plainTags == map[]
    {
      schema := false;
      metadata := {};
      items := map[];
      nextItemId := 1;
      encTags := map[];
      plainTags := map[];
    }

    function Rows(): Tables
      reads this
    {
      Tables(metadata, items, encTags, plainTags)
    }

    function ItemIds(): set<nat>
      reads this
    {
      IdsOf(items)
    }

    /** The ids of one wallet's items. */
    function WalletItemIds(w: WalletId): set<nat>
      reads this
    {
      WalletIds(Rows(), w)
    }

    /** The tag rows that reference item `id`; none when there are none. */
    function TagsOf(id: nat): TagMaps
      reads this
    {
      TagMaps(if id in encTags then encTags[id] else map[], if id in plainTags then plainTags[id] else map[])
    }

    /** The item rows a `WHERE wallet_id = $1 AND type = $2 AND name = $3` matches. */
    function MatchingItems(key: ItemKey): set<ItemKey>
      reads this
    {
      set k | k in items && k == key
    }

    /** The unique index on (wallet_id, type, name): a key matches one row or none. */
    lemma MatchingItemsAtMostOne(key: ItemKey)
      ensures |MatchingItems(key)| == if key in items then 1 else 0
    {
      if key in items {
        assert MatchingItems(key) == {key};
      } else {
        assert MatchingItems(key) == {};
      }
    }

    predicate HasWallet(w: WalletId)
      reads this
    {
      exists row :: row in metadata && row.wallet == w
    }

    /** One `DELETE FROM <table> WHERE wallet_id = $1`; returns the number of rows it
        removed. */
    method ExecuteDelete(stmt: DeleteStatement, w: WalletId) returns (rowCount: nat)
      requires Valid()
      modifies this
      ensures Valid() && schema == old(schema) && nextItemId == old(nextItemId)
      ensures rowCount == RowsDeleted(old(Rows()), stmt, w)
      ensures Rows() == AfterDelete(old(Rows()), stmt, w)
    {
      rowCount := RowsDeleted(Rows(), stmt, w);
      AfterDeleteValid(Rows(), schema, nextItemId, stmt, w);
      var ids := WalletItemIds(w);
      match stmt {
        case DeletePlainTags =>
          plainTags := plainTags - ids;
        case DeleteEncryptedTags =>
          encTags := encTags - ids;
        case DeleteItems =>
          items := map k | k in items && k.wallet != w :: items[k];
          encTags := encTags - ids;
          plainTags := plainTags - ids;
        case DeleteMetadata =>
          metadata := metadata - MetadataOf(Rows(), w);
      }
    }

    /** `nextval` of the items id sequence; never rolled back. */
    method DrawItemId() returns (id: nat)
      requires Valid()
      modifies this
      ensures Valid() && schema == old(schema)
      ensures id == old(nextItemId) && nextItemId == id + 1 && id !in ItemIds()
      ensures Rows() == old(Rows())
    {
      id := nextItemId;
      nextItemId := nextItemId + 1;
    }

    /**
     * Replace the tag rows of an existing item, in both tables.  An item without tag
     * rows may be stored with no entry or with an empty one; `TagsOf` reads both the
     * same, and only `TagsOf` is meaningful for an item's rows.
     */
    method ReplaceTags(id: nat, tags: TagMaps)
      requires Valid() && id in ItemIds()
      modifies this
      ensures Valid() && schema == old(schema) && nextItemId == old(nextItemId)
      ensures TagsOf(id) == tags
      ensures Rows() == old(Rows()).(encTags := old(encTags)[id := tags.enc],
                                     plainTags := old(plainTags)[id := tags.plain])
    {
      encTags := encTags[id := tags.enc];
      plainTags := plainTags[id := tags.plain];
    }

    /** Insert an item row under a drawn id, together with its tag rows. */
    method InsertItem(key: ItemKey, id: nat, value: EncryptedValue, tags: TagMaps)
      requires Valid() && schema
      requires key !in items && id !in ItemIds() && id < nextItemId
      requires |key.wallet| <= MaxWalletIdLength
      modifies this
      ensures Valid() && schema && nextItemId == old(nextItemId)
      ensures TagsOf(id) == tags
      ensures Rows() == old(Rows()).(
                items := old(items)[key := ItemRow(id, value)],
                encTags := old(encTags)[id := tags.enc],
                plainTags := old(plainTags)[id := tags.plain])
    {
      items := items[key := ItemRow(id, value)];
      encTags := encTags[id := tags.enc];
      plainTags := plainTags[id := tags.plain];
      assert old(ItemIds()) + {id} <= ItemIds() by {
        forall x | x in old(ItemIds()) ensures x in ItemIds() {
          var k :| k in old(items) && old(items)[k].id == x;
          assert k in items && items[k].id == x;
        }
        assert items[key].id == id;
      }
    }
  }
}
