/**
 * Operations chained the way a wallet uses them: what one call leaves behind is
 * what the next one reads.
 */
module Scenarios {
  import opened Wrappers
  import opened Tags
  import opened Options
  import opened Errors
  import opened Database
  import opened RecordStore
  import opened Lifecycle

  /**
   * An item that was added reads back with its value and the same tags, each once;
   * a failed add leaves nothing to read.
   */
  method AddThenGet(storage: PostgresStorage, type_: Bytes, name: Bytes, value: EncryptedValue, tags: seq<Tag>)
    returns (added: Result<(), WalletStorageError>, read: Result<StorageRecord, WalletStorageError>)
    requires storage.Valid()
    modifies storage.db
    ensures storage.Valid()
    ensures added.Ok? ==>
              && read.Ok?
              && read.value.id == name
              && read.value.value == Some(value)
              && read.value.tags.Some?
              && multiset(read.value.tags.value) == multiset(tags)
    ensures added.Err? && storage.ItemKeyOf(type_, name) !in old(storage.db.items) ==> read == Err(ItemNotFound)
  {
    added := storage.Add(type_, name, value, tags);
    read := storage.Get(type_, name, Parsed(RecordOptionsJson(None, Some(true), Some(true))));
  }

  /**
   * A created wallet can be opened; once deleted it cannot, and deleting it again
   * reports NotFound.
   */
  method CreateOpenDelete(db: Database, id: WalletId, config: PostgresConfig, credentials: PostgresCredentials,
                          metadata: Bytes)
    returns (created: Result<(), WalletStorageError>, openedOnce: bool, openedAfterDelete: bool,
             deletedAgain: Result<(), WalletStorageError>)
    requires db.Valid() && db.schema && HasAdmin(credentials)
    requires |id| <= MaxWalletIdLength && !db.HasWallet(id)
    modifies db
    ensures db.Valid()
    ensures created == Ok(()) && openedOnce && !openedAfterDelete && deletedAgain == Err(NotFound)
  {
    created := CreateStorage(db, id, Some(Parsed(config)), Some(Parsed(credentials)), metadata);
    assert MetadataRow(id, metadata) in db.metadata;
    var first := OpenStorage(db, id, Some(Parsed(config)), Some(Parsed(credentials)));
    openedOnce := first.Ok?;
    var deleted := DeleteStorage(db, id, Some(Parsed(config)), Some(Parsed(credentials)));
    var second := OpenStorage(db, id, Some(Parsed(config)), Some(Parsed(credentials)));
    openedAfterDelete := second.Ok?;
    deletedAgain := DeleteStorage(db, id, Some(Parsed(config)), Some(Parsed(credentials)));
  }
}
