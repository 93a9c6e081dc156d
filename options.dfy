/**
 * The configuration objects that shape what a read returns.  Each field of the
 * JSON document may be absent; an absent field takes the default named in its
 * serde attribute.  The `Default` implementations are a second, independent
 * statement of the same defaults, and the lemmas below show the two agree.
 */
module Options {
  import opened Wrappers

  /** Which fields of a stored record a read materialises. */
  datatype RecordOptions = RecordOptions(retrieveType: bool, retrieveValue: bool, retrieveTags: bool)

  /** Search options: whether to stream records, whether to count, and the per-record fields. */
  datatype SearchOptions = SearchOptions(
    retrieveRecords: bool,
    retrieveTotalCount: bool,
    retrieveType: bool,
    retrieveValue: bool,
    retrieveTags: bool)

  /** A parsed options document: each key present with its value, or absent. */
  datatype RecordOptionsJson = RecordOptionsJson(
    retrieveType: Option<bool>, retrieveValue: Option<bool>, retrieveTags: Option<bool>)

  datatype SearchOptionsJson = SearchOptionsJson(
    retrieveRecords: Option<bool>,
    retrieveTotalCount: Option<bool>,
    retrieveType: Option<bool>,
    retrieveValue: Option<bool>,
    retrieveTags: Option<bool>)

  /** The document `{}`. */
  const EmptyRecordOptionsJson := RecordOptionsJson(None, None, None)
  const EmptySearchOptionsJson := SearchOptionsJson(None, None, None, None, None)

  /** `impl Default for RecordOptions`. */
  function DefaultRecordOptions(): RecordOptions {
    RecordOptions(retrieveType := false, retrieveValue := true, retrieveTags := false)
  }

  /** `impl Default for SearchOptions`. */
  function DefaultSearchOptions(): SearchOptions {
    SearchOptions(
      retrieveRecords := true,
      retrieveTotalCount := false,
      retrieveType := false,
      retrieveValue := true,
      retrieveTags := false)
  }

  /** Deserialisation with the per-field serde defaults: a key that is present wins,
      an absent key takes default_false or default_true as declared. */
  function ResolveRecordOptions(j: RecordOptionsJson): (r: RecordOptions)
    ensures j.retrieveType.Some? ==> r.retrieveType == j.retrieveType.value
    ensures j.retrieveValue.Some? ==> r.retrieveValue == j.retrieveValue.value
    ensures j.retrieveTags.Some? ==> r.retrieveTags == j.retrieveTags.value
    ensures j.retrieveType.None? ==> !r.retrieveType
    ensures j.retrieveValue.None? ==> r.retrieveValue
    ensures j.retrieveTags.None? ==> !r.retrieveTags
  {
    RecordOptions(
      retrieveType := j.retrieveType.GetOr(false),
      retrieveValue := j.retrieveValue.GetOr(true),
      retrieveTags := j.retrieveTags.GetOr(false))
  }

  function ResolveSearchOptions(j: SearchOptionsJson): (r: SearchOptions)
    ensures j.retrieveRecords.Some? ==> r.retrieveRecords == j.retrieveRecords.value
    ensures j.retrieveTotalCount.Some? ==> r.retrieveTotalCount == j.retrieveTotalCount.value
    ensures j.retrieveType.Some? ==> r.retrieveType == j.retrieveType.value
    ensures j.retrieveValue.Some? ==> r.retrieveValue == j.retrieveValue.value
    ensures j.retrieveTags.Some? ==> r.retrieveTags == j.retrieveTags.value
    ensures j.retrieveRecords.None? ==> r.retrieveRecords
    ensures j.retrieveTotalCount.None? ==> !r.retrieveTotalCount
    ensures j.retrieveType.None? ==> !r.retrieveType
    ensures j.retrieveValue.None? ==> r.retrieveValue
    ensures j.retrieveTags.None? ==> !r.retrieveTags
  {
    SearchOptions(
      retrieveRecords := j.retrieveRecords.GetOr(true),
      retrieveTotalCount := j.retrieveTotalCount.GetOr(false),
      retrieveType := j.retrieveType.GetOr(false),
      retrieveValue := j.retrieveValue.GetOr(true),
      retrieveTags := j.retrieveTags.GetOr(false))
  }

  /** The per-record projection a search uses when it streams records. */
  function FetchOptions(s: SearchOptions): RecordOptions {
    RecordOptions(retrieveType := s.retrieveType, retrieveValue := s.retrieveValue, retrieveTags := s.retrieveTags)
  }

  /** The empty document and the `Default` implementation agree, so `get`'s special
      case for the literal `{}` gives what deserialising `{}` would give. */
  lemma EmptyDocumentIsDefault()
    ensures ResolveRecordOptions(EmptyRecordOptionsJson) == DefaultRecordOptions()
    ensures ResolveSearchOptions(EmptySearchOptionsJson) == DefaultSearchOptions()
  {
  }

  /** A default search streams records with the default record projection. */
  lemma DefaultSearchFetchesDefaultRecord()
    ensures DefaultSearchOptions().retrieveRecords
    ensures FetchOptions(DefaultSearchOptions()) == DefaultRecordOptions()
  {
  }

  /** The projection a search streams with resolves the type, value and tags keys of its
      document with the same defaults as a record-options document holding those keys. */
  lemma FetchResolvesLikeRecord(j: SearchOptionsJson)
    ensures FetchOptions(ResolveSearchOptions(j)) ==
            ResolveRecordOptions(RecordOptionsJson(j.retrieveType, j.retrieveValue, j.retrieveTags))
  {
  }

  /** A fully specified document resolves to exactly the values it states: the defaults
      never override a key that is present. */
  lemma ResolveRecordOptionsExact(o: RecordOptions)
    ensures ResolveRecordOptions(RecordOptionsJson(Some(o.retrieveType), Some(o.retrieveValue), Some(o.retrieveTags))) == o
  {
  }
}
