/**
 * The tag model of the record store: tags are a tagged union of an encrypted
 * variant and a plain-text variant, and the rows one item owns in the two tag
 * tables form a pair of maps keyed by tag name.  The primary key
 * (wallet_id, name, item_id) of both tables allows one row per name per item
 * and variant, which is why a map per variant is the exact shape.
 *
 * The functions below give the meaning of the statement sequences the store
 * runs inside its transactions: plain INSERTs (fail on a key conflict),
 * INSERT ... ON CONFLICT DO UPDATE (overwrite), and DELETE by name.
 */
module Tags {
  import opened Wrappers

  newtype byte = b: int | 0 <= b < 256
  type Bytes = seq<byte>

  /** A tag is exactly one of two disjoint shapes; the shape picks its table. */
  datatype Tag = Encrypted(name: Bytes, data: Bytes) | PlainText(name: Bytes, text: string)

  /** The key of a tag row within one item: its variant and its name. */
  datatype TagName = OfEncrypted(name: Bytes) | OfPlain(name: Bytes)

  /** The rows one item owns in tags_encrypted and in tags_plaintext. */
  datatype TagMaps = TagMaps(enc: map<Bytes, Bytes>, plain: map<Bytes, string>)

  const NoTags: TagMaps := TagMaps(map[], map[])

  function KeyOf(t: Tag): TagName {
    match t
    case Encrypted(n, _) => OfEncrypted(n)
    case PlainText(n, _) => OfPlain(n)
  }

  /** Is there a row with key `k` among the item's tags? */
  predicate Has(m: TagMaps, k: TagName) {
    match k
    case OfEncrypted(n) => n in m.enc
    case OfPlain(n) => n in m.plain
  }

  /** Is tag `t` (key and value) one of the item's rows? */
  predicate Stored(m: TagMaps, t: Tag) {
    match t
    case Encrypted(n, d) => n in m.enc && m.enc[n] == d
    case PlainText(n, s) => n in m.plain && m.plain[n] == s
  }

  /** The rows of one table as tags. */
  function EncSet(enc: map<Bytes, Bytes>): set<Tag> {
    set n | n in enc :: Encrypted(n, enc[n])
  }

  function PlainSet(plain: map<Bytes, string>): set<Tag> {
    set n | n in plain :: PlainText(n, plain[n])
  }

  /** The tags a read of both tables returns for the item, as a set. */
  function TagSet(m: TagMaps): set<Tag> {
    EncSet(m.enc) + PlainSet(m.plain)
  }

  /** A tag is read back exactly when its row is stored with that value. */
  lemma TagSetIsStored(m: TagMaps)
    ensures forall t :: t in TagSet(m) <==> Stored(m, t)
  {
  }

  /** No two tags of the list share a (variant, name) key. */
  predicate DistinctKeys(tags: seq<Tag>) {
    forall i, j :: 0 <= i < j < |tags| ==> KeyOf(tags[i]) != KeyOf(tags[j])
  }

  /** One INSERT ... ON CONFLICT (wallet_id, name, item_id) DO UPDATE: the row for the
      tag's key is created or its value overwritten. */
  function Put(m: TagMaps, t: Tag): (r: TagMaps)
    ensures Stored(r, t)
    ensures forall k :: Has(r, k) <==> Has(m, k) || k == KeyOf(t)
    ensures forall u :: KeyOf(u) != KeyOf(t) ==> (Stored(r, u) <==> Stored(m, u))
  {
    match t
    case Encrypted(n, d) => m.(enc := m.enc[n := d])
    case PlainText(n, s) => m.(plain := m.plain[n := s])
  }

  /** One plain INSERT: refused (primary-key violation) when the key is taken. */
  function Insert(m: TagMaps, t: Tag): (r: Option<TagMaps>)
    ensures r.None? <==> Has(m, KeyOf(t))
    ensures r.Some? ==> TagSet(r.value) == TagSet(m) + {t}
  {
    if Has(m, KeyOf(t)) then None
    else
      PutFresh(m, t);
      Some(Put(m, t))
  }

  /** Putting a tag whose key is free adds exactly that tag. */
  lemma PutFresh(m: TagMaps, t: Tag)
    requires !Has(m, KeyOf(t))
    ensures TagSet(Put(m, t)) == TagSet(m) + {t}
  {
    var p := Put(m, t);
    forall u ensures u in TagSet(p) <==> u in TagSet(m) + {t} {
      if KeyOf(u) == KeyOf(t) {
        match u
        case Encrypted(_, _) =>
        case PlainText(_, _) =>
      }
    }
  }

  /** The plain INSERTs of a tag list, in list order; the first conflict aborts. */
  function InsertAll(m: TagMaps, tags: seq<Tag>): Option<TagMaps>
    decreases |tags|
  {
    if tags == [] then Some(m)
    else
      match InsertAll(m, tags[..|tags| - 1])
      case None => None
      case Some(p) => Insert(p, tags[|tags| - 1])
  }

  /** The upserting INSERTs of a tag list, in list order. */
  function UpsertAll(m: TagMaps, tags: seq<Tag>): TagMaps
    decreases |tags|
  {
    if tags == [] then m else Put(UpsertAll(m, tags[..|tags| - 1]), tags[|tags| - 1])
  }

  /** One DELETE of the row with the given key, if there is one. */
  function Remove(m: TagMaps, k: TagName): (r: TagMaps)
    ensures !Has(r, k)
    ensures forall u :: KeyOf(u) != k ==> (Stored(r, u) <==> Stored(m, u))
  {
    match k
    case OfEncrypted(n) => m.(enc := m.enc - {n})
    case OfPlain(n) => m.(plain := m.plain - {n})
  }

  /** The DELETEs of a list of keys, in list order. */
  function RemoveAll(m: TagMaps, names: seq<TagName>): TagMaps
    decreases |names|
  {
    if names == [] then m else Remove(RemoveAll(m, names[..|names| - 1]), names[|names| - 1])
  }

  /** The names a key list targets in each table. */
  function EncNames(names: seq<TagName>): set<Bytes> {
    set k | k in names && k.OfEncrypted? :: k.name
  }

  function PlainNames(names: seq<TagName>): set<Bytes> {
    set k | k in names && k.OfPlain? :: k.name
  }

  // ---------------------------------------------------------------------------
  // Properties of the statement sequences
  // ---------------------------------------------------------------------------

  /** No key of the list is already taken in `m`. */
  predicate AllFree(m: TagMaps, tags: seq<Tag>) {
    forall i :: 0 <= i < |tags| ==> !Has(m, KeyOf(tags[i]))
  }

  lemma DistinctKeysSnoc(pre: seq<Tag>, t: Tag)
    ensures DistinctKeys(pre + [t]) <==>
              DistinctKeys(pre) && forall i :: 0 <= i < |pre| ==> KeyOf(pre[i]) != KeyOf(t)
  {
    var tags := pre + [t];
    assert forall i :: 0 <= i < |pre| ==> tags[i] == pre[i];
    assert tags[|pre|] == t;
  }

  lemma AllFreeSnoc(m: TagMaps, pre: seq<Tag>, t: Tag)
    ensures AllFree(m, pre + [t]) <==> AllFree(m, pre) && !Has(m, KeyOf(t))
  {
    var tags := pre + [t];
    assert forall i :: 0 <= i < |pre| ==> tags[i] == pre[i];
    assert tags[|pre|] == t;
  }

  /** A strict insert of a list succeeds exactly when the list's keys are pairwise
      distinct and none of them is already taken. */
  lemma {:induction false} InsertAllSucceeds(m: TagMaps, tags: seq<Tag>)
    ensures InsertAll(m, tags).Some? <==> DistinctKeys(tags) && AllFree(m, tags)
    decreases |tags|
  {
    if tags != [] {
      var pre, t := tags[..|tags| - 1], tags[|tags| - 1];
      assert tags == pre + [t];
      InsertAllSucceeds(m, pre);
      DistinctKeysSnoc(pre, t);
      AllFreeSnoc(m, pre, t);
      if InsertAll(m, pre).Some? {
        InsertAllIsUpsert(m, pre);
        UpsertAllKeys(m, pre);
      }
    }
  }

  /** When a strict insert succeeds it has the effect of the upserting one. */
  lemma {:induction false} InsertAllIsUpsert(m: TagMaps, tags: seq<Tag>)
    requires InsertAll(m, tags).Some?
    ensures InsertAll(m, tags).value == UpsertAll(m, tags)
    decreases |tags|
  {
    if tags != [] {
      InsertAllIsUpsert(m, tags[..|tags| - 1]);
    }
  }

  /** After the upserts, a key is present exactly when it was before or some tag of the
      list carries it. */
  lemma {:induction false} UpsertAllKeys(m: TagMaps, tags: seq<Tag>)
    ensures forall k :: Has(UpsertAll(m, tags), k) <==>
              Has(m, k) || exists i :: 0 <= i < |tags| && KeyOf(tags[i]) == k
    decreases |tags|
  {
    if tags != [] {
      var pre := tags[..|tags| - 1];
      UpsertAllKeys(m, pre);
      forall k ensures Has(UpsertAll(m, tags), k) <==>
                       Has(m, k) || exists i :: 0 <= i < |tags| && KeyOf(tags[i]) == k {
        if exists i :: 0 <= i < |pre| && KeyOf(pre[i]) == k {
          var i :| 0 <= i < |pre| && KeyOf(pre[i]) == k;
          assert tags[i] == pre[i];
        }
        if exists i :: 0 <= i < |tags| && KeyOf(tags[i]) == k {
          var i :| 0 <= i < |tags| && KeyOf(tags[i]) == k;
          if i < |pre| { assert tags[i] == pre[i]; }
        }
      }
    }
  }

  /** add_tags is a union keyed by (variant, name) in which the new value wins: the
      upserts leave the old rows overridden by the map the list alone would build. */
  lemma {:induction false} UpsertAllIsUnion(m: TagMaps, tags: seq<Tag>)
    ensures UpsertAll(m, tags) == TagMaps(m.enc + UpsertAll(NoTags, tags).enc, m.plain + UpsertAll(NoTags, tags).plain)
    decreases |tags|
  {
    if tags != [] {
      var pre, t := tags[..|tags| - 1], tags[|tags| - 1];
      UpsertAllIsUnion(m, pre);
      PutOverUnion(m, UpsertAll(NoTags, pre), t);
    }
  }

  /** An upsert after a union lands in the right-hand side. */
  lemma PutOverUnion(m: TagMaps, u: TagMaps, t: Tag)
    ensures Put(TagMaps(m.enc + u.enc, m.plain + u.plain), t) == TagMaps(m.enc + Put(u, t).enc, m.plain + Put(u, t).plain)
  {
    match t
    case Encrypted(n, d) =>
      assert (m.enc + u.enc)[n := d] == m.enc + u.enc[n := d];
    case PlainText(n, x) =>
      assert (m.plain + u.plain)[n := x] == m.plain + u.plain[n := x];
  }

  /** Two add_tags calls in a row have the effect of one with both lists, in order. */
  lemma {:induction false} UpsertAllTwice(m: TagMaps, a: seq<Tag>, b: seq<Tag>)
    ensures UpsertAll(UpsertAll(m, a), b) == UpsertAll(m, a + b)
    decreases |b|
  {
    if b == [] {
      assert a + b == a;
    } else {
      assert (a + b)[..|a + b| - 1] == a + b[..|b| - 1];
      UpsertAllTwice(m, a, b[..|b| - 1]);
    }
  }

  /** The latest tag of a given key wins: if tags[i] is the last tag with its key, its
      value is the one stored. */
  lemma {:induction false} UpsertAllLastWins(m: TagMaps, tags: seq<Tag>, i: nat)
    requires i < |tags|
    requires forall j :: i < j < |tags| ==> KeyOf(tags[j]) != KeyOf(tags[i])
    ensures Stored(UpsertAll(m, tags), tags[i])
    decreases |tags|
  {
    if i < |tags| - 1 {
      var pre := tags[..|tags| - 1];
      assert pre[i] == tags[i];
      UpsertAllLastWins(m, pre, i);
    }
  }

  /** The deletes remove exactly the listed names from the listed tables; names that
      are not present are ignored. */
  lemma {:induction false} RemoveAllIsDifference(m: TagMaps, names: seq<TagName>)
    ensures RemoveAll(m, names) == TagMaps(m.enc - EncNames(names), m.plain - PlainNames(names))
    decreases |names|
  {
    if names != [] {
      var pre, k := names[..|names| - 1], names[|names| - 1];
      RemoveAllIsDifference(m, pre);
      NamesSnoc(pre, k);
      assert names == pre + [k];
      match k
      case OfEncrypted(n) =>
        assert (m.enc - EncNames(pre)) - {n} == m.enc - (EncNames(pre) + {n});
      case OfPlain(n) =>
        assert (m.plain - PlainNames(pre)) - {n} == m.plain - (PlainNames(pre) + {n});
    }
  }

  lemma NamesSnoc(pre: seq<TagName>, k: TagName)
    ensures EncNames(pre + [k]) == EncNames(pre) + (if k.OfEncrypted? then {k.name} else {})
    ensures PlainNames(pre + [k]) == PlainNames(pre) + (if k.OfPlain? then {k.name} else {})
  {
  }

  /** A list with distinct keys, stored into an item with no tags, reads back as exactly
      the same tags, each once: the multiset of the list equals the stored set. */
  lemma {:induction false} StoredListReadsBack(tags: seq<Tag>)
    requires DistinctKeys(tags)
    ensures InsertAll(NoTags, tags).Some?
    ensures TagSet(InsertAll(NoTags, tags).value) == set t | t in tags
    ensures multiset(tags) == multiset(TagSet(InsertAll(NoTags, tags).value))
    decreases |tags|
  {
    InsertAllSucceeds(NoTags, tags);
    if tags != [] {
      var pre, t := tags[..|tags| - 1], tags[|tags| - 1];
      assert tags == pre + [t];
      DistinctKeysSnoc(pre, t);
      StoredListReadsBack(pre);
      var p := InsertAll(NoTags, pre).value;
      var s := TagSet(p);
      assert InsertAll(NoTags, tags) == Insert(p, t);
      assert TagSet(InsertAll(NoTags, tags).value) == s + {t};
      assert t !in s by {
        assert s == set u | u in pre;
        assert forall i :: 0 <= i < |pre| ==> pre[i] != t;
      }
      SetOfSnoc(pre, t);
      MultisetOfFreshUnion(s, t);
    }
  }

  lemma SetOfSnoc<T>(pre: seq<T>, t: T)
    ensures (set u | u in pre + [t]) == (set u | u in pre) + {t}
  {
  }

  lemma MultisetOfFreshUnion<T>(s: set<T>, t: T)
    requires t !in s
    ensures multiset(s + {t}) == multiset(s) + multiset{t}
  {
  }

  /** Into an item with no tags, a strict insert succeeds exactly when the list's keys
      are pairwise distinct. */
  lemma InsertIntoNoTagsSucceeds(tags: seq<Tag>)
    ensures InsertAll(NoTags, tags).Some? <==> DistinctKeys(tags)
  {
    InsertAllSucceeds(NoTags, tags);
  }

  /** One more plain INSERT extends the prefix that has been run. */
  lemma InsertAllStep(m: TagMaps, tags: seq<Tag>, i: nat, p: TagMaps)
    requires i < |tags| && InsertAll(m, tags[..i]) == Some(p)
    ensures InsertAll(m, tags[..i + 1]) == Insert(p, tags[i])
  {
    assert tags[..i + 1][..i] == tags[..i];
  }

  /** A strict insert that fails on a prefix fails on the whole list. */
  lemma {:induction false} InsertAllPrefixFails(m: TagMaps, tags: seq<Tag>, j: nat)
    requires j <= |tags| && InsertAll(m, tags[..j]).None?
    ensures InsertAll(m, tags).None?
    decreases |tags| - j
  {
    if j < |tags| {
      assert tags[..j + 1][..j] == tags[..j];
      InsertAllPrefixFails(m, tags, j + 1);
    } else {
      assert tags[..j] == tags;
    }
  }

  /** Reading one more row of a table adds one new tag. */
  lemma EncSetPutFresh(enc: map<Bytes, Bytes>, n: Bytes, d: Bytes)
    requires n !in enc
    ensures Encrypted(n, d) !in EncSet(enc)
    ensures EncSet(enc[n := d]) == EncSet(enc) + {Encrypted(n, d)}
  {
    forall t | t in EncSet(enc[n := d])
      ensures t in EncSet(enc) + {Encrypted(n, d)}
    {
      var k :| k in enc[n := d] && t == Encrypted(k, enc[n := d][k]);
      if k != n {
        assert k in enc;
      }
    }
    assert enc[n := d][n] == d;
    forall t | t in EncSet(enc) ensures t in EncSet(enc[n := d]) {
      var k :| k in enc && t == Encrypted(k, enc[k]);
      assert enc[n := d][k] == enc[k];
    }
  }

  lemma PlainSetPutFresh(plain: map<Bytes, string>, n: Bytes, s: string)
    requires n !in plain
    ensures PlainText(n, s) !in PlainSet(plain)
    ensures PlainSet(plain[n := s]) == PlainSet(plain) + {PlainText(n, s)}
  {
    forall t | t in PlainSet(plain[n := s])
      ensures t in PlainSet(plain) + {PlainText(n, s)}
    {
      var k :| k in plain[n := s] && t == PlainText(k, plain[n := s][k]);
      if k != n {
        assert k in plain;
      }
    }
    assert plain[n := s][n] == s;
    forall t | t in PlainSet(plain) ensures t in PlainSet(plain[n := s]) {
      var k :| k in plain && t == PlainText(k, plain[k]);
      assert plain[n := s][k] == plain[k];
    }
  }

  /** The two tables contribute disjoint tags. */
  lemma TagSetMultiset(m: TagMaps)
    ensures multiset(TagSet(m)) == multiset(EncSet(m.enc)) + multiset(PlainSet(m.plain))
  {
    assert EncSet(m.enc) !! PlainSet(m.plain);
    MultisetOfDisjointUnion(EncSet(m.enc), PlainSet(m.plain));
  }

  lemma MultisetOfDisjointUnion<T>(a: set<T>, b: set<T>)
    requires a !! b
    ensures multiset(a + b) == multiset(a) + multiset(b)
  {
  }
}
