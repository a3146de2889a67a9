/** The credential store: the contents of data.json, a mapping from a
    title-cased website name to the email and password saved for it. The
    file itself is an optional map, None when data.json does not exist. */
module CredentialStore {
  import opened TitleCase

  datatype Option<T> = None | Some(value: T)

  /** The `{"email": ..., "password": ...}` object stored for one website. */
  datatype Record = Record(email: string, password: string)

  type Store = map<string, Record>

  /** The file after a confirmed save of `entry` under `key`: a missing file
      is created holding only that entry (main.py:111-113); an existing one
      gets `data.update({key: entry})` (main.py:116), which replaces the whole
      record under `key` and leaves every other key as it was. */
  function Upsert(file: Option<Store>, key: string, entry: Record): (r: Store)
    ensures key in r && r[key] == entry
    ensures file.None? ==> r.Keys == {key}
    ensures file.Some? ==> r.Keys == file.value.Keys + {key}
    ensures file.Some? ==> forall k :: k in file.value && k != key ==> r[k] == file.value[k]
  {
    match file
    case None => map[key := entry]
    case Some(data) => data[key := entry]
  }

  /** Saving under a key a second time keeps only the second record: nothing
      of the first one survives. */
  lemma UpsertOverwrites(file: Option<Store>, key: string, first: Record, second: Record)
    ensures Upsert(Some(Upsert(file, key, first)), key, second) == Upsert(file, key, second)
  {
    var once := Upsert(file, key, second);
    var twice := Upsert(Some(Upsert(file, key, first)), key, second);
    assert twice.Keys == once.Keys;
  }

  /** Saving the same record twice leaves the store as the first save left it. */
  lemma UpsertIdempotent(file: Option<Store>, key: string, entry: Record)
    ensures Upsert(Some(Upsert(file, key, entry)), key, entry) == Upsert(file, key, entry)
  {
    UpsertOverwrites(file, key, entry, entry);
  }

  /** Every key of the store is in title-case form, as every key written by
      a save is. */
  predicate KeysTitleCased(data: Store) {
    forall k :: k in data ==> Title(k) == k
  }

  /** A save keeps every key title-cased, because title-casing is idempotent. */
  lemma UpsertKeepsKeysTitleCased(file: Option<Store>, website: string, entry: Record)
    requires file.Some? ==> KeysTitleCased(file.value)
    ensures KeysTitleCased(Upsert(file, Title(website), entry))
  {
    TitleIdempotent(website);
  }

  /** After a save, a query that differs from the saved website name only in
      the case of its letters title-cases to the saved key. */
  lemma FindAfterSave(file: Option<Store>, website: string, query: string, entry: Record)
    requires SameIgnoringCase(query, website)
    ensures Title(query) in Upsert(file, Title(website), entry)
    ensures Upsert(file, Title(website), entry)[Title(query)] == entry
  {
    TitleIgnoresCase(query, website);
  }

  /** Querying a stored key verbatim finds that key. */
  lemma FindByStoredKey(data: Store, key: string)
    requires KeysTitleCased(data) && key in data
    ensures Title(key) in data && data[Title(key)] == data[key]
  {
  }

  /** A save under one key does not change what a query for another key
      title-cases to, nor what is stored there. */
  lemma SaveLeavesOtherQueries(data: Store, website: string, query: string, entry: Record)
    requires !SameIgnoringCase(query, website)
    ensures Title(query) in Upsert(Some(data), Title(website), entry) <==> Title(query) in data
    ensures Title(query) in data ==> Upsert(Some(data), Title(website), entry)[Title(query)] == data[Title(query)]
  {
    TitleIgnoresCase(query, website);
  }
}
