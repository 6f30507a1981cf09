/**
 * The saved-article history kept in browser local storage under one key.
 *
 * The key-value store is a map from key to what the key holds: the JSON text
 * of a list of saved articles (`News`), or text that does not parse
 * (`Corrupt`); a key missing from the map was never written. Whether a
 * `setItem` call succeeds (it fails when the storage quota is exhausted) is a
 * parameter of each writing operation.
 */
module StorageService {
  import opened Types

  const StorageKey: string := "REDATOR_AI_SAVED_NEWS"

  const SaveFailedAlert: string := "Não foi possível salvar a notícia. O armazenamento local pode estar cheio."

  datatype Value = Corrupt | News(items: seq<SavedNewsItem>)

  /** The list `getSavedNews` yields for what is stored under the key. */
  function LoadList(stored: Option<Value>): (r: seq<SavedNewsItem>)
    ensures stored.None? ==> r == []
    ensures stored == Some(Corrupt) ==> r == []
    ensures stored.Some? && stored.value.News? ==> r == stored.value.items
  {
    match stored
    case Some(News(items)) => items
    case _ => []
  }

  /** How many entries carry `id`. */
  function CountId(items: seq<SavedNewsItem>, id: string): nat {
    if items == [] then 0 else (if items[0].id == id then 1 else 0) + CountId(items[1..], id)
  }

  /** `items.filter(item => item.id !== id)`. */
  function WithoutId(items: seq<SavedNewsItem>, id: string): (r: seq<SavedNewsItem>)
    ensures |r| <= |items|
    ensures forall x :: x in r <==> x in items && x.id != id
  {
    if items == [] then []
    else if items[0].id != id then [items[0]] + WithoutId(items[1..], id)
    else WithoutId(items[1..], id)
  }

  /** The list a save writes: the item first, then every other entry. */
  function SavedList(current: seq<SavedNewsItem>, item: SavedNewsItem): (r: seq<SavedNewsItem>)
    ensures |r| >= 1 && r[0] == item
    ensures forall x :: x in r[1..] <==> x in current && x.id != item.id
  {
    [item] + WithoutId(current, item.id)
  }

  // ---- properties of the list computations ----

  /** Filtering works piecewise, so it keeps the relative order of what it keeps. */
  lemma {:induction false} WithoutIdConcat(a: seq<SavedNewsItem>, b: seq<SavedNewsItem>, id: string)
    ensures WithoutId(a + b, id) == WithoutId(a, id) + WithoutId(b, id)
  {
    if a != [] {
      assert (a + b)[1..] == a[1..] + b;
      WithoutIdConcat(a[1..], b, id);
    } else {
      assert a + b == b;
    }
  }

  /** After filtering no entry carries the id. */
  lemma {:induction false} WithoutIdRemovesAll(items: seq<SavedNewsItem>, id: string)
    ensures CountId(WithoutId(items, id), id) == 0
  {
    if items != [] {
      WithoutIdRemovesAll(items[1..], id);
    }
  }

  /** Filtering by an id no entry carries changes nothing. */
  lemma {:induction false} WithoutAbsentId(items: seq<SavedNewsItem>, id: string)
    requires CountId(items, id) == 0
    ensures WithoutId(items, id) == items
  {
    if items != [] {
      WithoutAbsentId(items[1..], id);
      assert [items[0]] + items[1..] == items;
    }
  }

  /** Filtering twice by the same id is filtering once. */
  lemma WithoutIdIdempotent(items: seq<SavedNewsItem>, id: string)
    ensures WithoutId(WithoutId(items, id), id) == WithoutId(items, id)
  {
    WithoutIdRemovesAll(items, id);
    WithoutAbsentId(WithoutId(items, id), id);
  }

  /** Filtering by one id and then another is the same in either order. */
  lemma {:induction false} WithoutIdCommutes(items: seq<SavedNewsItem>, a: string, b: string)
    ensures WithoutId(WithoutId(items, a), b) == WithoutId(WithoutId(items, b), a)
  {
    if items != [] {
      WithoutIdCommutes(items[1..], a, b);
    }
  }

  /** After a save the item heads the list and is the only entry with its id. */
  lemma SaveHeadUnique(current: seq<SavedNewsItem>, item: SavedNewsItem)
    ensures SavedList(current, item)[0] == item
    ensures CountId(SavedList(current, item), item.id) == 1
  {
    WithoutIdRemovesAll(current, item.id);
    assert SavedList(current, item)[1..] == WithoutId(current, item.id);
  }

  /**
   * Behind the new head a save keeps exactly the entries with a different id,
   * in their previous relative order; saving an item with a fresh id just prepends it.
   */
  lemma SaveKeepsOthers(current: seq<SavedNewsItem>, item: SavedNewsItem)
    ensures SavedList(current, item)[1..] == WithoutId(current, item.id)
    ensures WithoutId(SavedList(current, item), item.id) == WithoutId(current, item.id)
    ensures CountId(current, item.id) == 0 ==> SavedList(current, item) == [item] + current
  {
    var saved := SavedList(current, item);
    assert saved[1..] == WithoutId(current, item.id);
    WithoutIdConcat([item], WithoutId(current, item.id), item.id);
    WithoutIdIdempotent(current, item.id);
    if CountId(current, item.id) == 0 {
      WithoutAbsentId(current, item.id);
    }
  }

  /** Saving the same article twice leaves the same list as saving it once. */
  lemma SaveIdempotent(current: seq<SavedNewsItem>, item: SavedNewsItem)
    ensures SavedList(SavedList(current, item), item) == SavedList(current, item)
  {
    SaveKeepsOthers(current, item);
  }

  // ---- the store ----

  class BrowserStorage {
    var entries: map<string, Value>

    constructor (initial: map<string, Value>)
      ensures entries == initial
    {
      entries := initial;
    }

    /** What `localStorage.getItem(STORAGE_KEY)` finds. */
    function Lookup(): Option<Value>
      reads this
    {
      if StorageKey in entries then Some(entries[StorageKey]) else None
    }

    /** `getSavedNews`: never fails; a missing key or unparsable text reads as `[]`. */
    method GetSavedNews() returns (items: seq<SavedNewsItem>)
      ensures items == LoadList(Lookup())
      ensures StorageKey !in entries ==> items == []
      ensures StorageKey in entries && entries[StorageKey] == Corrupt ==> items == []
    {
      if StorageKey in entries {
        match entries[StorageKey]
        case Corrupt =>
          items := [];
        case News(list) =>
          items := list;
      } else {
        items := [];
      }
    }

    /** `localStorage.setItem(STORAGE_KEY, ...)`, succeeding or not as the store decides. */
    method SetItem(value: Value, succeeds: bool)
      modifies this
      ensures entries == if succeeds then old(entries)[StorageKey := value] else old(entries)
    {
      if succeeds {
        entries := entries[StorageKey := value];
      }
    }

    /**
     * `saveNewsToStorage`: reads the list (a corrupt or missing value reads as
     * empty), writes the item first followed by the entries with other ids.
     * When the write fails the user is alerted and the store is left as it was.
     */
    method SaveNewsToStorage(item: SavedNewsItem, writeSucceeds: bool) returns (alert: Option<string>)
      modifies this
      ensures writeSucceeds ==> entries == old(entries)[StorageKey := News(SavedList(LoadList(old(Lookup())), item))]
      ensures writeSucceeds ==> alert == None
      ensures !writeSucceeds ==> entries == old(entries) && alert == Some(SaveFailedAlert)
    {
      var currentList := GetSavedNews();
      var updatedList := [item] + WithoutId(currentList, item.id);
      SetItem(News(updatedList), writeSucceeds);
      alert := if writeSucceeds then None else Some(SaveFailedAlert);
    }

    /**
     * `deleteNewsFromStorage`: writes and returns the list without the entries
     * carrying `id`. When the write fails it returns `[]`, whatever is stored.
     */
    method DeleteNewsFromStorage(id: string, writeSucceeds: bool) returns (updated: seq<SavedNewsItem>)
      modifies this
      ensures writeSucceeds ==> updated == WithoutId(LoadList(old(Lookup())), id)
      ensures writeSucceeds ==> entries == old(entries)[StorageKey := News(updated)]
      ensures !writeSucceeds ==> updated == [] && entries == old(entries)
    {
      var currentList := GetSavedNews();
      var updatedList := WithoutId(currentList, id);
      SetItem(News(updatedList), writeSucceeds);
      updated := if writeSucceeds then updatedList else [];
    }
  }

  // ---- properties of the store operations, stated on the values they read and write ----

  /** Saving over corrupt or missing data stores just the one item. */
  lemma SaveOverUnreadable(stored: Option<Value>, item: SavedNewsItem)
    requires stored.None? || stored == Some(Corrupt)
    ensures SavedList(LoadList(stored), item) == [item]
  {
  }

  /** A save followed by a read finds exactly one entry with the saved id, at the head. */
  lemma SaveThenLoad(before: map<string, Value>, item: SavedNewsItem)
    ensures var stored := before[StorageKey := News(SavedList(LoadList(if StorageKey in before then Some(before[StorageKey]) else None), item))];
            var loaded := LoadList(Some(stored[StorageKey]));
            loaded[0] == item && CountId(loaded, item.id) == 1
  {
    var current := LoadList(if StorageKey in before then Some(before[StorageKey]) else None);
    SaveHeadUnique(current, item);
  }

  /** A delete followed by a read finds no entry with that id; deleting again changes nothing. */
  lemma DeleteThenLoad(stored: Option<Value>, id: string)
    ensures CountId(LoadList(Some(News(WithoutId(LoadList(stored), id)))), id) == 0
    ensures WithoutId(WithoutId(LoadList(stored), id), id) == WithoutId(LoadList(stored), id)
    ensures CountId(LoadList(stored), id) == 0 ==> WithoutId(LoadList(stored), id) == LoadList(stored)
  {
    WithoutIdRemovesAll(LoadList(stored), id);
    WithoutIdIdempotent(LoadList(stored), id);
    if CountId(LoadList(stored), id) == 0 {
      WithoutAbsentId(LoadList(stored), id);
    }
  }
}
