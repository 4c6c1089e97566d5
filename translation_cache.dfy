/**
 * The in-memory translation cache (apps/translation/_core/cache.py): a map from
 * (source text, language code) to the translated value and the time it
 * expires. An entry is served while the current time has not passed its expiry,
 * and an expired entry is removed when it is looked up.
 *
 * The clock is a parameter (`now`, in seconds); the lock is not modelled.
 */
module TranslationCache {
  import opened Wrappers
  import TranslationConf

  /** (source text, language code). */
  type Key = (string, string)

  datatype Item = Item(value: string, expiresAt: real)

  /** `TRANSLATION_CACHE_TTL_SECONDS`, as the seconds added to `time.time()`. */
  const Ttl: real := TranslationConf.CacheTtlSeconds as real

  /** What a lookup at time `now` returns. */
  function Lookup(entries: map<Key, Item>, key: Key, now: real): (r: Option<string>)
    ensures key !in entries ==> r.None?
    ensures key in entries ==> (r.Some? <==> now <= entries[key].expiresAt)
    ensures r.Some? ==> r.value == entries[key].value
  {
    if key !in entries then None
    else if now > entries[key].expiresAt then None
    else Some(entries[key].value)
  }

  /** The map after a lookup at time `now`: an expired entry for the key is dropped. */
  function Pruned(entries: map<Key, Item>, key: Key, now: real): (e: map<Key, Item>)
    ensures forall k :: k != key ==> (k in e <==> k in entries) && (k in e ==> e[k] == entries[k])
    ensures key in e <==> key in entries && now <= entries[key].expiresAt
    ensures key in e ==> e[key] == entries[key]
  {
    if key in entries && now > entries[key].expiresAt then entries - {key} else entries
  }

  /** The map after saving `value` at time `now`. */
  function Stored(entries: map<Key, Item>, key: Key, value: string, now: real): (e: map<Key, Item>)
    ensures e.Keys == entries.Keys + {key}
    ensures e[key] == Item(value, now + Ttl)
    ensures forall k :: k in entries && k != key ==> e[k] == entries[k]
  {
    entries[key := Item(value, now + Ttl)]
  }

  class Cache {
    var entries: map<Key, Item>

    /** The module starts with an empty cache. */
    constructor ()
      ensures entries == map[]
    {
      entries := map[];
    }

    /** `get_from_cache` at time `now`. */
    method Get(text: string, langCode: string, now: real) returns (r: Option<string>)
      modifies this
      ensures r == Lookup(old(entries), (text, langCode), now)
      ensures entries == Pruned(old(entries), (text, langCode), now)
    {
      var key := (text, langCode);
      if key !in entries {
        return None;
      }
      var item := entries[key];
      if now > item.expiresAt {
        entries := entries - {key};
        return None;
      }
      return Some(item.value);
    }

    /** `save_to_cache` at time `now`. */
    method Save(text: string, langCode: string, value: string, now: real)
      modifies this
      ensures entries == Stored(old(entries), (text, langCode), value, now)
    {
      entries := entries[(text, langCode) := Item(value, now + Ttl)];
    }

    /** `invalidate_cache`. */
    method Invalidate()
      modifies this
      ensures entries == map[]
    {
      entries := map[];
    }
  }

  // ------------------------------------------------------------ properties

  /** A saved value is served at any time up to and including its expiry. */
  lemma SaveThenLookup(entries: map<Key, Item>, key: Key, value: string, savedAt: real, now: real)
    requires now <= savedAt + 480.0
    ensures Lookup(Stored(entries, key, value, savedAt), key, now) == Some(value)
  {
  }

  /** The comparison is strict: at exactly the expiry the value is still served. */
  lemma ServedAtExpiry(entries: map<Key, Item>, key: Key, value: string, savedAt: real)
    ensures Lookup(Stored(entries, key, value, savedAt), key, savedAt + 480.0) == Some(value)
    ensures Lookup(Stored(entries, key, value, savedAt), key, savedAt + 480.5) == None
  {
  }

  /** Past its expiry a saved value is no longer served, and the lookup drops it. */
  lemma ExpiredIsDropped(entries: map<Key, Item>, key: Key, value: string, savedAt: real, now: real)
    requires now > savedAt + 480.0
    ensures Lookup(Stored(entries, key, value, savedAt), key, now) == None
    ensures key !in Pruned(Stored(entries, key, value, savedAt), key, now)
  {
  }

  /** Saving again overwrites the value and refreshes the expiry. */
  lemma SaveOverwrites(entries: map<Key, Item>, key: Key, v1: string, t1: real, v2: string, t2: real, now: real)
    requires t1 <= t2 <= now <= t2 + 480.0
    ensures Lookup(Stored(Stored(entries, key, v1, t1), key, v2, t2), key, now) == Some(v2)
  {
  }

  /** Saving or looking up one key leaves what every other key serves unchanged. */
  lemma OtherKeysUnaffected(entries: map<Key, Item>, key: Key, other: Key, value: string, t: real, now: real)
    requires other != key
    ensures Lookup(Stored(entries, key, value, t), other, now) == Lookup(entries, other, now)
    ensures Lookup(Pruned(entries, key, t), other, now) == Lookup(entries, other, now)
  {
  }

  /** Dropping an expired entry never changes what is served at that time or later. */
  lemma PruningIsInvisible(entries: map<Key, Item>, key: Key, t: real, k: Key, now: real)
    requires t <= now
    ensures Lookup(Pruned(entries, key, t), k, now) == Lookup(entries, k, now)
  {
  }

  /** Once an entry has expired it stays expired until it is saved again. */
  lemma ExpiryIsPermanent(entries: map<Key, Item>, key: Key, t: real, later: real)
    requires key in entries && Lookup(entries, key, t).None?
    requires t <= later
    ensures Lookup(entries, key, later).None?
  {
  }
}
