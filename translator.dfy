/**
 * The translation lookup chain and its background queue
 * (apps/translation/_core/translator.py).
 *
 * `get_translate` answers from, in order: the reference language (the source
 * text itself), the in-memory cache, the `Translation` row in the database,
 * and the language model — either by queueing a background task (fast mode)
 * or by calling it and waiting (slow mode). The pending flags that keep one
 * text from being queued twice live in Django's cache (a database cache:
 * an entry is live while `now <= expiresAt`).
 *
 * The clock (`now`), the active language, whether an OpenAI key is
 * configured, the language model's answer and Python's `hash` are parameters.
 * A task is queued and run as two separate steps; the worker threads, the
 * lock and the one-second pause between requests are not modelled.
 */
module Translator {
  import opened Wrappers
  import opened Strings
  import TranslationCache
  import TranslationConf

  /** (source text, language code), the key of a task and of a cache entry. */
  type TaskKey = (string, string)

  /** `CACHE_TTL`: seconds a pending flag lives. */
  const PendingTtl: real := 30.0

  /** `DEFAULT_REFERENCE_LANGUAGE` and `AUTO_COPY_REFERENCE_TEXT`. */
  const Reference: string := TranslationConf.Shipped.reference
  const AutoCopyReference: bool := TranslationConf.Shipped.autoCopyReference

  /** `_make_task_key`: the cache key of the pending flag for a text and a language. */
  function MakeTaskKey(sourceText: string, langCode: string, hash: string -> int): (key: string)
    ensures StartsWith(key, "translation-pending:")
  {
    "translation-pending:" + langCode + ":" + IntToString(hash(sourceText))
  }

  /**
   * Two tasks share a pending flag only when they are for the same language
   * and their texts hash alike (a language code holds no ':').
   */
  lemma MakeTaskKeyInjective(t1: string, l1: string, t2: string, l2: string, hash: string -> int)
    requires ':' !in l1 && ':' !in l2
    requires MakeTaskKey(t1, l1, hash) == MakeTaskKey(t2, l2, hash)
    ensures l1 == l2 && hash(t1) == hash(t2)
  {
    var prefix := "translation-pending:";
    var d1 := IntToString(hash(t1));
    var d2 := IntToString(hash(t2));
    var rest1 := l1 + [':'] + d1;
    var rest2 := l2 + [':'] + d2;
    assert MakeTaskKey(t1, l1, hash) == prefix + rest1;
    assert MakeTaskKey(t2, l2, hash) == prefix + rest2;
    assert rest1 == (prefix + rest1)[|prefix|..];
    assert rest2 == (prefix + rest2)[|prefix|..];
    assert rest1 == rest2;
    FieldsBeforeColon(l1, d1, l2, d2);
    IntToStringInjective(hash(t1), hash(t2));
  }

  /** A colon-free field before the first ':' is read back unambiguously, and so is what follows. */
  lemma FieldsBeforeColon(l1: string, d1: string, l2: string, d2: string)
    requires ':' !in l1 && ':' !in l2
    requires l1 + [':'] + d1 == l2 + [':'] + d2
    ensures l1 == l2 && d1 == d2
  {
    var rest := l1 + [':'] + d1;
    IndexOfAfterPart(l1, ':', d1);
    IndexOfAfterPart(l2, ':', d2);
    assert l1 == rest[..|l1|] && l2 == rest[..|l2|];
    assert d1 == rest[|l1| + 1..] && d2 == rest[|l2| + 1..];
  }

  /** Whether a pending flag set with `cache.set(key, "1", timeout)` is still there at `now`. */
  predicate FlagLive(flags: map<string, real>, key: string, now: real) {
    key in flags && now <= flags[key]
  }

  /** Right after a flag is set, marking the same task again is refused until the flag expires. */
  lemma SecondMarkIsRefused(flags: map<string, real>, key: string, now: real, later: real)
    requires now <= later <= now + PendingTtl
    ensures FlagLive(flags[key := now + PendingTtl], key, later)
  {
  }

  /** A flag nobody clears lapses after its TTL, and the same text and language can be marked again. */
  lemma FlagLapses(flags: map<string, real>, key: string, now: real, later: real)
    requires later > now + PendingTtl
    ensures !FlagLive(flags[key := now + PendingTtl], key, later)
  {
  }

  /** A field of a `Translation` row: absent is NULL, and NULL and "" are both empty. */
  function Field(rows: map<string, map<string, string>>, sourceText: string, langCode: string): string {
    if sourceText in rows && langCode in rows[sourceText] then rows[sourceText][langCode] else ""
  }

  /** `Translation.objects.get_or_create(source_text=...)`: a new row has every field NULL. */
  function GetOrCreate(rows: map<string, map<string, string>>, sourceText: string): (r: map<string, map<string, string>>)
    ensures sourceText in r && r.Keys == rows.Keys + {sourceText}
    ensures forall t :: t in rows ==> r[t] == rows[t]
    ensures forall t, l :: Field(r, t, l) == Field(rows, t, l)
  {
    if sourceText in rows then rows else rows[sourceText := map[]]
  }

  /** What `get_translate` returns, once the language context is set. */
  function Answer(
    sourceText: string, isReferenceRequest: bool, cached: Option<string>, stored: string,
    openAiEnabled: bool, fast: bool, generated: Option<string>): (r: string)
    ensures r == sourceText
         || (cached.Some? && r == cached.value)
         || r == stored
         || (generated.Some? && r == generated.value)
    ensures r == "" ==> sourceText == ""
  {
    if isReferenceRequest then sourceText
    else if cached.Some? && cached.value != "" then cached.value
    else if stored != "" then stored
    else if openAiEnabled && !fast && generated.Some? && generated.value != "" then generated.value
    else sourceText
  }

  /** A non-empty cached translation is returned whatever the database or the model holds. */
  lemma CacheHitComesFirst(sourceText: string, cached: string, s1: string, s2: string,
                           ai: bool, fast: bool, g1: Option<string>, g2: Option<string>)
    requires cached != ""
    ensures Answer(sourceText, false, Some(cached), s1, ai, fast, g1) == cached
    ensures Answer(sourceText, false, Some(cached), s1, ai, fast, g1)
         == Answer(sourceText, false, Some(cached), s2, ai, fast, g2)
  {
  }

  /** Without a cached or stored translation, only slow mode with a non-empty model answer changes the text. */
  lemma SourceTextFallback(sourceText: string, cached: Option<string>, ai: bool, fast: bool, generated: Option<string>)
    requires cached.None? || cached.value == ""
    ensures Answer(sourceText, false, cached, "", ai, fast, generated) != sourceText ==>
      ai && !fast && generated.Some? && generated.value != ""
    ensures !ai || fast ==> Answer(sourceText, false, cached, "", ai, fast, generated) == sourceText
  {
  }

  /** `get_translate`'s result: the text, or the `RuntimeError` for an unset language context. */
  datatype TranslateResult = Translated(text: string) | NotInitialised

  /** Taking the oldest task off a queue of distinct tasks takes it out of the pending set and nothing else. */
  lemma DequeueMatches<K>(q: seq<K>, p: set<K>)
    requires q != []
    requires forall k :: k in p <==> k in q
    requires forall i, j :: 0 <= i < j < |q| ==> q[i] != q[j]
    ensures forall k :: k in p - {q[0]} <==> k in q[1..]
    ensures forall i, j :: 0 <= i < j < |q[1..]| ==> q[1..][i] != q[1..][j]
  {
    forall k | k in p - {q[0]}
      ensures k in q[1..]
    {
      var i :| 0 <= i < |q| && q[i] == k;
      assert q[1..][i - 1] == k;
    }
    forall k | k in q[1..]
      ensures k in p - {q[0]}
    {
      var i :| 0 <= i < |q[1..]| && q[1..][i] == k;
      assert q[i + 1] == k;
    }
    forall i, j | 0 <= i < j < |q[1..]|
      ensures q[1..][i] != q[1..][j]
    {
      assert q[1..][i] == q[i + 1] && q[1..][j] == q[j + 1];
    }
  }

  class TranslationService {
    /** The module-level in-memory cache (cache.py). */
    const memory: TranslationCache.Cache
    /** The `Translation` table: source text to its language fields. */
    var rows: map<string, map<string, string>>
    /** Pending flags in Django's cache: key to expiry time. */
    var flags: map<string, real>
    /** `_pending_tasks`. */
    var pending: set<TaskKey>
    /** `_task_queue`, oldest first. */
    var queue: seq<TaskKey>
    /** Python's `hash` for strings in this process. */
    const hash: string -> int

    /** Every queued task is pending, every pending task is queued, and no task is queued twice. */
    ghost predicate Valid()
      reads this
    {
      && (forall k :: k in pending <==> k in queue)
      && (forall i, j :: 0 <= i < j < |queue| ==> queue[i] != queue[j])
    }

    constructor (memory: TranslationCache.Cache, hash: string -> int)
      ensures Valid()
      ensures this.memory == memory && this.hash == hash
      ensures rows == map[] && flags == map[] && pending == {} && queue == []
    {
      this.memory := memory;
      this.hash := hash;
      rows := map[];
      flags := map[];
      pending := {};
      queue := [];
    }

    /** `mark_translation_pending`: sets the flag and answers true only when it was not there. */
    method MarkPending(sourceText: string, langCode: string, now: real) returns (marked: bool)
      modifies this
      ensures var key := MakeTaskKey(sourceText, langCode, hash);
        && (marked <==> !FlagLive(old(flags), key, now))
        && flags == (if marked then old(flags)[key := now + PendingTtl] else old(flags))
      ensures rows == old(rows) && pending == old(pending) && queue == old(queue)
    {
      var key := MakeTaskKey(sourceText, langCode, hash);
      if !FlagLive(flags, key, now) {
        flags := flags[key := now + PendingTtl];
        return true;
      }
      return false;
    }

    /** `clear_translation_pending`. */
    method ClearPending(sourceText: string, langCode: string)
      modifies this
      ensures flags == old(flags) - {MakeTaskKey(sourceText, langCode, hash)}
      ensures rows == old(rows) && pending == old(pending) && queue == old(queue)
    {
      flags := flags - {MakeTaskKey(sourceText, langCode, hash)};
    }

    /**
     * `get_translate` for the active language `langCode`. `generated` is what
     * the language model answers in slow mode (None when the call raises).
     */
    method GetTranslate(sourceText: string, isDefaultLang: bool, fast: bool, langCode: string,
                        now: real, openAiEnabled: bool, generated: Option<string>)
      returns (r: TranslateResult)
      requires Valid()
      modifies this, memory
      ensures Valid()
      ensures langCode == "" ==> r == NotInitialised && unchanged(this) && unchanged(memory)
      ensures langCode != "" ==>
        var key := (sourceText, langCode);
        var isRef := langCode == Reference && isDefaultLang;
        var cached := TranslationCache.Lookup(old(memory.entries), key, now);
        var stored := Field(old(rows), sourceText, langCode);
        r == Translated(Answer(sourceText, isRef, cached, stored, openAiEnabled, fast, generated))
      // The reference language: the reference field is filled with the source text when empty.
      ensures langCode != "" && langCode == Reference && isDefaultLang ==>
        && rows == GetOrCreate(old(rows), sourceText)
             [sourceText := if AutoCopyReference && Field(old(rows), sourceText, Reference) == ""
                            then GetOrCreate(old(rows), sourceText)[sourceText][Reference := sourceText]
                            else GetOrCreate(old(rows), sourceText)[sourceText]]
        && memory.entries == old(memory.entries) && queue == old(queue) && pending == old(pending) && flags == old(flags)
      // A cache hit touches nothing else.
      ensures langCode != "" && !(langCode == Reference && isDefaultLang) ==>
        var cached := TranslationCache.Lookup(old(memory.entries), (sourceText, langCode), now);
        cached.Some? && cached.value != "" ==>
          rows == old(rows) && queue == old(queue) && pending == old(pending) && flags == old(flags)
      // A stored translation is copied into the cache.
      ensures langCode != "" && !(langCode == Reference && isDefaultLang) ==>
        var key := (sourceText, langCode);
        var cached := TranslationCache.Lookup(old(memory.entries), key, now);
        var stored := Field(old(rows), sourceText, langCode);
        (cached.None? || cached.value == "") && stored != "" ==>
          && memory.entries == TranslationCache.Stored(TranslationCache.Pruned(old(memory.entries), key, now), key, stored, now)
          && queue == old(queue) && pending == old(pending) && flags == old(flags)
          && rows == GetOrCreate(old(rows), sourceText)
      // Fast mode queues a task only when it is neither pending nor flagged.
      ensures langCode != "" && !(langCode == Reference && isDefaultLang) && openAiEnabled && fast ==>
        var key := (sourceText, langCode);
        var cached := TranslationCache.Lookup(old(memory.entries), key, now);
        (cached.None? || cached.value == "") && Field(old(rows), sourceText, langCode) == "" ==>
          var isNew := key !in old(pending) && !FlagLive(old(flags), MakeTaskKey(sourceText, langCode, hash), now);
          && queue == (if isNew then old(queue) + [key] else old(queue))
          && pending == (if isNew then old(pending) + {key} else old(pending))
          && flags == (if isNew then old(flags)[MakeTaskKey(sourceText, langCode, hash) := now + PendingTtl] else old(flags))
          && rows == GetOrCreate(old(rows), sourceText)
      // Slow mode stores a non-empty answer in the row and the cache, and caches the source text otherwise.
      ensures langCode != "" && !(langCode == Reference && isDefaultLang) && openAiEnabled && !fast ==>
        var key := (sourceText, langCode);
        var cached := TranslationCache.Lookup(old(memory.entries), key, now);
        (cached.None? || cached.value == "") && Field(old(rows), sourceText, langCode) == "" ==>
          var answer := if generated.Some? && generated.value != "" then generated.value else sourceText;
          && memory.entries == TranslationCache.Stored(TranslationCache.Pruned(old(memory.entries), key, now), key, answer, now)
          && Field(rows, sourceText, langCode) == (if generated.Some? then generated.value else "")
          && rows == GetOrCreate(old(rows), sourceText)
               [sourceText := if generated.Some? && generated.value != ""
                              then GetOrCreate(old(rows), sourceText)[sourceText][langCode := generated.value]
                              else GetOrCreate(old(rows), sourceText)[sourceText]]
          && queue == old(queue) && pending == old(pending) && flags == old(flags)
      // Without the language model nothing is queued, flagged or written but the row's creation.
      ensures langCode != "" && !(langCode == Reference && isDefaultLang) && !openAiEnabled ==>
        var cached := TranslationCache.Lookup(old(memory.entries), (sourceText, langCode), now);
        (cached.None? || cached.value == "") ==>
          && rows == GetOrCreate(old(rows), sourceText)
          && queue == old(queue) && pending == old(pending) && flags == old(flags)
    {
      if langCode == "" {
        return NotInitialised;
      }
      if langCode == Reference && isDefaultLang {
        rows := GetOrCreate(rows, sourceText);
        if AutoCopyReference && Field(rows, sourceText, Reference) == "" {
          rows := rows[sourceText := rows[sourceText][Reference := sourceText]];
        }
        return Translated(sourceText);
      }
      var cached := memory.Get(sourceText, langCode, now);
      if cached.Some? && cached.value != "" {
        return Translated(cached.value);
      }
      rows := GetOrCreate(rows, sourceText);
      var value := Field(rows, sourceText, langCode);
      if value != "" {
        memory.Save(sourceText, langCode, value, now);
        return Translated(value);
      }
      if openAiEnabled {
        if fast {
          var key := (sourceText, langCode);
          if key !in pending {
            var marked := MarkPending(sourceText, langCode, now);
            if marked {
              pending := pending + {key};
              queue := queue + [key];
            }
          }
          return Translated(sourceText);
        }
        if generated.Some? && generated.value != "" {
          rows := rows[sourceText := rows[sourceText][langCode := generated.value]];
          memory.Save(sourceText, langCode, generated.value, now);
          return Translated(generated.value);
        }
        memory.Save(sourceText, langCode, sourceText, now);
        if generated.Some? {
          // An empty answer is written nowhere but the cache; the field stays empty.
          assert Field(rows, sourceText, langCode) == "";
        }
      }
      return Translated(sourceText);
    }

    /**
     * One iteration of `_worker_loop`: take the oldest task, fill the field
     * unless it is already filled, and clear its pending state in every case.
     * `generated` is the language model's answer (None when it raises).
     */
    method RunTask(now: real, generated: Option<string>)
      requires Valid()
      requires queue != []
      modifies this, memory
      ensures Valid()
      ensures var (text, lang) := old(queue[0]);
        && queue == old(queue[1..])
        && pending == old(pending) - {(text, lang)}
        && flags == old(flags) - {MakeTaskKey(text, lang, hash)}
      // An already-filled field is never overwritten; an empty one gets a non-empty answer.
      ensures var (text, lang) := old(queue[0]);
        && (Field(old(rows), text, lang) != "" ==> rows == old(rows) && memory.entries == old(memory.entries))
        && (text in old(rows) && Field(old(rows), text, lang) == "" && generated.Some? && generated.value != "" ==>
              rows == old(rows)[text := old(rows)[text][lang := generated.value]]
              && Field(rows, text, lang) == generated.value
              && memory.entries == TranslationCache.Stored(old(memory.entries), (text, lang), generated.value, now))
        && (text in old(rows) && Field(old(rows), text, lang) == "" && generated == Some("") ==>
              rows == old(rows)
              && memory.entries == TranslationCache.Stored(old(memory.entries), (text, lang), text, now))
        && (text !in old(rows) || generated.None? ==> rows == old(rows) && memory.entries == old(memory.entries))
    {
      DequeueMatches(queue, pending);
      var (text, lang) := queue[0];
      queue := queue[1..];
      if text in rows && Field(rows, text, lang) == "" {
        if generated.Some? {
          if generated.value != "" {
            rows := rows[text := rows[text][lang := generated.value]];
            memory.Save(text, lang, generated.value, now);
          } else {
            memory.Save(text, lang, text, now);
          }
        }
      }
      ClearPending(text, lang);
      pending := pending - {(text, lang)};
    }
  }
}
