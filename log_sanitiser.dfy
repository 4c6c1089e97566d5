/**
 * The payload sanitiser of the database log handler
 * (hackaton_itfest_proj/logging.py, `DbLogHandler._sanitize_extra`): it turns
 * the `extra` data of a log record into something a JSON field can store.
 * Dicts and lists are rebuilt with their keys turned into strings; every other
 * value is a leaf, kept when JSON can hold it and written out as text when not.
 *
 * A Python value is given with the outcome of calling `str` on it where the
 * sanitiser does that (None when the call raises): for dict keys and for
 * leaves such as tuples, sets and arbitrary objects. A float is its text.
 */
module LogSanitiser {
  import opened Wrappers

  /** The outcome of `str(k)` on a dict key: the text, or the name of the exception it raised. */
  datatype KeyText = KeyText(text: string) | KeyRaises(excName: string)

  datatype PyValue =
    | PyNone
    | PyBool(b: bool)
    | PyInt(i: int)
    | PyFloat(repr: string)
    | PyStr(s: string)
    | PyList(items: seq<PyValue>)
    | PyDict(entries: seq<DictEntry>)
    /** A class, with its `__name__`. */
    | PyClass(name: string)
    /** Any other callable, with its `__name__` if it has one. */
    | PyCallable(funcName: Option<string>)
    /** Any other value (a tuple, a set, an object): its type name and `str(val)`, None when that raises. */
    | PyOther(typeName: string, text: Option<string>)

  datatype DictEntry = DictEntry(key: KeyText, value: PyValue)

  /** What a JSON field stores; an object keeps its keys in insertion order. */
  datatype Json =
    | JNull
    | JBool(b: bool)
    | JInt(i: int)
    | JFloat(repr: string)
    | JStr(s: string)
    | JList(items: seq<Json>)
    | JObject(members: seq<Member>)

  datatype Member = Member(key: string, value: Json)

  /** `recurse`'s outcome: a value, or the exception that escaped it. */
  datatype Sanitised = Done(json: Json) | Failed(excName: string)

  predicate IsLeaf(v: PyValue) {
    !v.PyList? && !v.PyDict?
  }

  /** `process`: what a leaf becomes. */
  function Process(v: PyValue): (j: Json)
    requires IsLeaf(v)
    ensures !j.JList? && !j.JObject?
  {
    match v
    case PyNone => JNull
    case PyBool(b) => JBool(b)
    case PyInt(i) => JInt(i)
    case PyFloat(r) => JFloat(r)
    case PyStr(s) => JStr(s)
    case PyClass(name) => JStr("<Class: " + name + ">")
    case PyCallable(name) => JStr("<Function: " + name.GetOr("unknown") + ">")
    case PyOther(typeName, text) =>
      if text.Some? then JStr(text.value) else JStr("<Unserialisable: " + typeName + ">")
  }

  // ------------------------------------------------------------ objects as association lists

  function Keys(ms: seq<Member>): (ks: set<string>)
    ensures forall k :: k in ks <==> exists i :: 0 <= i < |ms| && ms[i].key == k
  {
    set i | 0 <= i < |ms| :: ms[i].key
  }

  ghost predicate DistinctKeys(ms: seq<Member>) {
    forall i, j :: 0 <= i < j < |ms| ==> ms[i].key != ms[j].key
  }

  /** `d[k] = j` on a dict: a present key keeps its place and takes the new value; a new key goes last. */
  function Put(ms: seq<Member>, k: string, j: Json): (r: seq<Member>)
    ensures |r| == |ms| || r == ms + [Member(k, j)]
  {
    if ms == [] then [Member(k, j)]
    else if ms[0].key == k then [Member(k, j)] + ms[1..]
    else [ms[0]] + Put(ms[1..], k, j)
  }

  /** The keys after `Put` are the keys before and `k`. */
  lemma {:induction false} PutKeys(ms: seq<Member>, k: string, j: Json)
    ensures Keys(Put(ms, k, j)) == Keys(ms) + {k}
    decreases |ms|
  {
    if ms != [] {
      var tail := ms[1..];
      assert ms == [ms[0]] + tail;
      KeysCons(ms[0], tail);
      if ms[0].key == k {
        assert Put(ms, k, j) == [Member(k, j)] + tail;
        KeysCons(Member(k, j), tail);
      } else {
        assert Put(ms, k, j) == [ms[0]] + Put(tail, k, j);
        PutKeys(tail, k, j);
        KeysCons(ms[0], Put(tail, k, j));
      }
    } else {
      assert Put(ms, k, j) == [Member(k, j)] + ms;
      KeysCons(Member(k, j), ms);
      assert Keys(ms) == {};
    }
  }

  /** The keys of a list with one more member in front. */
  lemma KeysCons(m: Member, rest: seq<Member>)
    ensures Keys([m] + rest) == {m.key} + Keys(rest)
  {
    var ms := [m] + rest;
    forall x | x in Keys(ms) ensures x in {m.key} + Keys(rest) {
      var i :| 0 <= i < |ms| && ms[i].key == x;
      if i > 0 {
        assert rest[i - 1].key == x;
      }
    }
    forall x | x in Keys(rest) ensures x in Keys(ms) {
      var i :| 0 <= i < |rest| && rest[i].key == x;
      assert ms[i + 1].key == x;
    }
    assert ms[0].key == m.key;
  }

  /** A new key goes last. */
  lemma {:induction false} PutAppends(ms: seq<Member>, k: string, j: Json)
    requires k !in Keys(ms)
    ensures Put(ms, k, j) == ms + [Member(k, j)]
    decreases |ms|
  {
    if ms != [] {
      assert ms[0].key in Keys(ms);
      assert forall x :: x in Keys(ms[1..]) ==> x in Keys(ms) by {
        forall x | x in Keys(ms[1..]) ensures x in Keys(ms) {
          var p :| 0 <= p < |ms[1..]| && ms[1..][p].key == x;
          assert ms[p + 1].key == x;
        }
      }
      PutAppends(ms[1..], k, j);
      assert ms == [ms[0]] + ms[1..];
    }
  }

  /** Every member after `Put` is the new one or was there before. */
  lemma {:induction false} PutMembers(ms: seq<Member>, k: string, j: Json)
    ensures forall m :: m in Put(ms, k, j) ==> m == Member(k, j) || m in ms
    decreases |ms|
  {
    if ms != [] && ms[0].key != k {
      PutMembers(ms[1..], k, j);
      assert forall m :: m in ms[1..] ==> m in ms;
    }
  }

  /** `Put` keeps the keys distinct. */
  lemma {:induction false} PutDistinct(ms: seq<Member>, k: string, j: Json)
    requires DistinctKeys(ms)
    ensures DistinctKeys(Put(ms, k, j))
    decreases |ms|
  {
    var r := Put(ms, k, j);
    if ms != [] && ms[0].key != k {
      var tail := ms[1..];
      var rest := Put(tail, k, j);
      assert DistinctKeys(tail);
      PutDistinct(tail, k, j);
      PutKeys(tail, k, j);
      assert ms[0].key !in Keys(tail);
      assert r == [ms[0]] + rest;
      forall a, b | 0 <= a < b < |r| ensures r[a].key != r[b].key {
        if a == 0 {
          assert r[b] == rest[b - 1];
          assert r[b].key in Keys(rest);
        } else {
          assert r[a] == rest[a - 1] && r[b] == rest[b - 1];
        }
      }
    } else if ms != [] {
      var r := Put(ms, k, j);
      assert forall i :: 1 <= i < |ms| ==> r[i] == ms[i];
    }
  }

  /** What `Put` does to the keys and members of an object. */
  lemma PutFacts(ms: seq<Member>, k: string, j: Json)
    ensures Keys(Put(ms, k, j)) == Keys(ms) + {k}
    ensures k !in Keys(ms) ==> Put(ms, k, j) == ms + [Member(k, j)]
    ensures forall m :: m in Put(ms, k, j) ==> m == Member(k, j) || m in ms
    ensures DistinctKeys(ms) ==> DistinctKeys(Put(ms, k, j))
  {
    PutKeys(ms, k, j);
    if k !in Keys(ms) { PutAppends(ms, k, j); }
    PutMembers(ms, k, j);
    if DistinctKeys(ms) { PutDistinct(ms, k, j); }
  }

  /** The value stored under `k`, if any. */
  function Get(ms: seq<Member>, k: string): Option<Json> {
    if ms == [] then None
    else if ms[0].key == k then Some(ms[0].value)
    else Get(ms[1..], k)
  }

  lemma {:induction false} GetPut(ms: seq<Member>, k: string, j: Json, k2: string)
    ensures Get(Put(ms, k, j), k2) == if k2 == k then Some(j) else Get(ms, k2)
    decreases |ms|
  {
    if ms != [] && ms[0].key != k {
      GetPut(ms[1..], k, j, k2);
      assert Put(ms, k, j)[1..] == Put(ms[1..], k, j);
    }
  }

  // ------------------------------------------------------------ recursion

  /** `recurse`. */
  function Recurse(v: PyValue): (r: Sanitised)
    ensures v.PyList? && r.Done? ==> r.json.JList? && |r.json.items| == |v.items|
    ensures v.PyDict? && r.Done? ==> r.json.JObject? && DistinctKeys(r.json.members)
    ensures IsLeaf(v) ==> r == Done(Process(v))
    decreases v, 1
  {
    match v
    case PyList(items) => RecurseItems(v, 0)
    case PyDict(entries) => RecurseEntries(v, 0, [])
    case _ => Done(Process(v))
  }

  /** `[recurse(i) for i in obj]`, from position `i` on. */
  function RecurseItems(v: PyValue, i: nat): (r: Sanitised)
    requires v.PyList? && i <= |v.items|
    ensures r.Done? ==> r.json.JList? && |r.json.items| == |v.items| - i
    decreases v, 0, |v.items| - i
  {
    if i == |v.items| then Done(JList([]))
    else match Recurse(v.items[i])
      case Failed(e) => Failed(e)
      case Done(j) =>
        match RecurseItems(v, i + 1)
        case Failed(e) => Failed(e)
        case Done(rest) => Done(JList([j] + rest.items))
  }

  /** `{str(k): recurse(v) for k, v in obj.items()}`, from entry `i` on, onto the members built so far. */
  function RecurseEntries(v: PyValue, i: nat, acc: seq<Member>): (r: Sanitised)
    requires v.PyDict? && i <= |v.entries|
    ensures r.Done? ==> r.json.JObject?
    ensures r.Done? && DistinctKeys(acc) ==> DistinctKeys(r.json.members)
    decreases v, 0, |v.entries| - i
  {
    if i == |v.entries| then Done(JObject(acc))
    else
      var e := v.entries[i];
      match e.key
      case KeyRaises(name) => Failed(name)
      case KeyText(k) =>
        match Recurse(e.value)
        case Failed(name) => Failed(name)
        case Done(j) =>
          PutFacts(acc, k, j);
          RecurseEntries(v, i + 1, Put(acc, k, j))
  }

  /** `_sanitize_extra`: the rebuilt value, or `{"_error": "sanitize_failed: <exception>"}`. */
  function SanitizeExtra(data: PyValue): (j: Json)
    ensures Recurse(data).Failed? ==>
      j == JObject([Member("_error", JStr("sanitize_failed: " + Recurse(data).excName))])
    ensures Recurse(data).Done? ==> j == Recurse(data).json
  {
    match Recurse(data)
    case Done(j) => j
    case Failed(name) => JObject([Member("_error", JStr("sanitize_failed: " + name))])
  }

  // ------------------------------------------------------------ properties

  /** A list becomes a list of the same length whose elements are the sanitised elements, in order. */
  lemma {:induction false} ListElementwise(v: PyValue, i: nat, k: nat)
    requires v.PyList? && i <= k < |v.items|
    requires RecurseItems(v, i).Done?
    ensures Recurse(v.items[k]).Done?
    ensures RecurseItems(v, i).json.items[k - i] == Recurse(v.items[k]).json
    decreases k - i
  {
    if i < k {
      ListElementwise(v, i + 1, k);
    }
  }

  /** Some dict key anywhere in the value fails to turn into a string. */
  predicate HasFailingKey(v: PyValue)
    decreases v, 1
  {
    match v
    case PyList(items) => ItemsHaveFailingKey(v, 0)
    case PyDict(entries) => EntriesHaveFailingKey(v, 0)
    case _ => false
  }

  predicate ItemsHaveFailingKey(v: PyValue, i: nat)
    requires v.PyList? && i <= |v.items|
    decreases v, 0, |v.items| - i
  {
    i < |v.items| && (HasFailingKey(v.items[i]) || ItemsHaveFailingKey(v, i + 1))
  }

  predicate EntriesHaveFailingKey(v: PyValue, i: nat)
    requires v.PyDict? && i <= |v.entries|
    decreases v, 0, |v.entries| - i
  {
    i < |v.entries|
    && (v.entries[i].key.KeyRaises? || HasFailingKey(v.entries[i].value) || EntriesHaveFailingKey(v, i + 1))
  }

  /** The only thing that makes the sanitiser fail is a key whose `str` raises. */
  lemma {:induction false} FailsIffKeyFails(v: PyValue)
    ensures Recurse(v).Failed? <==> HasFailingKey(v)
    decreases v, 1
  {
    match v
    case PyList(items) => ItemsFailIff(v, 0);
    case PyDict(entries) => EntriesFailIff(v, 0, []);
    case _ =>
  }

  lemma {:induction false} ItemsFailIff(v: PyValue, i: nat)
    requires v.PyList? && i <= |v.items|
    ensures RecurseItems(v, i).Failed? <==> ItemsHaveFailingKey(v, i)
    decreases v, 0, |v.items| - i
  {
    if i < |v.items| {
      FailsIffKeyFails(v.items[i]);
      ItemsFailIff(v, i + 1);
    }
  }

  lemma {:induction false} EntriesFailIff(v: PyValue, i: nat, acc: seq<Member>)
    requires v.PyDict? && i <= |v.entries|
    ensures RecurseEntries(v, i, acc).Failed? <==> EntriesHaveFailingKey(v, i)
    decreases v, 0, |v.entries| - i
  {
    if i < |v.entries| {
      var e := v.entries[i];
      FailsIffKeyFails(e.value);
      if e.key.KeyText? && Recurse(e.value).Done? {
        EntriesFailIff(v, i + 1, Put(acc, e.key.text, Recurse(e.value).json));
      }
    }
  }

  /** The value the last entry with key text `k` at or after position `i` sanitises to, if any. */
  function LastValue(v: PyValue, i: nat, k: string): Option<Sanitised>
    requires v.PyDict? && i <= |v.entries|
    decreases |v.entries| - i
  {
    if i == |v.entries| then None
    else
      var later := LastValue(v, i + 1, k);
      if later.Some? then later
      else if v.entries[i].key == KeyText(k) then Some(Recurse(v.entries[i].value))
      else None
  }

  /**
   * Keys that turn into the same string collide, and the later entry wins:
   * under every key the result holds the value of the last entry with that
   * key's text, and keys no entry has are absent.
   */
  lemma {:induction false} LaterEntryWins(v: PyValue, i: nat, acc: seq<Member>, k: string)
    requires v.PyDict? && i <= |v.entries|
    requires RecurseEntries(v, i, acc).Done?
    ensures var got := Get(RecurseEntries(v, i, acc).json.members, k);
      match LastValue(v, i, k)
      case Some(s) => s.Done? && got == Some(s.json)
      case None => got == Get(acc, k)
    decreases |v.entries| - i
  {
    if i < |v.entries| {
      var e := v.entries[i];
      var j := Recurse(e.value).json;
      LaterEntryWins(v, i + 1, Put(acc, e.key.text, j), k);
      GetPut(acc, e.key.text, j, k);
    }
  }

  // ------------------------------------------------------------ idempotence

  /** A JSON value read back as the Python value it is (`json.loads`). */
  function Embed(j: Json): (v: PyValue)
    ensures j.JList? ==> v.PyList? && |v.items| == |j.items|
    ensures j.JObject? ==> v.PyDict? && |v.entries| == |j.members|
  {
    match j
    case JNull => PyNone
    case JBool(b) => PyBool(b)
    case JInt(i) => PyInt(i)
    case JFloat(r) => PyFloat(r)
    case JStr(s) => PyStr(s)
    case JList(items) => PyList(seq(|items|, k requires 0 <= k < |items| => Embed(items[k])))
    case JObject(ms) =>
      PyDict(seq(|ms|, k requires 0 <= k < |ms| => DictEntry(KeyText(ms[k].key), Embed(ms[k].value))))
  }

  /** Every object in the value has distinct keys. */
  ghost predicate WellFormed(j: Json) {
    match j
    case JList(items) => forall k :: 0 <= k < |items| ==> WellFormed(items[k])
    case JObject(ms) => DistinctKeys(ms) && forall k :: 0 <= k < |ms| ==> WellFormed(ms[k].value)
    case _ => true
  }

  /** Sanitising a well-formed JSON value gives it back unchanged. */
  lemma {:induction false} SanitiseJsonIsIdentity(j: Json)
    requires WellFormed(j)
    ensures Recurse(Embed(j)) == Done(j)
    decreases j, 1
  {
    match j
    case JList(items) => ItemsIdentity(j, 0);
    case JObject(ms) =>
      assert ms[..0] == [];
      EntriesIdentity(j, 0);
    case _ =>
  }

  lemma {:induction false} ItemsIdentity(j: Json, i: nat)
    requires j.JList? && WellFormed(j) && i <= |j.items|
    ensures RecurseItems(Embed(j), i) == Done(JList(j.items[i..]))
    decreases j, 0, |j.items| - i
  {
    if i < |j.items| {
      assert Embed(j).items[i] == Embed(j.items[i]);
      SanitiseJsonIsIdentity(j.items[i]);
      ItemsIdentity(j, i + 1);
      assert j.items[i..] == [j.items[i]] + j.items[i + 1..];
    }
  }

  lemma {:induction false} EntriesIdentity(j: Json, i: nat)
    requires j.JObject? && WellFormed(j) && i <= |j.members|
    ensures RecurseEntries(Embed(j), i, j.members[..i]) == Done(j)
    decreases j, 0, |j.members| - i
  {
    var ms := j.members;
    if i == |ms| {
      assert ms[..i] == ms;
    } else {
      var m := ms[i];
      var v := Embed(j);
      assert v.entries[i] == DictEntry(KeyText(m.key), Embed(m.value));
      assert WellFormed(m.value);
      SanitiseJsonIsIdentity(m.value);
      assert m.key !in Keys(ms[..i]) by {
        forall p | 0 <= p < i ensures ms[..i][p].key != m.key {
          assert ms[..i][p] == ms[p];
        }
      }
      PutAppends(ms[..i], m.key, m.value);
      assert ms[..i] + [m] == ms[..i + 1];
      assert RecurseEntries(v, i, ms[..i]) == RecurseEntries(v, i + 1, ms[..i + 1]);
      EntriesIdentity(j, i + 1);
    }
  }

  /** What the sanitiser produces has distinct keys in every object. */
  lemma {:induction false} OutputWellFormed(v: PyValue)
    requires Recurse(v).Done?
    ensures WellFormed(Recurse(v).json)
    decreases v, 1
  {
    match v
    case PyList(items) =>
      var r := Recurse(v).json;
      forall k | 0 <= k < |r.items|
        ensures WellFormed(r.items[k])
      {
        ListElementwise(v, 0, k);
        OutputWellFormed(items[k]);
      }
    case PyDict(entries) => EntriesWellFormed(v, 0, []);
    case _ =>
  }

  lemma {:induction false} EntriesWellFormed(v: PyValue, i: nat, acc: seq<Member>)
    requires v.PyDict? && i <= |v.entries|
    requires DistinctKeys(acc) && forall k :: 0 <= k < |acc| ==> WellFormed(acc[k].value)
    requires RecurseEntries(v, i, acc).Done?
    ensures WellFormed(RecurseEntries(v, i, acc).json)
    decreases v, 0, |v.entries| - i
  {
    if i < |v.entries| {
      var e := v.entries[i];
      var j := Recurse(e.value).json;
      OutputWellFormed(e.value);
      var next := Put(acc, e.key.text, j);
      PutFacts(acc, e.key.text, j);
      forall k | 0 <= k < |next|
        ensures WellFormed(next[k].value)
      {
        assert next[k] in next;
        if next[k] != Member(e.key.text, j) {
          var p :| 0 <= p < |acc| && acc[p] == next[k];
        }
      }
      EntriesWellFormed(v, i + 1, next);
    }
  }

  /** Sanitising what the sanitiser stored changes nothing. */
  lemma SanitizeIdempotent(data: PyValue)
    ensures SanitizeExtra(Embed(SanitizeExtra(data))) == SanitizeExtra(data)
  {
    var j := SanitizeExtra(data);
    if Recurse(data).Done? {
      OutputWellFormed(data);
    } else {
      assert WellFormed(j);
    }
    SanitiseJsonIsIdentity(j);
  }
}
