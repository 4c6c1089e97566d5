/**
 * The summary the response auditor logs when it flushes its event buffer
 * (`_flush_summary` in apps/common/middleware/exception_response_auditor.py).
 *
 * Events are grouped by slug and, inside each slug, by masked IP; separately,
 * they are deduplicated by (ip, slug, status, method, user agent, referer)
 * with a hit count, first and last timestamp and the set of paths seen.
 * Python dictionaries keep insertion order, so a grouping is a list of groups
 * in order of first occurrence.
 */
module AuditSummary {
  import opened Wrappers
  import opened Strings

  /** The logging context of one failed response or auto-answer (`_ctx` plus slug and timestamp). */
  datatype Event = Event(
    slug: string,
    ip: string,
    status: int,
    httpMethod: string,
    userAgent: string,
    referer: string,
    path: string,
    timestamp: int)

  function SlugOf(e: Event): string { e.slug }
  function IpOf(e: Event): string { e.ip }

  // ------------------------------------------------------------ sums

  function Sum(s: seq<int>): int {
    if s == [] then 0 else Sum(s[..|s| - 1]) + s[|s| - 1]
  }

  lemma SumAppend(s: seq<int>, x: int)
    ensures Sum(s + [x]) == Sum(s) + x
  {
    assert (s + [x])[..|s|] == s;
  }

  lemma {:induction false} SumUpdate(s: seq<int>, i: nat, v: int)
    requires i < |s|
    ensures Sum(s[i := v]) == Sum(s) - s[i] + v
    decreases |s|
  {
    var t := s[i := v];
    if i < |s| - 1 {
      assert t[..|t| - 1] == s[..|s| - 1][i := v];
      SumUpdate(s[..|s| - 1], i, v);
    } else {
      assert t[..|t| - 1] == s[..|s| - 1];
    }
  }

  // ------------------------------------------------------------ grouping (`setdefault(k, []).append(e)`)

  datatype Group = Group(key: string, members: seq<Event>)

  /** The position of the first item whose key is k, or |s| when there is none (a dict lookup). */
  function FindKey<T, K(==)>(s: seq<T>, keyOf: T -> K, k: K): (i: nat)
    ensures i <= |s|
    ensures i < |s| ==> keyOf(s[i]) == k
    ensures forall j :: 0 <= j < i ==> keyOf(s[j]) != k
  {
    if s == [] then 0 else if keyOf(s[0]) == k then 0 else 1 + FindKey(s[1..], keyOf, k)
  }

  function GroupKey(g: Group): string { g.key }

  /** `groups.setdefault(k, []).append(e)`. */
  function AddToGroup(groups: seq<Group>, k: string, e: Event): seq<Group> {
    var i := FindKey(groups, GroupKey, k);
    if i == |groups| then groups + [Group(k, [e])]
    else groups[i := Group(k, groups[i].members + [e])]
  }

  /** The dictionary built by a loop of `setdefault(key(e), []).append(e)` over the events. */
  function GroupBy(events: seq<Event>, key: Event -> string): seq<Group> {
    if events == [] then []
    else
      var last := events[|events| - 1];
      AddToGroup(GroupBy(events[..|events| - 1], key), key(last), last)
  }

  function Sizes(groups: seq<Group>): (s: seq<int>)
    ensures |s| == |groups|
  {
    seq(|groups|, k requires 0 <= k < |groups| => |groups[k].members|)
  }

  /** Keys are distinct, no group is empty, and every member carries its group's key. */
  ghost predicate WellGrouped(groups: seq<Group>, key: Event -> string) {
    && (forall i, j :: 0 <= i < j < |groups| ==> groups[i].key != groups[j].key)
    && (forall i :: 0 <= i < |groups| ==> |groups[i].members| >= 1)
    && (forall i, m :: 0 <= i < |groups| && 0 <= m < |groups[i].members| ==>
          key(groups[i].members[m]) == groups[i].key)
  }

  lemma AddToGroupFacts(groups: seq<Group>, e: Event, key: Event -> string)
    requires WellGrouped(groups, key)
    ensures WellGrouped(AddToGroup(groups, key(e), e), key)
    ensures Sum(Sizes(AddToGroup(groups, key(e), e))) == Sum(Sizes(groups)) + 1
    ensures |AddToGroup(groups, key(e), e)| >= |groups|
  {
    var k := key(e);
    var i := FindKey(groups, GroupKey, k);
    var r := AddToGroup(groups, k, e);
    if i == |groups| {
      assert forall j :: 0 <= j < |groups| ==> GroupKey(groups[j]) != k;
      assert Sizes(r) == Sizes(groups) + [1];
      SumAppend(Sizes(groups), 1);
    } else {
      assert GroupKey(groups[i]) == k;
      assert Sizes(r) == Sizes(groups)[i := |groups[i].members| + 1];
      SumUpdate(Sizes(groups), i, |groups[i].members| + 1);
      forall j, m | 0 <= j < |r| && 0 <= m < |r[j].members|
        ensures key(r[j].members[m]) == r[j].key
      {
        if j == i && m == |groups[i].members| {
          assert r[j].members[m] == e;
        } else if j == i {
          assert r[j].members[m] == groups[i].members[m];
        }
      }
    }
  }

  /**
   * The groups of a grouping partition the events: group sizes add up to the number of
   * events, keys are distinct, no group is empty, and every member has its group's key.
   */
  lemma {:induction false} GroupByPartitions(events: seq<Event>, key: Event -> string)
    ensures WellGrouped(GroupBy(events, key), key)
    ensures Sum(Sizes(GroupBy(events, key))) == |events|
    ensures events != [] ==> |GroupBy(events, key)| >= 1
    decreases |events|
  {
    if events != [] {
      var init := events[..|events| - 1];
      GroupByPartitions(init, key);
      AddToGroupFacts(GroupBy(init, key), events[|events| - 1], key);
    }
  }

  /** The loop of `_flush_summary` that fills a grouping dictionary. */
  method GroupEvents(events: seq<Event>, key: Event -> string) returns (groups: seq<Group>)
    ensures groups == GroupBy(events, key)
  {
    groups := [];
    for i := 0 to |events|
      invariant groups == GroupBy(events[..i], key)
    {
      assert events[..i + 1][..i] == events[..i];
      groups := AddToGroup(groups, key(events[i]), events[i]);
    }
    assert events[..|events|] == events;
  }

  // ------------------------------------------------------------ deduplication

  datatype DedupKey = DedupKey(ip: string, slug: string, status: int, httpMethod: string,
                               userAgent: string, referer: string)

  datatype DedupEntry = DedupEntry(key: DedupKey, hits: nat, firstSeen: int, lastSeen: int,
                                   paths: set<string>)

  function KeyOf(e: Event): DedupKey {
    DedupKey(e.ip, e.slug, e.status, e.httpMethod, e.userAgent, e.referer)
  }

  function EntryKey(d: DedupEntry): DedupKey { d.key }

  /** One iteration of the dedup loop: a new key starts an entry, a known key counts one more hit. */
  function DedupStep(entries: seq<DedupEntry>, e: Event): seq<DedupEntry> {
    var i := FindKey(entries, EntryKey, KeyOf(e));
    if i == |entries| then entries + [DedupEntry(KeyOf(e), 1, e.timestamp, e.timestamp, {e.path})]
    else entries[i := entries[i].(hits := entries[i].hits + 1, lastSeen := e.timestamp,
                                  paths := entries[i].paths + {e.path})]
  }

  function Dedup(events: seq<Event>): seq<DedupEntry> {
    if events == [] then [] else DedupStep(Dedup(events[..|events| - 1]), events[|events| - 1])
  }

  function Hits(entries: seq<DedupEntry>): (s: seq<int>)
    ensures |s| == |entries|
  {
    seq(|entries|, k requires 0 <= k < |entries| => entries[k].hits)
  }

  ghost predicate DistinctKeys(entries: seq<DedupEntry>) {
    forall i, j :: 0 <= i < j < |entries| ==> entries[i].key != entries[j].key
  }

  /** The number of events with a given dedup key. */
  function CountKey(events: seq<Event>, k: DedupKey): nat {
    if events == [] then 0
    else CountKey(events[..|events| - 1], k) + (if KeyOf(events[|events| - 1]) == k then 1 else 0)
  }

  lemma DedupStepFacts(d: seq<DedupEntry>, e: Event)
    requires DistinctKeys(d)
    ensures var r := DedupStep(d, e);
      && DistinctKeys(r)
      && Sum(Hits(r)) == Sum(Hits(d)) + 1
      && |r| >= |d|
      && (forall i :: 0 <= i < |r| ==> r[i].hits == (if i < |d| then d[i].hits else 0) + (if r[i].key == KeyOf(e) then 1 else 0))
      && (forall i :: 0 <= i < |d| ==> r[i].key == d[i].key)
      && (forall i :: |d| <= i < |r| ==> r[i].key == KeyOf(e))
  {
    var i := FindKey(d, EntryKey, KeyOf(e));
    var r := DedupStep(d, e);
    if i == |d| {
      assert Hits(r) == Hits(d) + [1];
      SumAppend(Hits(d), 1);
    } else {
      assert Hits(r) == Hits(d)[i := d[i].hits + 1];
      SumUpdate(Hits(d), i, d[i].hits + 1);
    }
  }

  /**
   * Deduplication loses no event: keys are distinct, the hits add up to the number of
   * events, each entry's hits are exactly the number of events with its key, and every
   * key that occurs has an entry.
   */
  lemma {:induction false} DedupCounts(events: seq<Event>)
    ensures DistinctKeys(Dedup(events))
    ensures Sum(Hits(Dedup(events))) == |events|
    ensures forall i :: 0 <= i < |Dedup(events)| ==> Dedup(events)[i].hits == CountKey(events, Dedup(events)[i].key)
    ensures forall k :: CountKey(events, k) > 0 ==> FindKey(Dedup(events), EntryKey, k) < |Dedup(events)|
    decreases |events|
  {
    if events != [] {
      var init := events[..|events| - 1];
      var e := events[|events| - 1];
      DedupCounts(init);
      var d := Dedup(init);
      DedupStepFacts(d, e);
      var r := Dedup(events);
      assert r == DedupStep(d, e);
      forall i | 0 <= i < |r| ensures r[i].hits == CountKey(events, r[i].key) {
        if i >= |d| {
          assert FindKey(d, EntryKey, KeyOf(e)) == |d|;
          assert CountKey(init, KeyOf(e)) == 0;
        }
      }
      forall k | CountKey(events, k) > 0 ensures FindKey(r, EntryKey, k) < |r| {
        if k != KeyOf(e) {
          var j := FindKey(d, EntryKey, k);
          assert r[j].key == k;
        } else {
          var j := FindKey(d, EntryKey, k);
          if j == |d| {
            assert r[|d|].key == k;
          } else {
            assert r[j].key == k;
          }
        }
      }
    }
  }

  /** The dedup loop of `_flush_summary`. */
  method DedupEvents(events: seq<Event>) returns (entries: seq<DedupEntry>)
    ensures entries == Dedup(events)
  {
    entries := [];
    for i := 0 to |events|
      invariant entries == Dedup(events[..i])
    {
      assert events[..i + 1][..i] == events[..i];
      ghost var before := entries;
      var e := events[i];
      var key := KeyOf(e);
      var j := FindKey(entries, EntryKey, key);
      if j == |entries| {
        entries := entries + [DedupEntry(key, 0, e.timestamp, e.timestamp, {})];
      }
      entries := entries[j := entries[j].(hits := entries[j].hits + 1, lastSeen := e.timestamp,
                                          paths := entries[j].paths + {e.path})];
      assert entries == DedupStep(before, e) by {
        if j == |before| {
          assert {} + {e.path} == {e.path};
        }
      }
    }
    assert events[..|events|] == events;
  }

  // ------------------------------------------------------------ the report

  /** One `ip=... → n` line: the IP, how many events, the status of the first of them. */
  datatype IpLine = IpLine(ip: string, count: nat, status: int)

  /** One ` - slug: n` block and its per-IP lines. */
  datatype SlugBlock = SlugBlock(slug: string, count: nat, autoAnswer: bool, ips: seq<IpLine>)

  /** What a flush logs: the counts of the text lines and the deduplicated request list. */
  datatype Report = Report(total: nat, firstTs: int, lastTs: int, blocks: seq<SlugBlock>,
                           requests: seq<DedupEntry>)

  function IpLines(byIp: seq<Group>): (lines: seq<IpLine>)
    ensures |lines| == |byIp|
  {
    seq(|byIp|, k requires 0 <= k < |byIp| =>
      IpLine(byIp[k].key, |byIp[k].members|,
             if byIp[k].members == [] then 0 else byIp[k].members[0].status))
  }

  function Block(g: Group): SlugBlock {
    SlugBlock(g.key, |g.members|, StartsWith(g.key, "auto_answer_"), IpLines(GroupBy(g.members, IpOf)))
  }

  /** The summary of a buffer; None when the buffer is empty and nothing is logged. */
  function Summarise(events: seq<Event>): (r: Option<Report>)
    ensures r.None? <==> events == []
    ensures r.Some? ==> r.value.total == |events| && |r.value.blocks| == |GroupBy(events, SlugOf)|
  {
    if events == [] then None
    else
      var grouped := GroupBy(events, SlugOf);
      Some(Report(|events|, events[0].timestamp, events[|events| - 1].timestamp,
                  seq(|grouped|, k requires 0 <= k < |grouped| => Block(grouped[k])),
                  Dedup(events)))
  }

  function BlockCounts(blocks: seq<SlugBlock>): (s: seq<int>)
    ensures |s| == |blocks|
  {
    seq(|blocks|, k requires 0 <= k < |blocks| => blocks[k].count)
  }

  // Kept apart from `BlockCounts`: one generic version over both record types makes
  // `SummaryCountsAddUp` too costly to verify.
  function LineCounts(lines: seq<IpLine>): (s: seq<int>)
    ensures |s| == |lines|
  {
    seq(|lines|, k requires 0 <= k < |lines| => lines[k].count)
  }

  /**
   * The counts in a summary add up: the per-slug counts sum to the total, the per-IP
   * counts of every slug sum to that slug's count, and so do the dedup hits.
   */
  lemma SummaryCountsAddUp(events: seq<Event>)
    requires events != []
    ensures var r := Summarise(events).value;
      && Sum(BlockCounts(r.blocks)) == r.total
      && Sum(Hits(r.requests)) == r.total
      && forall b :: 0 <= b < |r.blocks| ==> Sum(LineCounts(r.blocks[b].ips)) == r.blocks[b].count
  {
    var r := Summarise(events).value;
    var grouped := GroupBy(events, SlugOf);
    GroupByPartitions(events, SlugOf);
    assert BlockCounts(r.blocks) == Sizes(grouped);
    DedupCounts(events);
    forall b | 0 <= b < |r.blocks| ensures Sum(LineCounts(r.blocks[b].ips)) == r.blocks[b].count {
      var g := grouped[b];
      GroupByPartitions(g.members, IpOf);
      assert LineCounts(r.blocks[b].ips) == Sizes(GroupBy(g.members, IpOf));
    }
  }

  /** No slug gets two blocks in a summary. */
  lemma SummaryBlocksBySlug(events: seq<Event>)
    requires events != []
    ensures var r := Summarise(events).value;
      forall i, j :: 0 <= i < j < |r.blocks| ==> r.blocks[i].slug != r.blocks[j].slug
  {
    GroupByPartitions(events, SlugOf);
  }

  /** `_flush_summary`: None when the buffer is empty, otherwise the logged report. */
  method FlushSummary(events: seq<Event>) returns (report: Option<Report>)
    ensures report == Summarise(events)
  {
    if |events| == 0 {
      return None;
    }
    var grouped := GroupEvents(events, SlugOf);
    var blocks: seq<SlugBlock> := [];
    for j := 0 to |grouped|
      invariant |blocks| == j
      invariant forall k :: 0 <= k < j ==> blocks[k] == Block(grouped[k])
    {
      var byIp := GroupEvents(grouped[j].members, IpOf);
      var slug := grouped[j].key;
      blocks := blocks + [SlugBlock(slug, |grouped[j].members|, StartsWith(slug, "auto_answer_"), IpLines(byIp))];
    }
    var dedup := DedupEvents(events);
    assert blocks == seq(|grouped|, k requires 0 <= k < |grouped| => Block(grouped[k]));
    report := Some(Report(|events|, events[0].timestamp, events[|events| - 1].timestamp, blocks, dedup));
  }
}
