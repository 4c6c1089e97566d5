/**
 * The support bot's local helpers (cross/bot.py): the search for past tickets
 * whose final resolution may answer a new question, the block of text that
 * lists them, and the per-user language choice that decides whether a
 * message is answered at all.
 *
 * The database query is its result, a sequence of tickets in query order;
 * the language model's reply is a parameter (None when the call raises).
 */
module Bot {
  import opened Wrappers
  import opened Strings
  import opened Sorting
  import SupportModels

  type Ticket = SupportModels.Ticket

  /** One found solution: `{"id": ..., "solution": ...}`. */
  datatype Solution = Solution(id: nat, solution: string)

  /** At most this many tickets of the query are scanned. */
  const ScanLimit: nat := 200
  /** At most this many solutions are returned. */
  const ResultLimit: nat := 3
  /** The lowered query must be longer than this to match anything. */
  const MinQueryLength: nat := 5

  /** The query set: tickets whose final resolution is neither NULL nor empty, in query order. */
  function Resolved(tickets: seq<Ticket>): (r: seq<Ticket>)
    ensures |r| <= |tickets|
    ensures forall t :: t in r <==> t in tickets && t.finalResolution.Some? && t.finalResolution.value != ""
  {
    if tickets == [] then []
    else
      var t := tickets[0];
      var rest := Resolved(tickets[1..]);
      assert tickets == [t] + tickets[1..];
      if t.finalResolution.Some? && t.finalResolution.value != "" then [t] + rest else rest
  }

  /** The filter keeps query order: filtering a concatenation filters each part in turn. */
  lemma {:induction false} ResolvedAppend(a: seq<Ticket>, b: seq<Ticket>)
    ensures Resolved(a + b) == Resolved(a) + Resolved(b)
    decreases |a|
  {
    if a != [] {
      assert (a + b)[0] == a[0];
      assert (a + b)[1..] == a[1..] + b;
      ResolvedAppend(a[1..], b);
    } else {
      assert a + b == b;
    }
  }

  /** Whether a ticket matches the lowered query. */
  predicate Matches(text: string, t: Ticket) {
    |text| > MinQueryLength && Contains(Lower(t.description), text)
  }

  /** The matches among the scanned tickets, in scan order. */
  function MatchesIn(scanned: seq<Ticket>, text: string): (r: seq<Solution>)
    ensures |r| <= |scanned|
  {
    if scanned == [] then []
    else
      var init := scanned[..|scanned| - 1];
      var t := scanned[|scanned| - 1];
      MatchesIn(init, text) + (if Matches(text, t) then [Solution(t.id, t.finalResolution.GetOr(""))] else [])
  }

  /** Newer (larger id) first. */
  predicate IdDescending(a: Solution, b: Solution) {
    a.id >= b.id
  }

  lemma IdDescendingIsTotalPreorder()
    ensures TotalPreorder(IdDescending)
  {
  }

  /** The first `n` elements, or all of them when there are fewer. */
  function Take<T>(s: seq<T>, n: nat): (r: seq<T>)
    ensures |r| == if |s| < n then |s| else n
    ensures r == s[..|r|]
  {
    if |s| <= n then s else s[..n]
  }

  /** The tickets the loop looks at: the first 200 of the query set. */
  function Scanned(tickets: seq<Ticket>): seq<Ticket> {
    Take(Resolved(tickets), ScanLimit)
  }

  /** What `find_similar_solutions` returns. */
  function SimilarSolutions(userText: string, tickets: seq<Ticket>): (r: seq<Solution>)
    ensures |r| <= ResultLimit
    ensures userText == "" ==> r == []
  {
    if userText == "" then []
    else Take(Sort(MatchesIn(Scanned(tickets), Lower(userText)), IdDescending), ResultLimit)
  }

  /** `find_similar_solutions`: the loop over the scanned tickets, then the sort and the cut. */
  method FindSimilarSolutions(userText: string, tickets: seq<Ticket>) returns (r: seq<Solution>)
    ensures r == SimilarSolutions(userText, tickets)
  {
    if userText == "" {
      return [];
    }
    var text := Lower(userText);
    var scanned := Scanned(tickets);
    var matches: seq<Solution> := [];
    for i := 0 to |scanned|
      invariant matches == MatchesIn(scanned[..i], text)
    {
      var t := scanned[i];
      assert scanned[..i + 1][..i] == scanned[..i];
      if |text| > MinQueryLength && Contains(Lower(t.description), text) {
        matches := matches + [Solution(t.id, t.finalResolution.GetOr(""))];
      }
    }
    assert scanned[..|scanned|] == scanned;
    var sorted := Sort(matches, IdDescending);
    r := Take(sorted, ResultLimit);
  }

  // ------------------------------------------------------------ properties of the search

  /** Each match is a scanned ticket that matches, with its final resolution as the solution. */
  lemma {:induction false} MatchesInSound(scanned: seq<Ticket>, text: string, s: Solution)
    requires s in MatchesIn(scanned, text)
    ensures exists t :: t in scanned && Matches(text, t) && s == Solution(t.id, t.finalResolution.GetOr(""))
    decreases |scanned|
  {
    var init := scanned[..|scanned| - 1];
    var t := scanned[|scanned| - 1];
    if s in MatchesIn(init, text) {
      MatchesInSound(init, text, s);
      var u :| u in init && Matches(text, u) && s == Solution(u.id, u.finalResolution.GetOr(""));
      assert u in scanned;
    } else {
      assert t in scanned;
    }
  }

  /** Every matching scanned ticket is among the matches. */
  lemma {:induction false} MatchesInComplete(scanned: seq<Ticket>, text: string, t: Ticket)
    requires t in scanned && Matches(text, t)
    ensures Solution(t.id, t.finalResolution.GetOr("")) in MatchesIn(scanned, text)
    decreases |scanned|
  {
    var init := scanned[..|scanned| - 1];
    if t != scanned[|scanned| - 1] {
      assert scanned == init + [scanned[|scanned| - 1]];
      assert t in init;
      MatchesInComplete(init, text, t);
    }
  }

  /** A query of five characters or fewer matches nothing. */
  lemma {:induction false} ShortQueryMatchesNothing(scanned: seq<Ticket>, text: string)
    requires |text| <= MinQueryLength
    ensures MatchesIn(scanned, text) == []
    decreases |scanned|
  {
    if scanned != [] {
      ShortQueryMatchesNothing(scanned[..|scanned| - 1], text);
    }
  }

  /**
   * The answer: at most three solutions, newest first, each from a resolved
   * ticket among the first 200 whose lowered description holds the lowered query.
   */
  lemma SimilarSolutionsSpec(userText: string, tickets: seq<Ticket>)
    ensures var r := SimilarSolutions(userText, tickets);
      && |r| <= ResultLimit
      && (forall i, j :: 0 <= i < j < |r| ==> r[i].id >= r[j].id)
      && (forall s :: s in r ==> exists t :: t in Scanned(tickets) && Matches(Lower(userText), t)
                                   && t.finalResolution.Some? && t.finalResolution.value != ""
                                   && s == Solution(t.id, t.finalResolution.value))
  {
    var r := SimilarSolutions(userText, tickets);
    if userText != "" {
      var text := Lower(userText);
      var matches := MatchesIn(Scanned(tickets), text);
      var sorted := Sort(matches, IdDescending);
      IdDescendingIsTotalPreorder();
      SortSorted(matches, IdDescending);
      assert r == sorted[..|r|];
      forall s | s in r
        ensures exists t :: t in Scanned(tickets) && Matches(text, t)
                 && t.finalResolution.Some? && t.finalResolution.value != ""
                 && s == Solution(t.id, t.finalResolution.value)
      {
        assert s in multiset(sorted);
        assert s in matches;
        MatchesInSound(Scanned(tickets), text, s);
        var t :| t in Scanned(tickets) && Matches(text, t) && s == Solution(t.id, t.finalResolution.GetOr(""));
        assert t in Resolved(tickets);
      }
    }
  }

  /** No scanned match left out of a full answer is newer than the answers kept. */
  lemma NewestAreKept(userText: string, tickets: seq<Ticket>, t: Ticket)
    requires userText != ""
    requires t in Scanned(tickets) && Matches(Lower(userText), t)
    requires Solution(t.id, t.finalResolution.GetOr("")) !in SimilarSolutions(userText, tickets)
    ensures var r := SimilarSolutions(userText, tickets);
      |r| == ResultLimit && forall s :: s in r ==> s.id >= t.id
  {
    var text := Lower(userText);
    var matches := MatchesIn(Scanned(tickets), text);
    var sorted := Sort(matches, IdDescending);
    var r := SimilarSolutions(userText, tickets);
    var m := Solution(t.id, t.finalResolution.GetOr(""));
    MatchesInComplete(Scanned(tickets), text, t);
    assert m in multiset(sorted);
    var k :| 0 <= k < |sorted| && sorted[k] == m;
    IdDescendingIsTotalPreorder();
    SortSorted(matches, IdDescending);
    assert r == sorted[..|r|];
    assert k >= |r|;
    forall s | s in r
      ensures s.id >= t.id
    {
      var i :| 0 <= i < |r| && r[i] == s;
      assert IdDescending(sorted[i], sorted[k]);
    }
  }

  // ------------------------------------------------------------ formatting

  /** The header in Russian, and in Kazakh for any other language. */
  const HeaderRu: string := "\U{1F50E} *Похожие решения от техподдержки:*\n"
  const HeaderKz: string := "\U{1F50E} *Ұқсас шешімдер (ТҚ):*\n"

  function Line(s: Solution): string {
    "• Тикет #" + NatToString(s.id) + ": " + s.solution
  }

  /** One line per solution, in order. */
  function Lines(solutions: seq<Solution>): (lines: seq<string>)
    ensures |lines| == |solutions|
    ensures forall k :: 0 <= k < |solutions| ==> lines[k] == Line(solutions[k])
  {
    seq(|solutions|, i requires 0 <= i < |solutions| => Line(solutions[i]))
  }

  function Header(lang: string): string {
    if lang == "ru" then HeaderRu else HeaderKz
  }

  /** `format_similar_solutions`. */
  function FormatSimilarSolutions(lang: string, solutions: seq<Solution>): (r: string)
    ensures solutions == [] <==> r == ""
  {
    if solutions == [] then ""
    else Header(lang) + Join('\n', Lines(solutions)) + "\n\n"
  }

  /** A non-empty block is the header, a line for every solution, and a blank line (`Lines` keeps their order). */
  lemma FormatLayout(lang: string, solutions: seq<Solution>)
    requires solutions != []
    ensures var r := FormatSimilarSolutions(lang, solutions);
      && StartsWith(r, Header(lang))
      && r[|r| - 2..] == "\n\n"
      && (forall k :: 0 <= k < |solutions| ==> Contains(r, Line(solutions[k])))
  {
    var header := Header(lang);
    var body := Join('\n', Lines(solutions));
    var r := FormatSimilarSolutions(lang, solutions);
    assert r == header + body + "\n\n";
    assert r[..|header|] == header;
    forall k | 0 <= k < |solutions|
      ensures Contains(r, Line(solutions[k]))
    {
      LineInBlock(header, body, Lines(solutions), k);
    }
  }

  /** A part of the joined body occurs in the block that wraps it. */
  lemma LineInBlock(header: string, body: string, lines: seq<string>, k: nat)
    requires k < |lines| && body == Join('\n', lines)
    ensures Contains(header + body + "\n\n", lines[k])
  {
    JoinContainsPart('\n', lines, k);
    var i :| 0 <= i <= |body| - |lines[k]| && OccursAt(body, lines[k], i);
    var r := header + body + "\n\n";
    assert r[|header| + i..|header| + i + |lines[k]|] == body[i..i + |lines[k]|];
    assert OccursAt(r, lines[k], |header| + i);
  }

  /** A single solution is one line between the header and the blank line. */
  lemma FormatOne(lang: string, s: Solution)
    ensures FormatSimilarSolutions(lang, [s]) == Header(lang) + Line(s) + "\n\n"
  {
    assert Lines([s]) == [Line(s)];
  }

  // ------------------------------------------------------------ language choice

  /** 🇰🇿 and 🇷🇺. */
  const FlagKz: string := "\U{1F1F0}\U{1F1FF}"
  const FlagRu: string := "\U{1F1F7}\U{1F1FA}"

  /** A bare flag is left alone by the strip. */
  lemma FlagsAreTrimmed()
    ensures Trim(FlagKz, IsSpace) == FlagKz
    ensures Trim(FlagRu, IsSpace) == FlagRu
  {
    TrimUnchanged(FlagKz, IsSpace);
    TrimUnchanged(FlagRu, IsSpace);
  }

  /** The reply to a plain text message. */
  datatype Reply =
    /** The language was stored ("Тіл сақталды." / "Язык сохранён."). */
    | LanguageSaved(lang: string)
    /** "Choose a language", with the flag keyboard; no model call is made. */
    | ChooseLanguage
    /** The similar-solutions block followed by the model's cleaned reply. */
    | Answered(message: string)
    /** The model call failed: the apology in the user's language. */
    | Unavailable(message: string)

  /** The languages a user can pick, one per flag. */
  const BotLanguages: set<string> := {"kz", "ru"}

  /** The apology text for a picked language (the fallback dict's lookup). */
  function Fallback(lang: string): (text: string)
    requires lang in BotLanguages
    ensures text != []
  {
    if lang == "ru" then "Сервер недоступен. Попробуйте позже."
    else "Сервер қолжетімсіз. Кейінірек қайталап көріңіз."
  }

  /**
   * The reply to a user whose language is known: the similar-solutions block and the
   * model's reply, or the apology when the model call failed.
   */
  function Answer(lang: string, text: string, tickets: seq<Ticket>, modelReply: Option<string>): (r: Reply)
    requires lang in BotLanguages
    ensures r.Answered? <==> modelReply.Some?
    ensures r.Unavailable? <==> modelReply.None?
    ensures r.Answered? ==> r.message == FormatSimilarSolutions(lang, SimilarSolutions(text, tickets)) + modelReply.value
    ensures r.Unavailable? ==> r.message == Fallback(lang)
  {
    if modelReply.Some?
    then Answered(FormatSimilarSolutions(lang, SimilarSolutions(text, tickets)) + modelReply.value)
    else Unavailable(Fallback(lang))
  }

  class BotSessions {
    /** `user_language`: user id to "kz" or "ru". */
    var userLanguage: map<int, string>

    /** Only the two flag languages are ever stored, so the apology lookup never fails. */
    ghost predicate Valid()
      reads this
    {
      forall u :: u in userLanguage ==> userLanguage[u] in BotLanguages
    }

    constructor ()
      ensures Valid() && userLanguage == map[]
    {
      userLanguage := map[];
    }

    /**
     * `handle_text` for the message text `raw` from user `userId`.
     * `tickets` is the ticket query's result and `modelReply` the cleaned
     * reply of the language model, None when the call raises.
     */
    method HandleText(userId: int, raw: string, tickets: seq<Ticket>, modelReply: Option<string>)
      returns (reply: Reply)
      requires Valid()
      modifies this
      ensures Valid()
      ensures var text := Trim(raw, IsSpace);
        && (text == FlagKz ==> reply == LanguageSaved("kz") && userLanguage == old(userLanguage)[userId := "kz"])
        && (text == FlagRu ==> reply == LanguageSaved("ru") && userLanguage == old(userLanguage)[userId := "ru"])
        && (text != FlagKz && text != FlagRu ==> userLanguage == old(userLanguage))
        && (text != FlagKz && text != FlagRu && userId !in old(userLanguage) ==> reply == ChooseLanguage)
        && (text != FlagKz && text != FlagRu && userId in old(userLanguage) ==>
              reply == Answer(old(userLanguage)[userId], text, tickets, modelReply))
    {
      var text := Trim(raw, IsSpace);
      if text == FlagKz {
        userLanguage := userLanguage[userId := "kz"];
        return LanguageSaved("kz");
      }
      if text == FlagRu {
        userLanguage := userLanguage[userId := "ru"];
        return LanguageSaved("ru");
      }
      if userId !in userLanguage {
        return ChooseLanguage;
      }
      var lang := userLanguage[userId];
      var similar := FindSimilarSolutions(text, tickets);
      var block := FormatSimilarSolutions(lang, similar);
      if modelReply.Some? {
        return Answered(block + modelReply.value);
      }
      return Unavailable(Fallback(lang));
    }
  }

  /** A user who has not picked a language is asked to, whatever the text, until a flag arrives. */
  method NewUserIsAskedFirst(raw: string, tickets: seq<Ticket>, modelReply: Option<string>)
    returns (first: Reply, afterFlag: Reply)
    requires Trim(raw, IsSpace) != FlagKz && Trim(raw, IsSpace) != FlagRu
    ensures first == ChooseLanguage
    ensures afterFlag.Answered? || afterFlag.Unavailable?
  {
    var sessions := new BotSessions();
    first := sessions.HandleText(7, raw, tickets, modelReply);
    FlagsAreTrimmed();
    afterFlag := AnsweredAfterFlag(sessions, 7, FlagRu, raw, tickets, modelReply);
  }

  /** Once the user has sent a flag (spaces around it allowed), any other text is answered or gets the apology. */
  method AnsweredAfterFlag(sessions: BotSessions, userId: int, flag: string, raw: string, tickets: seq<Ticket>,
                           modelReply: Option<string>)
    returns (afterFlag: Reply)
    requires sessions.Valid()
    requires Trim(flag, IsSpace) == FlagKz || Trim(flag, IsSpace) == FlagRu
    requires Trim(raw, IsSpace) != FlagKz && Trim(raw, IsSpace) != FlagRu
    modifies sessions
    ensures afterFlag.Answered? <==> modelReply.Some?
    ensures afterFlag.Unavailable? <==> modelReply.None?
  {
    var saved := sessions.HandleText(userId, flag, tickets, modelReply);
    assert userId in sessions.userLanguage;
    afterFlag := sessions.HandleText(userId, raw, tickets, modelReply);
  }
}
