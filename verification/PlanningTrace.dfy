/** Planning trace events and the readings both prompt builders take from them
    (internal/api/handlers_planning.go and cmd/chum/ceremony_mode.go). */
module PlanningTrace {
  import opened Options
  import opened Text
  import opened Ordering

  datatype Question = Question(question: string, options: seq<string>, recommendation: string, context: string)

  /** The full text of an event, decoded as a list of questions. */
  datatype Payload = Empty | Malformed | Questions(questions: seq<Question>)

  /** A decoded metadata value; numbers are already truncated to integers. */
  datatype MetaValue = Num(n: int) | Str(s: string) | Flag(b: bool) | Other

  datatype Event = Event(
    cycle: int, eventType: string, stage: string, taskId: string, optionId: string,
    summary: string, payload: Payload, meta: map<string, MetaValue>)

  predicate IsType(e: Event, name: string) {
    TrimSpace(e.eventType) == name
  }

  // ---------------------------------------------------------------- scanning a trace

  /** The last event a test accepts. */
  function Last(es: seq<Event>, test: Event -> bool): Option<Event> {
    if es == [] then None
    else if test(es[|es| - 1]) then Some(es[|es| - 1])
    else Last(es[..|es| - 1], test)
  }

  function CountOf(es: seq<Event>, test: Event -> bool): nat {
    if es == [] then 0
    else CountOf(es[..|es| - 1], test) + if test(es[|es| - 1]) then 1 else 0
  }

  function LatestCycle(es: seq<Event>): int {
    if es == [] then 0
    else
      var before, c := LatestCycle(es[..|es| - 1]), es[|es| - 1].cycle;
      if c > before then c else before
  }

  predicate IsTypeIn(e: Event, cycle: int, name: string) {
    e.cycle == cycle && IsType(e, name)
  }

  predicate HasType(es: seq<Event>, cycle: int, name: string) {
    Last(es, e => IsTypeIn(e, cycle, name)).Some?
  }

  /** The event concerns the selected item; with nothing selected every event does. */
  predicate Concerns(e: Event, selected: string) {
    selected == "" || TrimSpace(e.taskId) == selected || TrimSpace(e.optionId) == selected
  }

  predicate IsSelection(e: Event, cycle: int) {
    e.cycle == cycle && IsType(e, "item_selected")
  }

  predicate IsQuestions(e: Event, cycle: int, selected: string) {
    e.cycle == cycle && IsType(e, "questions_result") && Concerns(e, selected) && !e.payload.Empty?
  }

  predicate IsAnswer(e: Event, cycle: int, selected: string) {
    e.cycle == cycle && IsType(e, "answer_recorded") && Concerns(e, selected)
  }

  predicate IsSummary(e: Event, cycle: int, selected: string) {
    e.cycle == cycle && Concerns(e, selected)
    && (IsType(e, "plan_summary_result") || (TrimSpace(e.stage) == "summarize_plan" && IsType(e, "tool_result")))
  }

  predicate IsSummaryText(e: Event, cycle: int, selected: string) {
    e.cycle == cycle && Concerns(e, selected) && IsType(e, "plan_summary_result") && TrimSpace(e.summary) != ""
  }

  /** An event's own identifier: the option if it has one, else the task. */
  function OwnId(e: Event): string {
    var id := TrimSpace(e.optionId);
    if id == "" then TrimSpace(e.taskId) else id
  }

  function SelectedId(es: seq<Event>, cycle: int): string {
    match Last(es, e => IsSelection(e, cycle))
    case None => ""
    case Some(e) => OwnId(e)
  }

  /** The selected item's title as the API shows it. */
  function ApiTitle(es: seq<Event>, cycle: int): string {
    match Last(es, e => IsSelection(e, cycle))
    case None => ""
    case Some(e) => if TrimSpace(e.summary) == "" then TrimSpace(e.taskId) else TrimSpace(e.summary)
  }

  /** The same as the ceremony shows it. */
  function CliTitle(es: seq<Event>, cycle: int): string {
    match Last(es, e => IsSelection(e, cycle))
    case None => ""
    case Some(e) => if TrimSpace(e.summary) == "" then OwnId(e) else TrimSpace(e.summary)
  }

  function LatestQuestions(es: seq<Event>, cycle: int, selected: string): seq<Question> {
    match Last(es, e => IsQuestions(e, cycle, selected))
    case None => []
    case Some(e) => if e.payload.Questions? then e.payload.questions else []
  }

  function Answers(es: seq<Event>, cycle: int, selected: string): nat {
    CountOf(es, e => IsAnswer(e, cycle, selected))
  }

  predicate HasSummary(es: seq<Event>, cycle: int, selected: string) {
    Last(es, e => IsSummary(e, cycle, selected)).Some?
  }

  function SummaryPrompt(es: seq<Event>, cycle: int, selected: string): string {
    match Last(es, e => IsSummaryText(e, cycle, selected))
    case None => "Greenlight this plan now, or realign for another planning cycle."
    case Some(e) => "Greenlight this plan: " + TrimSpace(e.summary)
  }

  /** Whether the last event of a prefix is accepted decides what the prefix adds. */
  lemma LastStep(es: seq<Event>, i: nat, test: Event -> bool)
    requires i < |es|
    ensures Last(es[..i + 1], test) == if test(es[i]) then Some(es[i]) else Last(es[..i], test)
    ensures CountOf(es[..i + 1], test) == CountOf(es[..i], test) + if test(es[i]) then 1 else 0
  {
    assert es[..i + 1][..i] == es[..i];
  }

  lemma CycleStep(es: seq<Event>, i: nat)
    requires i < |es|
    ensures LatestCycle(es[..i + 1]) == if es[i].cycle > LatestCycle(es[..i]) then es[i].cycle
        else LatestCycle(es[..i])
  {
    assert es[..i + 1][..i] == es[..i];
  }

  // ---------------------------------------------------------------- metadata and summaries

  function Digits(s: string): Option<nat> {
    if s == "" then Some(0)
    else
      var last := s[|s| - 1];
      match Digits(s[..|s| - 1])
      case None => None
      case Some(n) => if '0' <= last <= '9' then Some(10 * n + (last - '0') as nat) else None
  }

  /** `strconv.Atoi` on text within range. */
  function Atoi(s: string): Option<int> {
    var signed := s != "" && (s[0] == '+' || s[0] == '-');
    var body := if signed then s[1..] else s;
    if body == "" then None
    else match Digits(body)
         case None => None
         case Some(n) => Some(if signed && s[0] == '-' then 0 - n else n)
  }

  function MetaInt(meta: map<string, MetaValue>, key: string): int {
    if key !in meta then 0
    else match meta[key]
         case Num(n) => n
         case Str(s) => if Atoi(TrimSpace(s)).Some? then Atoi(TrimSpace(s)).value else 0
         case _ => 0
  }

  predicate MetaBool(meta: map<string, MetaValue>, key: string) {
    key in meta && (meta[key] == Flag(true) || (meta[key].Str? && EqualFold(TrimSpace(meta[key].s), "true")))
  }

  function LastIndex(s: string, needle: string): int {
    if |s| < |needle| then -1
    else if s[|s| - |needle|..] == needle then |s| - |needle|
    else if s == "" then -1
    else LastIndex(s[..|s| - 1], needle)
  }

  /** "#3 Title" and "Title (rank 3)" both name "Title". */
  function TitleFrom(raw: string): string {
    var summary := TrimSpace(raw);
    var space, rank := IndexOf(summary, ' '), LastIndex(summary, "(rank ");
    if summary == "" then ""
    else if summary[0] == '#' && space < |summary| then TrimSpace(summary[space + 1..])
    else if 0 < rank <= |summary| then TrimSpace(summary[..rank])
    else summary
  }

  function RankFrom(raw: string): int {
    var summary := TrimSpace(raw);
    if summary == "" || summary[0] != '#' then 0
    else
      var rest := summary[1..];
      var n := Atoi(TrimSpace(rest[..IndexOf(rest, ' ')]));
      if n.Some? then n.value else 0
  }

  lemma {:induction false} DigitsOfDecimal(n: nat)
    ensures Decimal(n) != "" && Digits(Decimal(n)) == Some(n)
    ensures forall c :: c in Decimal(n) ==> '0' <= c <= '9'
  {
    var d := Decimal(n);
    assert forall i :: 0 <= i < 10 ==> DIGITS[i] == '0' + i as char;
    if n < 10 {
      assert d[..0] == "";
    } else {
      DigitsOfDecimal(n / 10);
      assert d[..|d| - 1] == Decimal(n / 10);
    }
  }

  lemma AtoiDigits(d: string)
    requires d != "" && forall c :: c in d ==> '0' <= c <= '9'
    ensures TrimSpace(d) == d && ' ' !in d && Atoi(d) == (match Digits(d) case None => None case Some(n) => Some(n))
  {
    assert d[0] in d && d[|d| - 1] in d;
    TrimSpaceFacts(d);
  }

  lemma RankPart(d: string, title: string)
    requires TrimSpace(d) == d && ' ' !in d && title != "" && Trimmed(title)
    ensures RankFrom("#" + d + " " + title) == if Atoi(d).Some? then Atoi(d).value else 0
  {
    var summary := "#" + d + " " + title;
    TrimSpaceFacts(summary);
    var rest := summary[1..];
    assert rest == d + (" " + title);
    IndexOfAppend(d, ' ', " " + title);
    assert rest[..IndexOf(rest, ' ')] == d;
  }

  lemma TitlePart(d: string, title: string)
    requires ' ' !in d && title != "" && Trimmed(title)
    ensures TitleFrom("#" + d + " " + title) == title
  {
    var summary := "#" + d + " " + title;
    TrimSpaceFacts(summary);
    TrimSpaceFacts(title);
    assert summary == ("#" + d) + (" " + title);
    IndexOfAppend("#" + d, ' ', " " + title);
    assert summary[|d| + 2..] == title;
  }

  /** Reading "#n title" gives back the rank and the title. */
  lemma RankRoundTrip(n: nat, title: string)
    requires title != "" && Trimmed(title)
    ensures RankFrom("#" + Decimal(n) + " " + title) == n && TitleFrom("#" + Decimal(n) + " " + title) == title
  {
    DigitsOfDecimal(n);
    AtoiDigits(Decimal(n));
    RankPart(Decimal(n), title);
    TitlePart(Decimal(n), title);
  }

  // ---------------------------------------------------------------- candidates

  datatype Candidate = Candidate(id: string, title: string, rank: int, shortlisted: bool, recommended: bool)

  predicate IsCandidate(e: Event, cycle: int) {
    && e.cycle == cycle
    && (IsType(e, "candidate_ranked") || IsType(e, "candidate_pruned") || IsType(e, "candidate_with_implications"))
    && OwnId(e) != ""
  }

  function Merge(c: Candidate, e: Event): Candidate {
    var title := TitleFrom(e.summary);
    var metaRank := MetaInt(e.meta, "rank");
    var rank := if metaRank > 0 then metaRank else c.rank;
    Candidate(
      OwnId(e),
      if title != "" then title else c.title,
      if rank <= 0 then RankFrom(e.summary) else rank,
      c.shortlisted || MetaBool(e.meta, "shortlisted") || IsType(e, "candidate_ranked"),
      c.recommended || MetaBool(e.meta, "recommended"))
  }

  type Accumulated = map<string, Candidate>

  function At(acc: Accumulated, id: string): Candidate {
    if id in acc then acc[id] else Candidate("", "", 0, false, false)
  }

  function Accumulate(es: seq<Event>, cycle: int): Accumulated {
    if es == [] then map[]
    else
      var acc, e := Accumulate(es[..|es| - 1], cycle), es[|es| - 1];
      if IsCandidate(e, cycle) then acc[OwnId(e) := Merge(At(acc, OwnId(e)), e)] else acc
  }

  lemma {:induction false} AccumulateKeyed(es: seq<Event>, cycle: int)
    ensures forall id :: id in Accumulate(es, cycle) ==> Accumulate(es, cycle)[id].id == id
  {
    if es != [] { AccumulateKeyed(es[..|es| - 1], cycle); }
  }

  lemma AccumulateStep(es: seq<Event>, i: nat, cycle: int)
    requires i < |es|
    ensures
      var acc := Accumulate(es[..i], cycle);
      Accumulate(es[..i + 1], cycle)
      == if IsCandidate(es[i], cycle) then acc[OwnId(es[i]) := Merge(At(acc, OwnId(es[i])), es[i])] else acc
  {
    assert es[..i + 1][..i] == es[..i];
  }

  function Titled(c: Candidate): Candidate {
    if TrimSpace(c.title) == "" then c.(title := c.id) else c
  }

  function Listed(acc: Accumulated, ids: seq<string>): (r: seq<Candidate>)
    requires forall id :: id in ids ==> id in acc
    ensures |r| == |ids|
    ensures forall i :: 0 <= i < |ids| ==> r[i] == Titled(acc[ids[i]])
  {
    seq(|ids|, i requires 0 <= i < |ids| => Titled(acc[ids[i]]))
  }

  /** Ranked candidates by rank, unranked ones last, ties by identifier. */
  predicate CandidateLess(a: Candidate, b: Candidate) {
    if a.rank != b.rank then a.rank != 0 && (b.rank == 0 || a.rank < b.rank)
    else StrLess(a.id, b.id)
  }

  lemma CandidateWeakOrder()
    ensures WeakOrder(CandidateLess)
  {
    forall a: Candidate, b: Candidate | CandidateLess(a, b) ensures !CandidateLess(b, a) {
      StrLessWeak(a.id, b.id, b.id);
    }
    forall a: Candidate, b: Candidate, c: Candidate | CandidateLess(a, c)
      ensures CandidateLess(a, b) || CandidateLess(b, c)
    {
      StrLessWeak(a.id, b.id, c.id);
    }
  }

  /** The candidates in the order of the comparison. */
  ghost predicate IsCandidateList(acc: Accumulated, r: seq<Candidate>) {
    && Sorted(CandidateLess, r) && Distinct(r)
    && forall c :: c in r <==> c.id in acc && c == Titled(acc[c.id])
  }

  /** There is only one such order, so the iteration order of the map cannot show. */
  lemma CandidateOrderUnique(acc: Accumulated, r: seq<Candidate>, r': seq<Candidate>)
    requires IsCandidateList(acc, r) && IsCandidateList(acc, r')
    ensures r == r'
  {
    CandidateWeakOrder();
    DistinctSameElements(r, r');
    forall a, b | a in r && b in r && a != b ensures CandidateLess(a, b) || CandidateLess(b, a) {
      StrLessTotal(a.id, b.id);
    }
    SortedUnique(CandidateLess, r, r');
  }

  lemma CandidateListExists(acc: Accumulated, ids: seq<string>)
    requires forall id :: id in acc ==> acc[id].id == id
    requires Distinct(ids) && forall id :: id in ids <==> id in acc
    ensures IsCandidateList(acc, Sort(CandidateLess, Listed(acc, ids)))
  {
    var list := Listed(acc, ids);
    CandidateWeakOrder();
    SortSorted(CandidateLess, list);
    ListedExact(acc, ids);
    PermutationDistinct(list, Sort(CandidateLess, list));
  }

  lemma ListedExact(acc: Accumulated, ids: seq<string>)
    requires forall id :: id in acc ==> acc[id].id == id
    requires Distinct(ids) && forall id :: id in ids <==> id in acc
    ensures Distinct(Listed(acc, ids))
    ensures forall c :: c in Listed(acc, ids) <==> c.id in acc && c == Titled(acc[c.id])
  {
    var list := Listed(acc, ids);
    forall i | 0 <= i < |list| ensures list[i].id == ids[i] { assert ids[i] in acc; }
    forall c | c in list ensures c.id in acc && c == Titled(acc[c.id]) {
      var i :| 0 <= i < |list| && list[i] == c;
      assert ids[i] in ids;
    }
    forall c: Candidate | c.id in acc && c == Titled(acc[c.id]) ensures c in list {
      var i :| 0 <= i < |ids| && ids[i] == c.id;
      assert list[i] == c;
    }
  }

  predicate AnyShortlisted(cs: seq<Candidate>) {
    exists i :: 0 <= i < |cs| && cs[i].shortlisted
  }

  function OptionText(c: Candidate): string {
    var shown := if c.rank > 0 then "#" + Decimal(c.rank) + " " + c.title else c.title;
    c.id + " (" + shown + ")" + if c.recommended then " [recommended]" else ""
  }

  /** The shortlisted candidates, or all of them when none is. */
  function Offered(cs: seq<Candidate>, all: bool): seq<string> {
    if cs == [] then []
    else Offered(cs[..|cs| - 1], all) + if all || cs[|cs| - 1].shortlisted then [OptionText(cs[|cs| - 1])] else []
  }

  function FormatOptions(cs: seq<Candidate>): seq<string> {
    Offered(cs, !AnyShortlisted(cs))
  }

  /** Some option is always offered, so the fallback listing behind the loop is never used. */
  lemma {:induction false} OffersSomething(cs: seq<Candidate>, all: bool)
    requires cs != [] && (all || AnyShortlisted(cs))
    ensures Offered(cs, all) != []
  {
    var n := |cs| - 1;
    if !all && !cs[n].shortlisted {
      var i :| 0 <= i < |cs| && cs[i].shortlisted;
      assert cs[..n][i].shortlisted;
      OffersSomething(cs[..n], all);
    }
  }
}
