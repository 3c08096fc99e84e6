/** The prompt builder of the command-line ceremony, written independently of the one behind the
    API (cmd/chum/ceremony_mode.go). */
module PlanningCli {
  import opened Text
  import opened Ordering
  import opened PlanningTrace
  import opened PlanningPrompt

  method HasCeremonyEventType(es: seq<Event>, cycle: int, rawType: string) returns (has: bool)
    ensures has == (TrimSpace(rawType) != "" && HasType(es, cycle, TrimSpace(rawType)))
  {
    var name := TrimSpace(rawType);
    if name == "" {
      return false;
    }
    ghost var test := e => IsTypeIn(e, cycle, name);
    var i := |es|;
    assert es[..i] == es;
    while i > 0
      invariant 0 <= i <= |es| && Last(es, test) == Last(es[..i], test)
    {
      i := i - 1;
      LastStep(es, i, test);
      if es[i].cycle != cycle {
        continue;
      }
      if TrimSpace(es[i].eventType) == name {
        return true;
      }
    }
    return false;
  }

  method LatestCeremonySelectedItem(es: seq<Event>, cycle: int) returns (id: string, title: string)
    ensures id == SelectedId(es, cycle) && title == CliTitle(es, cycle)
  {
    ghost var test := e => IsSelection(e, cycle);
    var i := |es|;
    assert es[..i] == es;
    while i > 0
      invariant 0 <= i <= |es| && Last(es, test) == Last(es[..i], test)
    {
      i := i - 1;
      LastStep(es, i, test);
      if es[i].cycle != cycle || TrimSpace(es[i].eventType) != "item_selected" {
        continue;
      }
      id := TrimSpace(es[i].optionId);
      if id == "" {
        id := TrimSpace(es[i].taskId);
      }
      title := TrimSpace(es[i].summary);
      if title == "" {
        title := id;
      }
      return;
    }
    return "", "";
  }

  method LatestCeremonyQuestions(es: seq<Event>, cycle: int, rawSelected: string) returns (questions: seq<Question>)
    ensures questions == LatestQuestions(es, cycle, TrimSpace(rawSelected))
  {
    var selected := TrimSpace(rawSelected);
    ghost var test := e => IsQuestions(e, cycle, selected);
    var i := |es|;
    assert es[..i] == es;
    while i > 0
      invariant 0 <= i <= |es| && Last(es, test) == Last(es[..i], test)
    {
      i := i - 1;
      LastStep(es, i, test);
      if es[i].cycle != cycle || TrimSpace(es[i].eventType) != "questions_result" {
        continue;
      }
      if selected != "" && TrimSpace(es[i].taskId) != selected && TrimSpace(es[i].optionId) != selected {
        continue;
      }
      if es[i].payload.Empty? {
        continue;
      }
      if es[i].payload.Malformed? {
        return [];
      }
      return es[i].payload.questions;
    }
    return [];
  }

  method CountCeremonyAnswers(es: seq<Event>, cycle: int, rawSelected: string) returns (count: nat)
    ensures count == Answers(es, cycle, TrimSpace(rawSelected))
  {
    var selected := TrimSpace(rawSelected);
    ghost var test := e => IsAnswer(e, cycle, selected);
    count := 0;
    for i := 0 to |es|
      invariant count == CountOf(es[..i], test)
    {
      LastStep(es, i, test);
      if es[i].cycle != cycle || TrimSpace(es[i].eventType) != "answer_recorded" {
        continue;
      }
      if selected != "" && TrimSpace(es[i].optionId) != selected && TrimSpace(es[i].taskId) != selected {
        continue;
      }
      count := count + 1;
    }
    assert es[..|es|] == es;
  }

  method HasCeremonySummary(es: seq<Event>, cycle: int, rawSelected: string) returns (has: bool)
    ensures has == HasSummary(es, cycle, TrimSpace(rawSelected))
  {
    var selected := TrimSpace(rawSelected);
    ghost var test := e => IsSummary(e, cycle, selected);
    var i := |es|;
    assert es[..i] == es;
    while i > 0
      invariant 0 <= i <= |es| && Last(es, test) == Last(es[..i], test)
    {
      i := i - 1;
      LastStep(es, i, test);
      if es[i].cycle != cycle {
        continue;
      }
      if selected != "" && TrimSpace(es[i].taskId) != selected && TrimSpace(es[i].optionId) != selected {
        continue;
      }
      var kind := TrimSpace(es[i].eventType);
      if kind == "plan_summary_result" || (TrimSpace(es[i].stage) == "summarize_plan" && kind == "tool_result") {
        return true;
      }
    }
    return false;
  }

  method LatestCeremonySummaryPrompt(es: seq<Event>, cycle: int, rawSelected: string) returns (text: string)
    ensures text == SummaryPrompt(es, cycle, TrimSpace(rawSelected))
  {
    var selected := TrimSpace(rawSelected);
    ghost var test := e => IsSummaryText(e, cycle, selected);
    var i := |es|;
    assert es[..i] == es;
    while i > 0
      invariant 0 <= i <= |es| && Last(es, test) == Last(es[..i], test)
    {
      i := i - 1;
      LastStep(es, i, test);
      if es[i].cycle != cycle {
        continue;
      }
      if selected != "" && TrimSpace(es[i].taskId) != selected && TrimSpace(es[i].optionId) != selected {
        continue;
      }
      if TrimSpace(es[i].eventType) != "plan_summary_result" {
        continue;
      }
      var what := TrimSpace(es[i].summary);
      if what != "" {
        return "Greenlight this plan: " + what;
      }
    }
    return "Greenlight this plan now, or realign for another planning cycle.";
  }

  /** One event folded into the record of its candidate, field by field. */
  method MergeEvent(before: Candidate, e: Event) returns (rec: Candidate)
    requires OwnId(e) != ""
    ensures rec == Merge(before, e)
  {
    rec := before.(id := OwnId(e));
    var title := TitleFrom(e.summary);
    if title != "" {
      rec := rec.(title := title);
    }
    var rank := MetaInt(e.meta, "rank");
    if rank > 0 {
      rec := rec.(rank := rank);
    }
    if MetaBool(e.meta, "shortlisted") {
      rec := rec.(shortlisted := true);
    }
    if MetaBool(e.meta, "recommended") {
      rec := rec.(recommended := true);
    }
    if rec.rank <= 0 {
      rec := rec.(rank := RankFrom(e.summary));
    }
    if TrimSpace(e.eventType) == "candidate_ranked" {
      rec := rec.(shortlisted := true);
    }
  }

  /** Collects the candidates, walks the map in whatever order it comes, and sorts. */
  method LatestCeremonyCandidates(es: seq<Event>, cycle: int) returns (r: seq<Candidate>)
    ensures r == CandidatesOf(es, cycle)
  {
    var acc: Accumulated := map[];
    for i := 0 to |es|
      invariant acc == Accumulate(es[..i], cycle)
    {
      AccumulateStep(es, i, cycle);
      if es[i].cycle != cycle {
        continue;
      }
      var kind := TrimSpace(es[i].eventType);
      if kind != "candidate_ranked" && kind != "candidate_pruned" && kind != "candidate_with_implications" {
        continue;
      }
      var id := TrimSpace(es[i].optionId);
      if id == "" {
        id := TrimSpace(es[i].taskId);
      }
      if id == "" {
        continue;
      }
      var rec := MergeEvent(At(acc, id), es[i]);
      acc := acc[id := rec];
    }
    assert es[..|es|] == es;
    AccumulateKeyed(es, cycle);
    var ids := Enumerate(acc.Keys);
    r := Sort(CandidateLess, Listed(acc, ids));
    CandidateListExists(acc, ids);
    CandidateOrderUnique(acc, r, CandidatesOf(es, cycle));
  }

  method FormatCeremonyCandidateOptions(cs: seq<Candidate>) returns (options: seq<string>)
    ensures options == FormatOptions(cs)
  {
    if |cs| == 0 {
      return [];
    }
    var hasShortlist := false;
    for i := 0 to |cs|
      invariant hasShortlist <==> exists j :: 0 <= j < i && cs[j].shortlisted
    {
      if cs[i].shortlisted {
        hasShortlist := true;
        break;
      }
    }
    options := [];
    for i := 0 to |cs|
      invariant options == Offered(cs[..i], !hasShortlist)
    {
      assert cs[..i + 1][..i] == cs[..i];
      if hasShortlist && !cs[i].shortlisted {
        continue;
      }
      options := options + [OptionText(cs[i])];
    }
    assert cs[..|cs|] == cs;
    OffersSomething(cs, !hasShortlist);
  }

  method FindLatestCycle(es: seq<Event>) returns (c: int)
    ensures c == LatestCycle(es)
  {
    c := 0;
    for i := 0 to |es|
      invariant c == LatestCycle(es[..i])
    {
      CycleStep(es, i);
      if es[i].cycle > c {
        c := es[i].cycle;
      }
    }
    assert es[..|es|] == es;
  }

  method InferCeremonyPrompt(es: seq<Event>, status: string) returns (p: Prompt)
    ensures p == CliPrompt(es, status)
  {
    TrimSpaceFacts("plan_agreed");
    TrimSpaceFacts("planning_exhausted");
    if |es| == 0 {
      return Terminal(Processing, 0);
    }
    var cycle := FindLatestCycle(es);
    var agreed := HasCeremonyEventType(es, cycle, "plan_agreed");
    if agreed {
      return Terminal(Agreed, cycle);
    }
    var exhausted := HasCeremonyEventType(es, cycle, "planning_exhausted");
    if exhausted {
      return Terminal(Exhausted, cycle);
    }
    p := OpenPrompt(es, status, cycle);
  }

  /** The part of the builder behind its two terminal checks. */
  method OpenPrompt(es: seq<Event>, status: string, cycle: int) returns (p: Prompt)
    ensures p == Open(es, status, cycle, CliItem(es, cycle))
  {
    var selected, title := LatestCeremonySelectedItem(es, cycle);
    var item := Item(selected, title);
    SelectedIdTrimmed(es, cycle);
    TrimSpaceFacts("greenlight_decision");
    var questions := LatestCeremonyQuestions(es, cycle, selected);
    if |questions| > 0 {
      var answers := CountCeremonyAnswers(es, cycle, selected);
      if answers < |questions| {
        var q := questions[answers];
        return Prompt(Questioning, AnswerSignal, cycle, item, q.options,
                      Asked(TrimSpace(q.question), TrimSpace(q.recommendation), TrimSpace(q.context)));
      }
      var decided := HasCeremonyEventType(es, cycle, "greenlight_decision");
      var summary := HasCeremonySummary(es, cycle, selected);
      if !decided && summary {
        var shown := LatestCeremonySummaryPrompt(es, cycle, selected);
        return Prompt(Greenlight, GreenlightSignal, cycle, item, ["GO", "REALIGN"], Summary(shown));
      }
    }
    var candidates := LatestCeremonyCandidates(es, cycle);
    if selected == "" && |candidates| > 0 {
      var options := FormatCeremonyCandidateOptions(candidates);
      return Prompt(Selecting, ItemSelectedSignal, cycle, item, options, Nothing);
    }
    if EqualFold(TrimSpace(status), "Running") {
      return Prompt(Processing, NoSignal, cycle, item, [], Nothing);
    }
    return Prompt(Completed, NoSignal, cycle, item, [], Nothing);
  }
}
