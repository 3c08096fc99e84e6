/** What the planning prompts say about the events themselves: the phase, the expected signal and the
    options, for every trace (internal/api/handlers_planning.go, cmd/chum/ceremony_mode.go). */
module PlanningPhases {
  import opened Options
  import opened Text
  import opened Ordering
  import opened PlanningTrace
  import opened PlanningPrompt

  // ---------------------------------------------------------------- reading a trace

  /** `i` is the position of the last event that passes the test. */
  ghost predicate IsLastAt(es: seq<Event>, test: Event -> bool, i: nat) {
    i < |es| && test(es[i]) && forall j :: i < j < |es| ==> !test(es[j])
  }

  lemma {:induction false} LastAt(es: seq<Event>, test: Event -> bool, i: nat)
    requires IsLastAt(es, test, i)
    ensures Last(es, test) == Some(es[i])
  {
    var n := |es| - 1;
    if i < n {
      assert IsLastAt(es[..n], test, i);
      LastAt(es[..n], test, i);
    }
  }

  lemma {:induction false} LastNone(es: seq<Event>, test: Event -> bool)
    ensures Last(es, test).None? <==> forall i :: 0 <= i < |es| ==> !test(es[i])
  {
    if es != [] {
      var n := |es| - 1;
      LastNone(es[..n], test);
      assert forall i :: 0 <= i < n ==> es[..n][i] == es[i];
    }
  }

  lemma LastMeans(es: seq<Event>, test: Event -> bool)
    ensures Last(es, test).None? <==> forall i :: 0 <= i < |es| ==> !test(es[i])
    ensures forall i: nat :: IsLastAt(es, test, i) ==> Last(es, test) == Some(es[i])
  {
    LastNone(es, test);
    forall i: nat | IsLastAt(es, test, i) ensures Last(es, test) == Some(es[i]) { LastAt(es, test, i); }
  }

  lemma {:induction false} CountMeans(es: seq<Event>, test: Event -> bool)
    ensures CountOf(es, test) == |set i | 0 <= i < |es| && test(es[i])|
  {
    if es != [] {
      var n := |es| - 1;
      CountMeans(es[..n], test);
      var before := set i | 0 <= i < |es[..n]| && test(es[..n][i]);
      PlacesNext(es, n, test, before, set i | 0 <= i < |es| && test(es[i]));
    }
  }

  lemma PlacesNext(es: seq<Event>, n: nat, test: Event -> bool, before: set<int>, now: set<int>)
    requires |es| == n + 1 && before == (set i | 0 <= i < n && test(es[..n][i]))
    requires now == set i | 0 <= i < |es| && test(es[i])
    ensures |now| == |before| + if test(es[n]) then 1 else 0
  {
    assert forall i :: 0 <= i < n ==> es[..n][i] == es[i];
    if test(es[n]) {
      assert now == before + {n} && n !in before;
    } else {
      assert now == before;
    }
  }

  /** The latest cycle is the largest one recorded, or 0. */
  lemma {:induction false} LatestCycleMeans(es: seq<Event>)
    ensures LatestCycle(es) >= 0 && forall i :: 0 <= i < |es| ==> es[i].cycle <= LatestCycle(es)
    ensures LatestCycle(es) == 0 || exists i :: 0 <= i < |es| && es[i].cycle == LatestCycle(es)
  {
    if es != [] { LatestCycleMeans(es[..|es| - 1]); }
  }

  /** An event of the cycle with the given type. */
  predicate OfKind(e: Event, cycle: int, kind: string) {
    e.cycle == cycle && TrimSpace(e.eventType) == kind
  }

  /** The event names the item as its task or its option; without an item every event does. */
  predicate About(e: Event, id: string) {
    id == "" || TrimSpace(e.taskId) == id || TrimSpace(e.optionId) == id
  }

  ghost predicate Happened(es: seq<Event>, cycle: int, kind: string) {
    exists i :: 0 <= i < |es| && OfKind(es[i], cycle, kind)
  }

  lemma HasTypeMeans(es: seq<Event>, cycle: int, kind: string)
    ensures HasType(es, cycle, kind) <==> Happened(es, cycle, kind)
  {
    LastMeans(es, e => IsTypeIn(e, cycle, kind));
  }

  /** `id` is the item the last selection of the cycle names, by its option or else its task. */
  ghost predicate Selects(es: seq<Event>, cycle: int, id: string) {
    || (id == "" && !Happened(es, cycle, "item_selected"))
    || exists i: nat ::
         && i < |es| && OfKind(es[i], cycle, "item_selected")
         && (forall j :: i < j < |es| ==> !OfKind(es[j], cycle, "item_selected"))
         && id == if TrimSpace(es[i].optionId) != "" then TrimSpace(es[i].optionId) else TrimSpace(es[i].taskId)
  }

  lemma SelectedIdMeans(es: seq<Event>, cycle: int, id: string)
    requires Selects(es, cycle, id)
    ensures SelectedId(es, cycle) == id
  {
    var test := e => IsSelection(e, cycle);
    LastMeans(es, test);
    if i: nat :|
      && i < |es| && OfKind(es[i], cycle, "item_selected")
      && (forall j :: i < j < |es| ==> !OfKind(es[j], cycle, "item_selected"))
      && id == if TrimSpace(es[i].optionId) != "" then TrimSpace(es[i].optionId) else TrimSpace(es[i].taskId)
    {
      assert IsLastAt(es, test, i);
    }
  }

  /** A list of questions, readable or not, about the item. */
  predicate AsksAbout(e: Event, cycle: int, id: string) {
    OfKind(e, cycle, "questions_result") && About(e, id) && !e.payload.Empty?
  }

  /** The questions are those of the last such list; an unreadable one has none. */
  ghost predicate Asks(es: seq<Event>, cycle: int, id: string, questions: seq<Question>) {
    || (questions == [] && forall i :: 0 <= i < |es| ==> !AsksAbout(es[i], cycle, id))
    || exists i: nat ::
         && i < |es| && AsksAbout(es[i], cycle, id)
         && (forall j :: i < j < |es| ==> !AsksAbout(es[j], cycle, id))
         && questions == if es[i].payload.Questions? then es[i].payload.questions else []
  }

  lemma QuestionsMeans(es: seq<Event>, cycle: int, id: string, questions: seq<Question>)
    requires Asks(es, cycle, id, questions)
    ensures LatestQuestions(es, cycle, id) == questions
  {
    var test := e => IsQuestions(e, cycle, id);
    assert forall e :: test(e) <==> AsksAbout(e, cycle, id);
    LastMeans(es, test);
    if i: nat :|
      && i < |es| && AsksAbout(es[i], cycle, id)
      && (forall j :: i < j < |es| ==> !AsksAbout(es[j], cycle, id))
      && questions == if es[i].payload.Questions? then es[i].payload.questions else []
    {
      assert IsLastAt(es, test, i);
    }
  }

  function AnswersTo(es: seq<Event>, cycle: int, id: string): nat {
    |set i | 0 <= i < |es| && OfKind(es[i], cycle, "answer_recorded") && About(es[i], id)|
  }

  lemma AnswersMeans(es: seq<Event>, cycle: int, id: string)
    ensures Answers(es, cycle, id) == AnswersTo(es, cycle, id)
  {
    var test := e => IsAnswer(e, cycle, id);
    CountMeans(es, test);
    assert (set i | 0 <= i < |es| && test(es[i]))
        == set i | 0 <= i < |es| && OfKind(es[i], cycle, "answer_recorded") && About(es[i], id);
  }

  /** The event reports a summary of the plan, or the tool that makes one. */
  predicate Summarizes(e: Event, cycle: int, id: string) {
    && About(e, id)
    && (OfKind(e, cycle, "plan_summary_result")
        || (OfKind(e, cycle, "tool_result") && TrimSpace(e.stage) == "summarize_plan"))
  }

  ghost predicate Summarized(es: seq<Event>, cycle: int, id: string) {
    exists i :: 0 <= i < |es| && Summarizes(es[i], cycle, id)
  }

  lemma SummaryMeans(es: seq<Event>, cycle: int, id: string)
    ensures HasSummary(es, cycle, id) <==> Summarized(es, cycle, id)
  {
    var test := e => IsSummary(e, cycle, id);
    assert forall e :: test(e) <==> Summarizes(e, cycle, id);
    LastMeans(es, test);
  }

  /** A summary with text, which the greenlight prompt quotes. */
  predicate Tells(e: Event, cycle: int, id: string) {
    OfKind(e, cycle, "plan_summary_result") && About(e, id) && TrimSpace(e.summary) != ""
  }

  ghost predicate Quotes(es: seq<Event>, cycle: int, id: string, text: string) {
    || (text == "Greenlight this plan now, or realign for another planning cycle."
        && forall i :: 0 <= i < |es| ==> !Tells(es[i], cycle, id))
    || exists i: nat ::
         && i < |es| && Tells(es[i], cycle, id) && (forall j :: i < j < |es| ==> !Tells(es[j], cycle, id))
         && text == "Greenlight this plan: " + TrimSpace(es[i].summary)
  }

  lemma SummaryPromptMeans(es: seq<Event>, cycle: int, id: string)
    ensures Quotes(es, cycle, id, SummaryPrompt(es, cycle, id))
  {
    var test := e => IsSummaryText(e, cycle, id);
    assert forall e :: test(e) <==> Tells(e, cycle, id);
    LastMeans(es, test);
    if Last(es, test).Some? {
      var i := LastPlace(es, test);
    }
  }

  lemma {:induction false} LastPlace(es: seq<Event>, test: Event -> bool) returns (i: nat)
    requires Last(es, test).Some?
    ensures IsLastAt(es, test, i) && Last(es, test) == Some(es[i])
  {
    i := |es| - 1;
    if !test(es[i]) {
      i := LastPlace(es[..|es| - 1], test);
    }
  }

  /** An event of a candidate with an id. */
  predicate Proposes(e: Event, cycle: int) {
    && (OfKind(e, cycle, "candidate_ranked") || OfKind(e, cycle, "candidate_pruned")
        || OfKind(e, cycle, "candidate_with_implications"))
    && (TrimSpace(e.optionId) != "" || TrimSpace(e.taskId) != "")
  }

  ghost predicate Proposed(es: seq<Event>, cycle: int) {
    exists i :: 0 <= i < |es| && Proposes(es[i], cycle)
  }

  /** The candidates are those that some event of the cycle proposes. */
  lemma {:induction false} CandidateIds(es: seq<Event>, cycle: int, id: string)
    ensures id in Accumulate(es, cycle) <==>
      exists i :: 0 <= i < |es| && Proposes(es[i], cycle)
                  && id == if TrimSpace(es[i].optionId) != "" then TrimSpace(es[i].optionId)
                      else TrimSpace(es[i].taskId)
  {
    if es != [] {
      var n := |es| - 1;
      CandidateIds(es[..n], cycle, id);
      assert IsCandidate(es[n], cycle) <==> Proposes(es[n], cycle);
      assert forall i :: 0 <= i < n ==> es[..n][i] == es[i];
    }
  }

  lemma CandidatesMeans(es: seq<Event>, cycle: int)
    ensures CandidatesOf(es, cycle) != [] <==> Proposed(es, cycle)
  {
    var acc, cs := Accumulate(es, cycle), CandidatesOf(es, cycle);
    AccumulateKeyed(es, cycle);
    if cs != [] {
      assert cs[0] in cs;
      CandidateIds(es, cycle, cs[0].id);
    }
    if i :| 0 <= i < |es| && Proposes(es[i], cycle) {
      CandidateIds(es, cycle, OwnId(es[i]));
      assert Titled(acc[OwnId(es[i])]) in cs;
    }
  }

  // ---------------------------------------------------------------- the phases

  /** The prompt that the events call for once no terminal one is there. */
  ghost predicate Calls(es: seq<Event>, status: string, cycle: int, id: string, questions: seq<Question>, p: Prompt) {
    var k := AnswersTo(es, cycle, id);
    && p.cycle == cycle && p.selected.id == id
    && if k < |questions| then
         && p.phase == Questioning && p.signal == AnswerSignal && p.options == questions[k].options
         && p.shown == Asked(TrimSpace(questions[k].question), TrimSpace(questions[k].recommendation),
                             TrimSpace(questions[k].context))
       else if questions != [] && !Happened(es, cycle, "greenlight_decision") && Summarized(es, cycle, id) then
         && p.phase == Greenlight && p.signal == GreenlightSignal && p.options == ["GO", "REALIGN"]
         && p.shown.Summary? && Quotes(es, cycle, id, p.shown.text)
       else if id == "" && Proposed(es, cycle) then
         && p.phase == Selecting && p.signal == ItemSelectedSignal && p.shown == Nothing
         && p.options == FormatOptions(CandidatesOf(es, cycle)) != []
       else
         && p.phase == (if ToLower(TrimSpace(status)) == "running" then Processing else Completed)
         && p.signal == NoSignal && p.options == [] && p.shown == Nothing
  }

  lemma OpenAsking(es: seq<Event>, status: string, cycle: int, id: string, item: Item)
    requires SelectedId(es, cycle) == id && Answers(es, cycle, id) < |LatestQuestions(es, cycle, id)|
    ensures Open(es, status, cycle, item) ==
        Asking(cycle, item, LatestQuestions(es, cycle, id)[Answers(es, cycle, id)])
  {}

  lemma OpenGreenlight(es: seq<Event>, status: string, cycle: int, id: string, item: Item)
    requires SelectedId(es, cycle) == id && Answers(es, cycle, id) >= |LatestQuestions(es, cycle, id)| > 0
    requires !HasType(es, cycle, "greenlight_decision") && HasSummary(es, cycle, id)
    ensures Open(es, status, cycle, item) == Prompt(Greenlight, GreenlightSignal, cycle, item, ["GO", "REALIGN"],
                                                    Summary(SummaryPrompt(es, cycle, id)))
  {}

  lemma OpenOther(es: seq<Event>, status: string, cycle: int, id: string, item: Item)
    requires SelectedId(es, cycle) == id && Answers(es, cycle, id) >= |LatestQuestions(es, cycle, id)|
    requires LatestQuestions(es, cycle, id) == [] || HasType(es, cycle, "greenlight_decision")
        || !HasSummary(es, cycle, id)
    ensures Open(es, status, cycle, item)
            == if id == "" && CandidatesOf(es, cycle) != [] then
                 Prompt(Selecting, ItemSelectedSignal, cycle, item, FormatOptions(CandidatesOf(es, cycle)), Nothing)
               else Prompt(if Running(status) then Processing else Completed, NoSignal, cycle, item, [], Nothing)
  {}

  lemma OffersOptions(es: seq<Event>, cycle: int)
    ensures CandidatesOf(es, cycle) != [] ==> FormatOptions(CandidatesOf(es, cycle)) != []
  {
    var cs := CandidatesOf(es, cycle);
    if cs != [] { OffersSomething(cs, !AnyShortlisted(cs)); }
  }

  lemma RunningMeans(status: string)
    ensures Running(status) <==> ToLower(TrimSpace(status)) == "running"
  {
    assert ToLower("Running") == "running";
  }

  lemma OpenCalls(es: seq<Event>, status: string, cycle: int, id: string, questions: seq<Question>, item: Item)
    requires Selects(es, cycle, id) && Asks(es, cycle, id, questions) && item.id == id
    ensures Calls(es, status, cycle, id, questions, Open(es, status, cycle, item))
  {
    SelectedIdMeans(es, cycle, id);
    QuestionsMeans(es, cycle, id, questions);
    AnswersMeans(es, cycle, id);
    SummaryMeans(es, cycle, id);
    HasTypeMeans(es, cycle, "greenlight_decision");
    if AnswersTo(es, cycle, id) < |questions| {
      OpenAsking(es, status, cycle, id, item);
    } else if questions != [] && !Happened(es, cycle, "greenlight_decision") && Summarized(es, cycle, id) {
      OpenGreenlight(es, status, cycle, id, item);
      SummaryPromptMeans(es, cycle, id);
    } else {
      OpenOther(es, status, cycle, id, item);
      CandidatesMeans(es, cycle);
      OffersOptions(es, cycle);
      RunningMeans(status);
    }
  }

  /** The phase of both programs, for every trace: in the latest cycle agreement comes first, then for
      the API a timeout, then exhaustion; otherwise the events call for questions, greenlight,
      selection, or nothing. */
  lemma PhaseExact(es: seq<Event>, status: string, cycle: int, id: string, questions: seq<Question>)
    requires es != [] && cycle == LatestCycle(es) && Selects(es, cycle, id) && Asks(es, cycle, id, questions)
    ensures
      var api, cli := ApiPrompt(es, status), CliPrompt(es, status);
      if Happened(es, cycle, "plan_agreed") then
        api == cli == Prompt(Agreed, NoSignal, cycle, Item("", ""), [], Nothing)
      else
        && (if Happened(es, cycle, "planning_signal_timeout") then
              api == Prompt(TimedOut, NoSignal, cycle, Item("", ""), [], Nothing)
            else if Happened(es, cycle, "planning_exhausted") then
              api == Prompt(Exhausted, NoSignal, cycle, Item("", ""), [], Nothing)
            else Calls(es, status, cycle, id, questions, api))
        && (if Happened(es, cycle, "planning_exhausted") then
              cli == Prompt(Exhausted, NoSignal, cycle, Item("", ""), [], Nothing)
            else Calls(es, status, cycle, id, questions, cli))
  {
    HasTypeMeans(es, cycle, "plan_agreed");
    HasTypeMeans(es, cycle, "planning_signal_timeout");
    HasTypeMeans(es, cycle, "planning_exhausted");
    SelectedIdMeans(es, cycle, id);
    OpenCalls(es, status, cycle, id, questions, ApiItem(es, cycle));
    OpenCalls(es, status, cycle, id, questions, CliItem(es, cycle));
  }

  /** Every trace has a selection and questions in this sense, so the theorem covers all of them. */
  lemma AlwaysReads(es: seq<Event>, cycle: int)
    ensures Selects(es, cycle, SelectedId(es, cycle))
    ensures Asks(es, cycle, SelectedId(es, cycle), LatestQuestions(es, cycle, SelectedId(es, cycle)))
  {
    var id := SelectedId(es, cycle);
    var selection, asked := e => IsSelection(e, cycle), e => IsQuestions(e, cycle, id);
    assert forall e :: asked(e) <==> AsksAbout(e, cycle, id);
    assert forall e :: selection(e) <==> OfKind(e, cycle, "item_selected");
    LastMeans(es, selection);
    LastMeans(es, asked);
    if Last(es, selection).Some? { var i := LastPlace(es, selection); }
    if Last(es, asked).Some? { var i := LastPlace(es, asked); }
  }

  // ---------------------------------------------------------------- steps

  lemma AppendHappens(es: seq<Event>, e: Event, cycle: int, kind: string)
    requires OfKind(e, cycle, kind)
    ensures HasType(es + [e], cycle, kind)
  {
    HasTypeMeans(es + [e], cycle, kind);
    assert (es + [e])[|es|] == e;
  }

  /** Recording a decision leaves the greenlight phase. */
  lemma DecisionLeavesGreenlight(es: seq<Event>, status: string, e: Event)
    requires OfKind(e, LatestCycle(es), "greenlight_decision")
    ensures !ApiPrompt(es + [e], status).phase.Greenlight? && !CliPrompt(es + [e], status).phase.Greenlight?
  {
    SameCycleKept(es, e);
    AppendHappens(es, e, LatestCycle(es), "greenlight_decision");
    PhaseNeeds(es + [e], status, LatestCycle(es));
  }

  lemma OpenNeeds(es: seq<Event>, status: string, cycle: int, item: Item)
    ensures Open(es, status, cycle, item).phase.Greenlight? ==> !HasType(es, cycle, "greenlight_decision")
    ensures Open(es, status, cycle, item).phase.Selecting? ==> SelectedId(es, cycle) == ""
  {}

  /** Both programs ask for a decision or a selection only where no terminal event was found. */
  lemma AsksWhenOpen(es: seq<Event>, status: string, cycle: int, api: Prompt, cli: Prompt)
    requires cycle == LatestCycle(es) && api == ApiPrompt(es, status) && cli == CliPrompt(es, status)
    ensures api.phase.Greenlight? || api.phase.Selecting? ==> api == Open(es, status, cycle, ApiItem(es, cycle))
    ensures cli.phase.Greenlight? || cli.phase.Selecting? ==> cli == Open(es, status, cycle, CliItem(es, cycle))
  {}

  lemma PhaseNeeds(es: seq<Event>, status: string, cycle: int)
    requires cycle == LatestCycle(es)
    ensures HasType(es, cycle, "greenlight_decision") ==>
      !ApiPrompt(es, status).phase.Greenlight? && !CliPrompt(es, status).phase.Greenlight?
    ensures SelectedId(es, cycle) != "" ==>
      !ApiPrompt(es, status).phase.Selecting? && !CliPrompt(es, status).phase.Selecting?
  {
    AsksWhenOpen(es, status, cycle, ApiPrompt(es, status), CliPrompt(es, status));
    OpenNeeds(es, status, cycle, ApiItem(es, cycle));
    OpenNeeds(es, status, cycle, CliItem(es, cycle));
  }

  lemma SelectionRead(es: seq<Event>, e: Event, cycle: int)
    requires OfKind(e, cycle, "item_selected")
    ensures SelectedId(es + [e], cycle) == if TrimSpace(e.optionId) != "" then TrimSpace(e.optionId)
        else TrimSpace(e.taskId)
  {
    assert Last(es + [e], x => IsSelection(x, cycle)) == Some(e);
  }

  /** Recording a selection with an id leaves the selecting phase. */
  lemma SelectionLeavesSelecting(es: seq<Event>, status: string, e: Event)
    requires OfKind(e, LatestCycle(es), "item_selected") && (TrimSpace(e.optionId) != "" || TrimSpace(e.taskId) != "")
    ensures !ApiPrompt(es + [e], status).phase.Selecting? && !CliPrompt(es + [e], status).phase.Selecting?
  {
    SameCycleKept(es, e);
    SelectionRead(es, e, LatestCycle(es));
    PhaseNeeds(es + [e], status, LatestCycle(es));
  }

  /** The selected item as each program reports it. */
  lemma ItemExact(es: seq<Event>, cycle: int, i: nat)
    requires i < |es| && OfKind(es[i], cycle, "item_selected")
    requires forall j :: i < j < |es| ==> !OfKind(es[j], cycle, "item_selected")
    ensures
      var option, task, summary := TrimSpace(es[i].optionId), TrimSpace(es[i].taskId), TrimSpace(es[i].summary);
      var id := if option != "" then option else task;
      && ApiItem(es, cycle) == (if id == "" then Item("", "") else Item(id, if summary != "" then summary else task))
      && CliItem(es, cycle) == Item(id, if summary != "" then summary else id)
  {
    var test := e => IsSelection(e, cycle);
    LastMeans(es, test);
    assert IsLastAt(es, test, i);
  }

  // ---------------------------------------------------------------- candidates

  predicate Names(e: Event, cycle: int, id: string) {
    && Proposes(e, cycle)
    && id == if TrimSpace(e.optionId) != "" then TrimSpace(e.optionId) else TrimSpace(e.taskId)
  }

  predicate SaysTrue(e: Event, key: string) {
    key in e.meta && (e.meta[key] == Flag(true) || (e.meta[key].Str? && ToLower(TrimSpace(e.meta[key].s)) == "true"))
  }

  lemma MetaBoolMeans(e: Event, key: string)
    ensures MetaBool(e.meta, key) <==> SaysTrue(e, key)
  {
    assert ToLower("true") == "true";
  }

  lemma NamesMeans(e: Event, cycle: int, id: string)
    requires id != ""
    ensures Names(e, cycle, id) <==> IsCandidate(e, cycle) && OwnId(e) == id
  {}

  ghost predicate SomeEvent(es: seq<Event>, test: Event -> bool) {
    exists i :: 0 <= i < |es| && test(es[i])
  }

  lemma SomeEventNext(es: seq<Event>, e: Event, test: Event -> bool)
    ensures SomeEvent(es + [e], test) <==> SomeEvent(es, test) || test(e)
  {
    var more := es + [e];
    assert forall i :: 0 <= i < |es| ==> more[i] == es[i];
    assert more[|es|] == e;
  }

  lemma AccumulateAt(es: seq<Event>, e: Event, cycle: int, id: string)
    requires id != ""
    ensures
      var was := At(Accumulate(es, cycle), id);
      At(Accumulate(es + [e], cycle), id) == if Names(e, cycle, id) then Merge(was, e) else was
  {
    NamesMeans(e, cycle, id);
    AccumulateLast(es, e, cycle);
  }

  /** A candidate is shortlisted, or recommended, exactly when some event says so of it; being ranked
      is being shortlisted. */
  lemma {:induction false} CandidateFlags(es: seq<Event>, cycle: int, id: string)
    requires id != ""
    ensures
      var c := At(Accumulate(es, cycle), id);
      && (c.shortlisted <==>
            SomeEvent(es, e => Names(e, cycle, id)
                && (SaysTrue(e, "shortlisted") || OfKind(e, cycle, "candidate_ranked"))))
      && (c.recommended <==> SomeEvent(es, e => Names(e, cycle, id) && SaysTrue(e, "recommended")))
  {
    if es != [] {
      var n := |es| - 1;
      var init, e := es[..n], es[n];
      CandidateFlags(init, cycle, id);
      AccumulateAt(init, e, cycle, id);
      MetaBoolMeans(e, "shortlisted");
      MetaBoolMeans(e, "recommended");
      assert es == init + [e];
      SomeEventNext(init, e, x => Names(x, cycle, id)
          && (SaysTrue(x, "shortlisted") || OfKind(x, cycle, "candidate_ranked")));
      SomeEventNext(init, e, x => Names(x, cycle, id) && SaysTrue(x, "recommended"));
    }
  }

  /** Its title is the last one that one of its events gives. */
  lemma {:induction false} CandidateTitle(es: seq<Event>, cycle: int, id: string)
    requires id != ""
    ensures At(Accumulate(es, cycle), id).title ==
      match Last(es, e => Names(e, cycle, id) && TitleFrom(e.summary) != "")
      case None => ""
      case Some(e) => TitleFrom(e.summary)
  {
    if es != [] {
      var n := |es| - 1;
      CandidateTitle(es[..n], cycle, id);
      AccumulateAt(es[..n], es[n], cycle, id);
      assert es == es[..n] + [es[n]];
    }
  }

  /** The rank an event gives in its metadata, if positive. */
  predicate Ranks(e: Event, cycle: int, id: string) {
    Names(e, cycle, id) && MetaInt(e.meta, "rank") > 0
  }

  /** Its rank is the last positive one given as metadata. */
  lemma {:induction false} CandidateRank(es: seq<Event>, cycle: int, id: string)
    requires id != ""
    ensures
      match Last(es, e => Ranks(e, cycle, id))
      case Some(e) => At(Accumulate(es, cycle), id).rank == MetaInt(e.meta, "rank") > 0
      case None => true
  {
    if es != [] {
      var n := |es| - 1;
      CandidateRank(es[..n], cycle, id);
      AccumulateAt(es[..n], es[n], cycle, id);
      assert es == es[..n] + [es[n]];
    }
  }

  /** Without one it is what the first summary with a positive rank says, or else the last summary. */
  lemma {:induction false} CandidateSummaryRank(es: seq<Event>, cycle: int, id: string)
    requires id != "" && forall i :: 0 <= i < |es| ==> !Ranks(es[i], cycle, id)
    ensures
      var rank := At(Accumulate(es, cycle), id).rank;
      match First(es, e => Names(e, cycle, id) && RankFrom(e.summary) > 0)
      case Some(e) => rank == RankFrom(e.summary) > 0
      case None => rank == match Last(es, e => Names(e, cycle, id)) case None => 0 case Some(e) => RankFrom(e.summary)
  {
    if es != [] {
      var n := |es| - 1;
      CandidateSummaryRank(es[..n], cycle, id);
      AccumulateAt(es[..n], es[n], cycle, id);
      assert es == es[..n] + [es[n]];
      assert !Ranks(es[n], cycle, id);
      FirstNext(es[..n], es[n], e => Names(e, cycle, id) && RankFrom(e.summary) > 0);
      if First(es[..n], e => Names(e, cycle, id) && RankFrom(e.summary) > 0).None? {
        NoPositiveRank(es[..n], cycle, id);
      }
    }
  }

  function First(es: seq<Event>, test: Event -> bool): Option<Event> {
    if es == [] then None else if test(es[0]) then Some(es[0]) else First(es[1..], test)
  }

  lemma {:induction false} FirstNext(es: seq<Event>, e: Event, test: Event -> bool)
    ensures First(es + [e], test) ==
      if First(es, test).Some? then First(es, test) else if test(e) then Some(e) else None
  {
    if es == [] {
      assert [e][1..] == [] && es + [e] == [e];
    } else {
      assert (es + [e])[1..] == es[1..] + [e];
      FirstNext(es[1..], e, test);
    }
  }

  lemma {:induction false} FirstNone(es: seq<Event>, test: Event -> bool)
    ensures First(es, test).None? <==> forall i :: 0 <= i < |es| ==> !test(es[i])
  {
    if es != [] {
      FirstNone(es[1..], test);
      assert forall i :: 0 < i < |es| ==> es[1..][i - 1] == es[i];
    }
  }

  lemma NoPositiveRank(es: seq<Event>, cycle: int, id: string)
    requires First(es, e => Names(e, cycle, id) && RankFrom(e.summary) > 0).None?
    ensures match Last(es, e => Names(e, cycle, id)) case None => true case Some(e) => RankFrom(e.summary) <= 0
  {
    var test := e => Names(e, cycle, id);
    FirstNone(es, e => Names(e, cycle, id) && RankFrom(e.summary) > 0);
    if Last(es, test).Some? { var i := LastPlace(es, test); }
  }

  /** A listed candidate has the rank and flags of its events, and their title, or its id if that is
      blank. */
  lemma CandidateShown(es: seq<Event>, cycle: int, c: Candidate)
    ensures c in CandidatesOf(es, cycle) <==>
      && c.id in Accumulate(es, cycle)
      && var was := At(Accumulate(es, cycle), c.id);
         c == Candidate(c.id, if TrimSpace(was.title) == "" then c.id else was.title, was.rank, was.shortlisted,
                        was.recommended)
  {
    var acc, cs := Accumulate(es, cycle), CandidatesOf(es, cycle);
    AccumulateKeyed(es, cycle);
    if c.id in acc { assert Titled(acc[c.id]) in cs; }
  }

  /** The candidates are listed by rank, unranked ones last, and by id where ranks are equal. */
  lemma CandidateOrder(es: seq<Event>, cycle: int, i: nat, j: nat)
    requires i < j < |CandidatesOf(es, cycle)|
    ensures
      var a, b := CandidatesOf(es, cycle)[i], CandidatesOf(es, cycle)[j];
      if a.rank == b.rank then exists k :: DiffersAt(a.id, b.id, k)
      else b.rank == 0 || (a.rank != 0 && a.rank < b.rank)
  {
    var cs := CandidatesOf(es, cycle);
    assert cs[i] in cs && cs[j] in cs && cs[i] != cs[j] && !CandidateLess(cs[j], cs[i]);
    AccumulateKeyed(es, cycle);
    StrLessTotal(cs[i].id, cs[j].id);
    StrLessMeans(cs[i].id, cs[j].id);
  }

  /** The options are made candidate by candidate, in the order of the list. */
  lemma {:induction false} OfferedAppend(a: seq<Candidate>, b: seq<Candidate>, all: bool)
    ensures Offered(a + b, all) == Offered(a, all) + Offered(b, all)
  {
    if b == [] {
      assert a + b == a;
    } else {
      assert (a + b)[..|a + b| - 1] == a + b[..|b| - 1];
      OfferedAppend(a, b[..|b| - 1], all);
    }
  }

  lemma OfferedOne(c: Candidate, all: bool)
    ensures
      var ranked := if c.rank > 0 then "#" + Decimal(c.rank) + " " + c.title else c.title;
      Offered([c], all) ==
        if all || c.shortlisted then
          [if c.recommended then c.id + " (" + ranked + ")" + " [recommended]" else c.id + " (" + ranked + ")"]
        else []
  {
    assert [c][..0] == [];
    assert Offered([], all) == [];
    assert c.id + " (" + (if c.rank > 0 then "#" + Decimal(c.rank) + " " + c.title else c.title) + ")" + ""
        == c.id + " (" + (if c.rank > 0 then "#" + Decimal(c.rank) + " " + c.title else c.title) + ")";
  }

  /** Only shortlisted candidates are offered, unless none is. */
  lemma OptionsMean(cs: seq<Candidate>)
    ensures FormatOptions(cs) == Offered(cs, forall i :: 0 <= i < |cs| ==> !cs[i].shortlisted)
  {}

  // ---------------------------------------------------------------- titles and numbers in the text

  lemma {:induction false} LastIndexAt(x: string, rest: string)
    requires '(' !in rest
    ensures LastIndex(x + "(rank " + rest, "(rank ") == |x|
    decreases |rest|
  {
    var s := x + "(rank " + rest;
    if rest == "" {
      assert s[|s| - 6..] == "(rank ";
    } else {
      var n := |rest| - 1;
      assert s[|s| - 6..][0] != '(' by {
        if |rest| >= 6 { assert s[|s| - 6] == rest[|rest| - 6] && rest[|rest| - 6] in rest; }
        else { assert s[|s| - 6] == "(rank "[|rest|]; }
      }
      assert s[..|s| - 1] == x + "(rank " + rest[..n];
      assert forall c :: c in rest[..n] ==> c in rest;
      LastIndexAt(x, rest[..n]);
    }
  }

  /** "Title (rank n)" names the title. */
  lemma RankedTitle(title: string, rest: string)
    requires title != "" && Trimmed(title) && title[0] != '#'
    requires rest != "" && !IsSpace(rest[|rest| - 1]) && '(' !in rest
    ensures TitleFrom(title + " (rank " + rest) == title
  {
    var s := title + " (rank " + rest;
    assert s[0] == title[0] && s[|s| - 1] == rest[|rest| - 1];
    TrimSpaceFacts(s);
    assert s == (title + " ") + "(rank " + rest;
    LastIndexAt(title + " ", rest);
    assert s[..|title| + 1] == "" + title + " ";
    TrimPadded("", title, " ");
  }

  lemma AtoiSigned(sign: char, d: string, n: nat)
    requires (sign == '+' || sign == '-') && d != "" && !IsSpace(d[|d| - 1]) && Digits(d) == Some(n)
    ensures TrimSpace([sign] + d) == [sign] + d && Atoi([sign] + d) == Some(if sign == '-' then 0 - n else n)
  {
    assert ([sign] + d)[1..] == d;
    TrimSpaceFacts([sign] + d);
  }

  /** A rank may be given as a number or as its digits, with or without a sign. */
  lemma MetaIntMeans(meta: map<string, MetaValue>, key: string, n: nat)
    ensures key !in meta ==> MetaInt(meta, key) == 0
    ensures key in meta && meta[key] == Num(n) ==> MetaInt(meta, key) == n
    ensures key in meta && meta[key] in {Str(Decimal(n)), Str("+" + Decimal(n))} ==> MetaInt(meta, key) == n
    ensures key in meta && meta[key] == Str("-" + Decimal(n)) ==> MetaInt(meta, key) == 0 - n
  {
    var d := Decimal(n);
    DigitsOfDecimal(n);
    AtoiDigits(d);
    assert d[|d| - 1] in d;
    AtoiSigned('+', d, n);
    AtoiSigned('-', d, n);
  }
}
