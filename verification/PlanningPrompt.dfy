/** The two prompt builders, one behind the HTTP API and one in the command-line ceremony, and
    how they relate (internal/api/handlers_planning.go, cmd/chum/ceremony_mode.go). */
module PlanningPrompt {
  import opened Options
  import opened Text
  import opened Ordering
  import opened PlanningTrace

  datatype Phase = Processing | Agreed | TimedOut | Exhausted | Questioning | Greenlight | Selecting | Completed

  datatype Signal = NoSignal | AnswerSignal | GreenlightSignal | ItemSelectedSignal

  /** The text that depends on the trace; the fixed wording of the other phases is omitted. */
  datatype Shown = Nothing | Asked(question: string, recommendation: string, context: string) | Summary(text: string)

  /** The selected item; both texts are empty when there is none. */
  datatype Item = Item(id: string, title: string)

  const NO_ITEM := Item("", "")

  /** `selected` is filled in once the terminal events were ruled out. */
  datatype Prompt = Prompt(
    phase: Phase, signal: Signal, cycle: int, selected: Item, options: seq<string>, shown: Shown)

  predicate Running(status: string) {
    EqualFold(TrimSpace(status), "Running")
  }

  /** The candidate list both builders end up with; CandidateOrderUnique says it is determined. */
  ghost function CandidatesOf(es: seq<Event>, cycle: int): (r: seq<Candidate>)
    ensures IsCandidateList(Accumulate(es, cycle), r)
  {
    SomeCandidateList(es, cycle);
    var r :| IsCandidateList(Accumulate(es, cycle), r);
    r
  }

  lemma SomeCandidateList(es: seq<Event>, cycle: int)
    ensures exists r :: IsCandidateList(Accumulate(es, cycle), r)
  {
    AccumulateKeyed(es, cycle);
    var ids := SomeOrder(Accumulate(es, cycle).Keys);
    CandidateListExists(Accumulate(es, cycle), ids);
  }

  lemma {:induction false} SomeOrder(s: set<string>) returns (ids: seq<string>)
    ensures Distinct(ids) && forall x :: x in ids <==> x in s
    decreases s
  {
    if s == {} {
      ids := [];
    } else {
      var x :| x in s;
      var rest := SomeOrder(s - {x});
      ids := [x] + rest;
    }
  }

  // ---------------------------------------------------------------- the two builders

  function Terminal(phase: Phase, cycle: int): Prompt {
    Prompt(phase, NoSignal, cycle, NO_ITEM, [], Nothing)
  }

  function Asking(cycle: int, item: Item, q: Question): Prompt {
    Prompt(Questioning, AnswerSignal, cycle, item, q.options,
           Asked(TrimSpace(q.question), TrimSpace(q.recommendation), TrimSpace(q.context)))
  }

  /** What both builders do once no terminal event was found. */
  ghost function Open(es: seq<Event>, status: string, cycle: int, item: Item): Prompt {
    var selected := SelectedId(es, cycle);
    var questions := LatestQuestions(es, cycle, selected);
    var answers := Answers(es, cycle, selected);
    if questions != [] && answers < |questions| then Asking(cycle, item, questions[answers])
    else if questions != [] && !HasType(es, cycle, "greenlight_decision") && HasSummary(es, cycle, selected) then
      Prompt(Greenlight, GreenlightSignal, cycle, item, ["GO", "REALIGN"],
             Summary(SummaryPrompt(es, cycle, selected)))
    else if selected == "" && CandidatesOf(es, cycle) != [] then
      Prompt(Selecting, ItemSelectedSignal, cycle, item, FormatOptions(CandidatesOf(es, cycle)), Nothing)
    else
      Prompt(if Running(status) then Processing else Completed, NoSignal, cycle, item, [], Nothing)
  }

  /** The API has no selected item without an id. */
  function ApiItem(es: seq<Event>, cycle: int): Item {
    if SelectedId(es, cycle) == "" then NO_ITEM else Item(SelectedId(es, cycle), ApiTitle(es, cycle))
  }

  function CliItem(es: seq<Event>, cycle: int): Item {
    Item(SelectedId(es, cycle), CliTitle(es, cycle))
  }

  ghost function ApiPrompt(es: seq<Event>, status: string): Prompt {
    var cycle := LatestCycle(es);
    if es == [] then Terminal(Processing, 0)
    else if HasType(es, cycle, "plan_agreed") then Terminal(Agreed, cycle)
    else if HasType(es, cycle, "planning_signal_timeout") then Terminal(TimedOut, cycle)
    else if HasType(es, cycle, "planning_exhausted") then Terminal(Exhausted, cycle)
    else Open(es, status, cycle, ApiItem(es, cycle))
  }

  ghost function CliPrompt(es: seq<Event>, status: string): Prompt {
    var cycle := LatestCycle(es);
    if es == [] then Terminal(Processing, 0)
    else if HasType(es, cycle, "plan_agreed") then Terminal(Agreed, cycle)
    else if HasType(es, cycle, "planning_exhausted") then Terminal(Exhausted, cycle)
    else Open(es, status, cycle, CliItem(es, cycle))
  }

  lemma SelectedIdTrimmed(es: seq<Event>, cycle: int)
    ensures TrimSpace(SelectedId(es, cycle)) == SelectedId(es, cycle)
  {
    var last := Last(es, e => IsSelection(e, cycle));
    TrimSpaceFacts("");
    if last.Some? {
      TrimSpaceFacts(last.value.optionId);
      TrimSpaceFacts(TrimSpace(last.value.optionId));
      TrimSpaceFacts(last.value.taskId);
      TrimSpaceFacts(TrimSpace(last.value.taskId));
    }
  }

  // ---------------------------------------------------------------- agreement

  /** Both programs read the same item from the selection, if any.  Without an id the API drops the
      title; without a summary one falls back to the task id and the other to the item id. */
  predicate SameSelection(es: seq<Event>, cycle: int) {
    match Last(es, e => IsSelection(e, cycle))
    case None => true
    case Some(e) =>
      if OwnId(e) == "" then TrimSpace(e.summary) == ""
      else TrimSpace(e.summary) != "" || TrimSpace(e.optionId) in {"", TrimSpace(e.taskId)}
  }

  lemma ItemsAgree(es: seq<Event>, cycle: int)
    ensures ApiItem(es, cycle) == CliItem(es, cycle) <==> SameSelection(es, cycle)
  {}

  lemma OpenCarriesItem(es: seq<Event>, status: string, cycle: int, item: Item)
    ensures Open(es, status, cycle, item).selected == item
    ensures !Open(es, status, cycle, item).phase.TimedOut? && !Open(es, status, cycle, item).phase.Exhausted?
  {}

  /** Up to fixed wording the builders return the same prompt exactly when the latest cycle was agreed, or has no
      timeout event and either is exhausted or has a selection that both read the same. */
  lemma BuildersAgree(es: seq<Event>, status: string)
    ensures
      var cycle := LatestCycle(es);
      ApiPrompt(es, status) == CliPrompt(es, status) <==>
        || HasType(es, cycle, "plan_agreed")
        || (!HasType(es, cycle, "planning_signal_timeout")
            && (HasType(es, cycle, "planning_exhausted") || SameSelection(es, cycle)))
  {
    var cycle := LatestCycle(es);
    ItemsAgree(es, cycle);
    OpenCarriesItem(es, status, cycle, ApiItem(es, cycle));
    OpenCarriesItem(es, status, cycle, CliItem(es, cycle));
  }

  /** On phase, expected signal, cycle and options, and on the text shown, they agree exactly when
      there is no timeout event or the cycle was agreed, whatever was selected. */
  lemma BuildersAgreeButForItem(es: seq<Event>, status: string)
    ensures
      var cycle := LatestCycle(es);
      ApiPrompt(es, status).(selected := NO_ITEM) == CliPrompt(es, status).(selected := NO_ITEM) <==>
        HasType(es, cycle, "plan_agreed") || !HasType(es, cycle, "planning_signal_timeout")
  {
    var cycle := LatestCycle(es);
    OpenCarriesItem(es, status, cycle, CliItem(es, cycle));
  }

  lemma OnlyType(e: Event, name: string, other: string)
    requires IsType(e, name)
    ensures HasType([e], e.cycle, other) <==> name == other
  {
    var test := x => IsTypeIn(x, e.cycle, other);
    assert [e][..0] == [] && Last([], test) == None;
    assert Last([e], test) == if test(e) then Some(e) else None;
  }

  lemma OnlyCycle(e: Event)
    requires e.cycle >= 0
    ensures LatestCycle([e]) == e.cycle
  {
    assert [e][..0] == [];
  }

  /** A trace on which they disagree: one timeout event. */
  lemma BuildersDisagree(e: Event, status: string)
    requires e.cycle >= 0 && IsType(e, "planning_signal_timeout")
    ensures ApiPrompt([e], status).phase == TimedOut && ApiPrompt([e], status) != CliPrompt([e], status)
  {
    OnlyCycle(e);
    OnlyType(e, "planning_signal_timeout", "planning_signal_timeout");
    OnlyType(e, "planning_signal_timeout", "plan_agreed");
    BuildersAgree([e], status);
  }

  /** Another one: a selection without a summary whose option is not its task. */
  lemma TitlesDisagree(e: Event, status: string)
    requires e.cycle >= 0 && IsType(e, "item_selected") && TrimSpace(e.summary) == ""
    requires TrimSpace(e.optionId) !in {"", TrimSpace(e.taskId)}
    ensures ApiPrompt([e], status) != CliPrompt([e], status)
  {
    OnlyCycle(e);
    OnlyType(e, "item_selected", "plan_agreed");
    OnlyType(e, "item_selected", "planning_exhausted");
    assert Last([e], x => IsSelection(x, e.cycle)) == Some(e);
    BuildersAgree([e], status);
  }

  // ---------------------------------------------------------------- observation

  /** A control event: recorded without a cycle, with a type of its own. */
  predicate IsControl(e: Event) {
    e.cycle == 0 && HasPrefix(TrimSpace(e.eventType), "control_")
  }

  function Strip(es: seq<Event>): seq<Event> {
    if es == [] then []
    else Strip(es[..|es| - 1]) + if IsControl(es[|es| - 1]) then [] else [es[|es| - 1]]
  }

  lemma {:induction false} StripLast(es: seq<Event>, test: Event -> bool)
    requires forall e :: IsControl(e) ==> !test(e)
    ensures Last(Strip(es), test) == Last(es, test)
  {
    if es != [] {
      var init := es[..|es| - 1];
      StripLast(init, test);
      assert !IsControl(es[|es| - 1]) ==> Strip(es)[..|Strip(es)| - 1] == Strip(init);
      assert IsControl(es[|es| - 1]) ==> Strip(es) == Strip(init);
    }
  }

  lemma {:induction false} StripCount(es: seq<Event>, test: Event -> bool)
    requires forall e :: IsControl(e) ==> !test(e)
    ensures CountOf(Strip(es), test) == CountOf(es, test)
  {
    if es != [] {
      var init := es[..|es| - 1];
      StripCount(init, test);
      assert !IsControl(es[|es| - 1]) ==> Strip(es)[..|Strip(es)| - 1] == Strip(init);
      assert IsControl(es[|es| - 1]) ==> Strip(es) == Strip(init);
    }
  }

  lemma {:induction false} StripCycle(es: seq<Event>)
    ensures LatestCycle(Strip(es)) == LatestCycle(es) >= 0
  {
    if es != [] {
      var init := es[..|es| - 1];
      StripCycle(init);
      assert !IsControl(es[|es| - 1]) ==> Strip(es)[..|Strip(es)| - 1] == Strip(init);
      assert IsControl(es[|es| - 1]) ==> Strip(es) == Strip(init);
    }
  }

  lemma ControlIsOther(e: Event, name: string)
    requires IsControl(e) && |name| >= 2 && (name[0] != 'c' || name[1] != 'o')
    ensures !IsType(e, name)
  {
    assert "control_"[0] == 'c' && "control_"[1] == 'o';
  }

  lemma ControlIsNoCandidate(e: Event, cycle: int)
    requires IsControl(e)
    ensures !IsCandidate(e, cycle)
  {
    ControlIsOther(e, "candidate_ranked");
    ControlIsOther(e, "candidate_pruned");
    ControlIsOther(e, "candidate_with_implications");
  }

  lemma AccumulateLast(es: seq<Event>, e: Event, cycle: int)
    ensures
      var acc := Accumulate(es, cycle);
      Accumulate(es + [e], cycle)
      == if IsCandidate(e, cycle) then acc[OwnId(e) := Merge(At(acc, OwnId(e)), e)] else acc
  {
    assert (es + [e])[..|es|] == es;
  }

  lemma {:induction false} StripCandidates(es: seq<Event>, cycle: int)
    ensures Accumulate(Strip(es), cycle) == Accumulate(es, cycle)
  {
    if es != [] {
      var init, e := es[..|es| - 1], es[|es| - 1];
      StripCandidates(init, cycle);
      assert es == init + [e];
      AccumulateLast(init, e, cycle);
      if IsControl(e) {
        ControlIsNoCandidate(e, cycle);
        assert Strip(es) == Strip(init);
      } else {
        AccumulateLast(Strip(init), e, cycle);
      }
    }
  }

  lemma StripHasType(es: seq<Event>, cycle: int, name: string)
    requires |name| >= 2 && (name[0] != 'c' || name[1] != 'o')
    ensures HasType(Strip(es), cycle, name) == HasType(es, cycle, name)
  {
    forall e | IsControl(e) ensures !IsTypeIn(e, cycle, name) { ControlIsOther(e, name); }
    StripLast(es, e => IsTypeIn(e, cycle, name));
  }

  lemma StripSelection(es: seq<Event>, cycle: int)
    ensures SelectedId(Strip(es), cycle) == SelectedId(es, cycle)
    ensures ApiItem(Strip(es), cycle) == ApiItem(es, cycle) && CliItem(Strip(es), cycle) == CliItem(es, cycle)
  {
    forall e | IsControl(e) ensures !IsSelection(e, cycle) { ControlIsOther(e, "item_selected"); }
    StripLast(es, e => IsSelection(e, cycle));
  }

  lemma StripQuestions(es: seq<Event>, cycle: int, selected: string)
    ensures LatestQuestions(Strip(es), cycle, selected) == LatestQuestions(es, cycle, selected)
    ensures Answers(Strip(es), cycle, selected) == Answers(es, cycle, selected)
  {
    forall e | IsControl(e) ensures !IsQuestions(e, cycle, selected) { ControlIsOther(e, "questions_result"); }
    StripLast(es, e => IsQuestions(e, cycle, selected));
    forall e | IsControl(e) ensures !IsAnswer(e, cycle, selected) { ControlIsOther(e, "answer_recorded"); }
    StripCount(es, e => IsAnswer(e, cycle, selected));
  }

  lemma StripSummary(es: seq<Event>, cycle: int, selected: string)
    ensures HasSummary(Strip(es), cycle, selected) == HasSummary(es, cycle, selected)
    ensures SummaryPrompt(Strip(es), cycle, selected) == SummaryPrompt(es, cycle, selected)
  {
    forall e | IsControl(e) ensures !IsSummary(e, cycle, selected) && !IsSummaryText(e, cycle, selected) {
      ControlIsOther(e, "plan_summary_result");
      ControlIsOther(e, "tool_result");
    }
    StripLast(es, e => IsSummary(e, cycle, selected));
    StripLast(es, e => IsSummaryText(e, cycle, selected));
  }

  lemma StripOpen(es: seq<Event>, status: string, cycle: int, item: Item)
    ensures Open(Strip(es), status, cycle, item) == Open(es, status, cycle, item)
  {
    var selected := SelectedId(es, cycle);
    StripSelection(es, cycle);
    StripQuestions(es, cycle, selected);
    StripSummary(es, cycle, selected);
    StripHasType(es, cycle, "greenlight_decision");
    StripCandidates(es, cycle);
    CandidateOrderUnique(Accumulate(es, cycle), CandidatesOf(es, cycle), CandidatesOf(Strip(es), cycle));
  }

  /** Observation does not disturb planning: control events, any number of them anywhere in the
      trace, change nothing either builder reports, as long as some other event is there. */
  lemma ControlEventsInvisible(es: seq<Event>, status: string)
    requires Strip(es) != []
    ensures ApiPrompt(es, status) == ApiPrompt(Strip(es), status)
    ensures CliPrompt(es, status) == CliPrompt(Strip(es), status)
  {
    assert es != [];
    StripCycle(es);
    var cycle := LatestCycle(es);
    StripHasType(es, cycle, "plan_agreed");
    StripHasType(es, cycle, "planning_signal_timeout");
    StripHasType(es, cycle, "planning_exhausted");
    StripSelection(es, cycle);
    StripOpen(es, status, cycle, ApiItem(es, cycle));
    StripOpen(es, status, cycle, CliItem(es, cycle));
  }

  /** A trace of nothing but control events is no longer an empty trace: the prompt then depends
      on the workflow status, and matches the empty trace's exactly while that is running. */
  lemma OnlyControlEvents(es: seq<Event>, status: string)
    requires es != [] && Strip(es) == []
    ensures ApiPrompt(es, status) == ApiPrompt([], status) <==> Running(status)
    ensures CliPrompt(es, status) == CliPrompt([], status) <==> Running(status)
  {
    StripCycle(es);
    StripHasType(es, 0, "plan_agreed");
    StripHasType(es, 0, "planning_signal_timeout");
    StripHasType(es, 0, "planning_exhausted");
    StripSelection(es, 0);
    StripOpen(es, status, 0, NO_ITEM);
    EmptyOpen(status);
  }

  lemma NoCandidates()
    ensures CandidatesOf([], 0) == []
  {
    CandidateOrderUnique(Accumulate([], 0), CandidatesOf([], 0), []);
  }

  lemma EmptyOpen(status: string)
    ensures Open([], status, 0, NO_ITEM) == Terminal(if Running(status) then Processing else Completed, 0)
  {
    NoCandidates();
  }

  // ---------------------------------------------------------------- answering questions

  /** The event records an answer in the latest cycle, about the selected item. */
  predicate IsAnswerTo(es: seq<Event>, a: Event) {
    IsAnswer(a, LatestCycle(es), SelectedId(es, LatestCycle(es)))
  }

  /** With `k` answers recorded question `k` is shown, and `next` shows question `k + 1` about the
      same item, or has left the questioning phase after the last. */
  ghost predicate MovesOn(es: seq<Event>, item: Item, now: Prompt, next: Prompt) {
    var cycle := LatestCycle(es);
    var selected := SelectedId(es, cycle);
    var questions, k := LatestQuestions(es, cycle, selected), Answers(es, cycle, selected);
    && k < |questions| && now == Asking(cycle, item, questions[k])
    && if k + 1 < |questions| then next == Asking(cycle, item, questions[k + 1]) else !next.phase.Questioning?
  }

  /** In the questioning phase of either program the next answer moves on to the next question. */
  lemma AnswersAdvance(es: seq<Event>, status: string, a: Event)
    requires IsAnswerTo(es, a)
    ensures CliPrompt(es, status).phase.Questioning? ==>
      MovesOn(es, CliItem(es, LatestCycle(es)), CliPrompt(es, status), CliPrompt(es + [a], status))
    ensures ApiPrompt(es, status).phase.Questioning? ==>
      MovesOn(es, ApiItem(es, LatestCycle(es)), ApiPrompt(es, status), ApiPrompt(es + [a], status))
  {
    var cycle := LatestCycle(es);
    SameCycleKept(es, a);
    AnswerKeepsType(es, a, cycle, "plan_agreed");
    AnswerKeepsType(es, a, cycle, "planning_exhausted");
    AnswerKeepsType(es, a, cycle, "planning_signal_timeout");
    AnswerKeepsQuestions(es, a, cycle, SelectedId(es, cycle));
    if CliPrompt(es, status).phase.Questioning? { OpenMovesOn(es, status, a, CliItem(es, cycle)); }
    if ApiPrompt(es, status).phase.Questioning? { OpenMovesOn(es, status, a, ApiItem(es, cycle)); }
  }

  lemma OpenMovesOn(es: seq<Event>, status: string, a: Event, item: Item)
    requires IsAnswerTo(es, a) && Open(es, status, LatestCycle(es), item).phase.Questioning?
    ensures MovesOn(es, item, Open(es, status, LatestCycle(es), item), Open(es + [a], status, LatestCycle(es), item))
  {
    var cycle := LatestCycle(es);
    AnswerKeepsQuestions(es, a, cycle, SelectedId(es, cycle));
    AnswerCounts(es, a, cycle, SelectedId(es, cycle));
    OpenAsks(es, status, cycle, item);
    OpenAsks(es + [a], status, cycle, item);
  }

  /** The questioning phase is a matter of the questions and the number of answers. */
  lemma OpenAsks(es: seq<Event>, status: string, cycle: int, item: Item)
    ensures
      var selected := SelectedId(es, cycle);
      var questions, k := LatestQuestions(es, cycle, selected), Answers(es, cycle, selected);
      if k < |questions| then Open(es, status, cycle, item) == Asking(cycle, item, questions[k])
      else !Open(es, status, cycle, item).phase.Questioning?
  {}

  lemma SameCycleKept(es: seq<Event>, a: Event)
    requires a.cycle == LatestCycle(es)
    ensures LatestCycle(es + [a]) == LatestCycle(es)
  {
    assert (es + [a])[..|es|] == es;
  }

  lemma AnswerCounts(es: seq<Event>, a: Event, cycle: int, selected: string)
    requires IsAnswer(a, cycle, selected)
    ensures Answers(es + [a], cycle, selected) == Answers(es, cycle, selected) + 1
  {
    assert (es + [a])[..|es|] == es;
  }

  lemma LastOther(es: seq<Event>, e: Event, test: Event -> bool)
    requires !test(e)
    ensures Last(es + [e], test) == Last(es, test)
  {
    assert (es + [e])[..|es|] == es;
  }

  lemma AnswerKeepsType(es: seq<Event>, a: Event, cycle: int, name: string)
    requires IsType(a, "answer_recorded") && name != "answer_recorded"
    ensures HasType(es + [a], cycle, name) == HasType(es, cycle, name)
  {
    LastOther(es, a, e => IsTypeIn(e, cycle, name));
  }

  lemma AnswerKeepsQuestions(es: seq<Event>, a: Event, cycle: int, selected: string)
    requires IsType(a, "answer_recorded")
    ensures SelectedId(es + [a], cycle) == SelectedId(es, cycle)
    ensures ApiItem(es + [a], cycle) == ApiItem(es, cycle) && CliItem(es + [a], cycle) == CliItem(es, cycle)
    ensures LatestQuestions(es + [a], cycle, selected) == LatestQuestions(es, cycle, selected)
  {
    LastOther(es, a, e => IsSelection(e, cycle));
    LastOther(es, a, e => IsQuestions(e, cycle, selected));
  }
}
