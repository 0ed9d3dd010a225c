/**
  The screen sequencer of script.js: `showNextQuestion`, the section
  visibility part of `celebrate`, and `handleLoadingSequence` with its four
  timed steps. Screens are the page's `.question-section` elements; a screen
  is visible when it does not carry the `hidden` class.

  The timed steps are an ordered list of (delay, action) pairs. What one
  action does to the page is the pure function `ApplyAction` on a
  `LoadingView`; the page's methods are tied to it, and the phase lemmas are
  proved about it.
 */
module Sequencer {
  import opened Wrappers
  import opened Dom

  datatype Screen = Question1 | Question2 | Question3 | Question4 | Loading | Celebration

  /** The section `getElementById('question' + k)` finds, if any. */
  function QuestionScreen(k: int): (s: Option<Screen>)
    ensures s.Some? <==> 1 <= k <= 4
    ensures s.Some? ==> s.value != Loading && s.value != Celebration
  {
    if k == 1 then Some(Question1)
    else if k == 2 then Some(Question2)
    else if k == 3 then Some(Question3)
    else if k == 4 then Some(Question4)
    else None
  }

  /** The progress bar: its width in percent, and whether the slow 5 s transition is set. */
  datatype Bar = Bar(widthPercent: nat, slowTransition: bool)

  datatype Action = AnimateBar | RevealNervousText | RevealReadyText | RevealFinalQuestion

  /** One `setTimeout` of the loading sequence: its delay in milliseconds from the start, and what it does. */
  datatype Step = Step(delayMs: nat, action: Action)

  const LOADING_SCHEDULE: seq<Step> := [
    Step(100, AnimateBar),
    Step(5100, RevealNervousText),
    Step(10100, RevealReadyText),
    Step(13100, RevealFinalQuestion)
  ]

  /** What the loading sequence reads and writes on the page. */
  datatype LoadingView = LoadingView(
    visible: set<Screen>,
    loadingText: Option<Element>,
    progressContainer: Option<Element>,
    progressBar: Option<Bar>,
    nervousText: Option<Element>,
    readyText: Option<Element>,
    hasNoButton: bool,
    runawayArmed: bool)

  /** The page right after `handleLoadingSequence` has reset it: only the loading
      section visible, bar at 0 %, loading caption and bar container shown,
      nervous and ready captions hidden. */
  predicate IsReset(v: LoadingView) {
    && v.visible == {Loading}
    && v.progressBar.Some? && v.progressBar.value.widthPercent == 0
    && (v.loadingText.Some? ==> !v.loadingText.value.hidden)
    && (v.progressContainer.Some? ==> !v.progressContainer.value.hidden)
    && (v.nervousText.Some? ==> v.nervousText.value.hidden)
    && (v.readyText.Some? ==> v.readyText.value.hidden)
  }

  /** The body of one timer callback. A caption the page lacks is skipped. */
  function ApplyAction(v: LoadingView, a: Action): LoadingView {
    match a
    case AnimateBar =>
      v.(progressBar := if v.progressBar.Some? then Some(Bar(100, true)) else None)
    case RevealNervousText =>
      v.(loadingText := Conceal(v.loadingText),
         progressContainer := Conceal(v.progressContainer),
         nervousText := Reveal(v.nervousText))
    case RevealReadyText =>
      v.(nervousText := Conceal(v.nervousText), readyText := Reveal(v.readyText))
    case RevealFinalQuestion =>
      v.(visible := v.visible - {Loading} + {Question4}, runawayArmed := v.runawayArmed || v.hasNoButton)
  }

  /** The callbacks of `steps` run one after the other, in list order. */
  function RunActions(v: LoadingView, steps: seq<Step>): LoadingView
    decreases |steps|
  {
    if steps == [] then v else RunActions(ApplyAction(v, steps[0].action), steps[1..])
  }

  lemma {:induction false} RunActionsAppend(v: LoadingView, steps: seq<Step>, step: Step)
    ensures RunActions(v, steps + [step]) == ApplyAction(RunActions(v, steps), step.action)
    decreases |steps|
  {
    if steps != [] {
      assert (steps + [step])[1..] == steps[1..] + [step];
      RunActionsAppend(ApplyAction(v, steps[0].action), steps[1..], step);
    }
  }

  /** The four timers fire strictly one after the other, at 100, 5100, 10100 and 13100 ms. */
  lemma LoadingScheduleOrdered()
    ensures |LOADING_SCHEDULE| == 4
    ensures forall i, j :: 0 <= i < j < |LOADING_SCHEDULE| ==>
      LOADING_SCHEDULE[i].delayMs < LOADING_SCHEDULE[j].delayMs
    ensures forall i :: 0 <= i < 4 ==>
      LOADING_SCHEDULE[i].delayMs == [100, 5100, 10100, 13100][i]
  {
  }

  /** The phases a reset page goes through, one per timer, ending with only
      question 4 visible and the runaway button armed when the page has one. */
  lemma LoadingPhases(v: LoadingView)
    requires IsReset(v)
    ensures var p1 := RunActions(v, LOADING_SCHEDULE[..1]);
      p1.visible == {Loading} && p1.progressBar == Some(Bar(100, true))
    ensures var p2 := RunActions(v, LOADING_SCHEDULE[..2]);
      && p2.visible == {Loading}
      && (p2.loadingText.Some? ==> p2.loadingText.value.hidden)
      && (p2.progressContainer.Some? ==> p2.progressContainer.value.hidden)
      && (p2.nervousText.Some? ==> !p2.nervousText.value.hidden)
      && (p2.readyText.Some? ==> p2.readyText.value.hidden)
    ensures var p3 := RunActions(v, LOADING_SCHEDULE[..3]);
      && p3.visible == {Loading}
      && (p3.nervousText.Some? ==> p3.nervousText.value.hidden)
      && (p3.readyText.Some? ==> !p3.readyText.value.hidden)
    ensures var p4 := RunActions(v, LOADING_SCHEDULE);
      && p4.visible == {Question4}
      && p4.runawayArmed == (v.runawayArmed || v.hasNoButton)
  {
    var s := LOADING_SCHEDULE;
    assert s[..1] == [] + [s[0]] && s[..2] == s[..1] + [s[1]];
    assert s[..3] == s[..2] + [s[2]] && s == s[..3] + [s[3]];
    RunActionsAppend(v, [], s[0]);
    RunActionsAppend(v, s[..1], s[1]);
    RunActionsAppend(v, s[..2], s[2]);
    RunActionsAppend(v, s[..3], s[3]);
  }

  /** How a `showNextQuestion` call ended. */
  datatype Navigation =
    | Shown                           // the requested question is the one visible section
    | Diverted(schedule: seq<Step>)   // question 4: the loading sequence started these timers
    | Failed                          // no such question section: the lookup threw after all were hidden

  /** The page: its sections, the header title and the loading elements. */
  class Page {
    /** The `.question-section` elements present, in document order. */
    const sections: seq<Screen>
    var visible: set<Screen>
    /** The text of the `valentineTitle` header. */
    var title: string
    var loadingText: Option<Element>
    var progressContainer: Option<Element>
    var progressBar: Option<Bar>
    var nervousText: Option<Element>
    var readyText: Option<Element>
    /** Whether the page has the `noBtn4` button. */
    const hasNoButton: bool
    /** Whether `makeButtonRunAway` has been applied to that button. */
    var runawayArmed: bool

    ghost predicate Valid()
      reads this
    {
      && (forall s :: s in visible ==> s in sections)
      && Question1 in sections && Question2 in sections && Question3 in sections
      && Question4 in sections && Celebration in sections
      && (runawayArmed ==> hasNoButton)
    }

    function View(): LoadingView
      reads this
    {
      LoadingView(visible, loadingText, progressContainer, progressBar, nervousText, readyText,
                  hasNoButton, runawayArmed)
    }

    /** The page when the entry overlay has been dismissed: question 1 is the visible screen. */
    constructor(sections: seq<Screen>, title: string, loadingText: Option<Element>,
                progressContainer: Option<Element>, progressBar: Option<Bar>,
                nervousText: Option<Element>, readyText: Option<Element>, hasNoButton: bool)
      requires Question1 in sections && Question2 in sections && Question3 in sections
      requires Question4 in sections && Celebration in sections
      ensures Valid() && visible == {Question1} && !runawayArmed
      ensures this.sections == sections && this.title == title && this.hasNoButton == hasNoButton
      ensures this.loadingText == loadingText && this.progressContainer == progressContainer
      ensures this.progressBar == progressBar && this.nervousText == nervousText
      ensures this.readyText == readyText
    {
      this.sections := sections;
      this.visible := {Question1};
      this.title := title;
      this.loadingText := loadingText;
      this.progressContainer := progressContainer;
      this.progressBar := progressBar;
      this.nervousText := nervousText;
      this.readyText := readyText;
      this.hasNoButton := hasNoButton;
      this.runawayArmed := false;
    }

    /** `querySelectorAll('.question-section').forEach(q => q.classList.add('hidden'))`. */
    method HideAllSections()
      requires Valid()
      modifies this`visible
      ensures Valid() && visible == {}
    {
      var i := 0;
      while i < |sections|
        invariant 0 <= i <= |sections|
        invariant forall s :: s in visible ==> s in sections[i..]
      {
        assert forall s :: s in sections[i..] ==> s == sections[i] || s in sections[i + 1..];
        visible := visible - {sections[i]};
        i := i + 1;
      }
    }

    /** `showNextQuestion(k)`. Question 4 goes through the loading sequence;
        any other question number that has a section becomes the only visible
        screen, and leaving question 1 clears the header title. */
    method ShowNextQuestion(k: int) returns (result: Navigation)
      requires Valid()
      modifies this
      ensures Valid()
      ensures k == 4 ==> result.Diverted? && LoadingStarted(old(View()), result.schedule)
      ensures k == 4 ==> title == old(title)
      ensures k != 4 ==> result == (if 1 <= k <= 3 then Shown else Failed)
      ensures k != 4 ==> visible == (if 1 <= k <= 3 then {QuestionScreen(k).value} else {})
      ensures k != 4 ==> title == (if 2 <= k <= 3 then "" else old(title))
      ensures k != 4 ==> View() == old(View()).(visible := visible)
    {
      if k == 4 {
        var schedule := HandleLoadingSequence();
        return Diverted(schedule);
      }
      HideAllSections();
      var target := QuestionScreen(k);
      if target.None? {
        return Failed;
      }
      visible := visible + {target.value};
      if k > 1 {
        title := "";
      }
      return Shown;
    }

    /** The outcome of `handleLoadingSequence` on a page that looked like `before`:
        either the fallback (question 4 shown at once, no timers) or the reset
        page with the four timers scheduled. */
    ghost predicate LoadingStarted(before: LoadingView, schedule: seq<Step>)
      reads this
    {
      var hasLoading := Loading in sections && before.progressBar.Some?;
      && (!hasLoading ==> schedule == [] && View() == before.(visible := {Question4}))
      && (hasLoading ==>
            schedule == LOADING_SCHEDULE && IsReset(View())
            && View() == before.(
                 visible := {Loading},
                 progressBar := Some(before.progressBar.value.(widthPercent := 0)),
                 loadingText := Reveal(before.loadingText),
                 progressContainer := Reveal(before.progressContainer),
                 nervousText := Conceal(before.nervousText),
                 readyText := Conceal(before.readyText)))
    }

    /** `handleLoadingSequence`: hide every section, then either fall back to
        question 4 when the loading section or the progress bar is missing, or
        reset the loading screen and return the timers it schedules. */
    method HandleLoadingSequence() returns (schedule: seq<Step>)
      requires Valid()
      modifies this
      ensures Valid() && title == old(title)
      ensures LoadingStarted(old(View()), schedule)
    {
      HideAllSections();
      if Loading !in sections || progressBar.None? {
        visible := visible + {Question4};
        return [];
      }
      visible := visible + {Loading};
      progressBar := Some(progressBar.value.(widthPercent := 0));
      nervousText := Conceal(nervousText);
      readyText := Conceal(readyText);
      loadingText := Reveal(loadingText);
      progressContainer := Reveal(progressContainer);
      schedule := LOADING_SCHEDULE;
    }

    /** One timer callback of the loading sequence. */
    method RunAction(a: Action)
      requires Valid()
      modifies this
      ensures Valid() && title == old(title)
      ensures View() == ApplyAction(old(View()), a)
    {
      match a
      case AnimateBar =>
        if progressBar.Some? {
          progressBar := Some(Bar(100, true));
        }
      case RevealNervousText =>
        loadingText := Conceal(loadingText);
        progressContainer := Conceal(progressContainer);
        nervousText := Reveal(nervousText);
      case RevealReadyText =>
        nervousText := Conceal(nervousText);
        readyText := Reveal(readyText);
      case RevealFinalQuestion =>
        visible := visible - {Loading};
        visible := visible + {Question4};
        if hasNoButton {
          runawayArmed := true;
        }
    }

    /** The timers of `schedule` firing in order, with nothing in between. */
    method RunSchedule(schedule: seq<Step>)
      requires Valid()
      modifies this
      ensures Valid() && title == old(title)
      ensures View() == RunActions(old(View()), schedule)
    {
      ghost var start := View();
      for i := 0 to |schedule|
        invariant Valid() && title == old(title)
        invariant View() == RunActions(start, schedule[..i])
      {
        RunAction(schedule[i].action);
        RunActionsAppend(start, schedule[..i], schedule[i]);
        assert schedule[..i + 1] == schedule[..i] + [schedule[i]];
      }
      assert schedule[..|schedule|] == schedule;
    }

    /** The section part of `celebrate`: clear the title, hide every section and show the celebration. */
    method Celebrate()
      requires Valid()
      modifies this
      ensures Valid() && visible == {Celebration} && title == ""
      ensures View() == old(View()).(visible := {Celebration})
    {
      title := "";
      HideAllSections();
      visible := visible + {Celebration};
    }
  }
}
