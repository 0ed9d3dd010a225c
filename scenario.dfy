/**
  The whole interaction as the page's handlers drive it: the countdown runs
  out, question 1 is answered, question 2 is answered wrongly three times and
  then correctly, question 3 leads through the loading sequence to question
  4, and the affirmative answer there celebrates. Only the components'
  contracts are used.
 */
module Scenario {
  import opened Wrappers
  import opened Dom
  import opened Sequencer
  import opened Escalation
  import Countdown

  /** The countdown of a page that has both elements runs five ticks and reveals the yes button. */
  method CountdownRunsOut() returns (ticks: nat, yesVisible: bool)
    ensures ticks == 5 && yesVisible
  {
    var hidden := Some(Element(true, ""));
    var countdown := new Countdown.Countdown(hidden, hidden);
    countdown.Start();
    ticks := countdown.RunToEnd();
    yesVisible := !countdown.yesButton.value.hidden;
  }

  /** Three wrong answers and then the right one. */
  method AnswerSecondQuestion(page: Page, q: SecondQuestion) returns (choice: LoveChoice)
    requires page.Valid()
    modifies page
    ensures page.Valid() && page.visible == {Question3} && page.title == ""
    ensures page.View() == old(page.View()).(visible := {Question3})
    ensures choice.wrongAnswerClicks == 3 && !choice.wrongButtonDisplayed
    ensures choice.correctContent == ArrowContainer(Framed(Label(LOCKED_TEXT, true), 3))
  {
    var hidden := Some(Element(true, ""));
    choice := new LoveChoice(q, page, hidden, hidden, Some(""), hidden);
    choice.HandleLoveChoice(false);
    choice.HandleLoveChoice(false);
    choice.HandleLoveChoice(false);
    choice.HandleLoveChoice(true);
  }

  /** From question 3 through the loading screen to question 4. */
  method LoadingToFinalQuestion(page: Page) returns (nav: Navigation)
    requires page.Valid() && Loading in page.sections && page.progressBar.Some? && page.hasNoButton
    modifies page
    ensures page.Valid() && page.visible == {Question4} && page.runawayArmed
    ensures nav == Diverted(LOADING_SCHEDULE)
  {
    nav := page.ShowNextQuestion(4);
    ghost var reset := page.View();
    page.RunSchedule(nav.schedule);
    LoadingPhases(reset);
  }

  /** The handlers in the order the visitor triggers them, on a page that has all its elements. */
  method EndToEnd(q: SecondQuestion) returns (clicks: nat, finalScreens: set<Screen>, armed: bool)
    ensures clicks == 3 && finalScreens == {Celebration} && armed
  {
    var hidden := Some(Element(true, ""));
    var page := new Page([Question1, Question2, Question3, Loading, Question4, Celebration], "Moja malena...",
                         hidden, hidden, Some(Bar(0, false)), hidden, hidden, true);
    var ticks, yesVisible := CountdownRunsOut();
    var nav := page.ShowNextQuestion(2);
    var choice := AnswerSecondQuestion(page, q);
    nav := LoadingToFinalQuestion(page);
    armed := page.runawayArmed;
    page.Celebrate();
    clicks, finalScreens := choice.wrongAnswerClicks, page.visible;
  }
}
