/**
  The second question's escalation state machine (`handleLoveChoice` and the
  global `wrongAnswerClicks` in script.js). Every wrong click increments the
  counter; the wrong button's label, the reaction shown, the correct button's
  scale, the gap between the buttons, the correct button's arrow-framed
  content and the lock-in from three clicks are all functions of the counter
  and the configuration.
 */
module Escalation {
  import opened Wrappers
  import opened Dom
  import Sequencer

  datatype Reaction = Reaction(text: string, image: string)

  /** The three optional reaction slots `bad1`, `bad2`, `bad3`. */
  datatype Reactions = Reactions(bad1: Option<Reaction>, bad2: Option<Reaction>, bad3: Option<Reaction>)

  /** `config.questions.second`, as far as the state machine reads it. */
  datatype SecondQuestion = SecondQuestion(
    startText: string,
    nextBtn: string,
    nextBtnLevels: Option<seq<string>>,
    reactions: Option<Reactions>)

  /** The glyph of the leading arrows, which point right (U+27A4). */
  const RIGHT_ARROW: string := "\U{27A4}"
  /** The glyph of the trailing arrows, which point left (U+25C4). */
  const LEFT_ARROW: string := "\U{25C4}"
  const LOCKED_TEXT := "I SAID DO NEBA I NAZAD!!!!"
  const WRONG_ANSWER_MESSAGE := "Bruh wrong answer, try again!"
  const LOCKED_FONT_WEIGHT := 900
  /** The click count from which the machine is locked in. */
  const LOCK_THRESHOLD := 3

  /** A child of the correct button's arrow container: an arrow span, or the text span. */
  datatype Span = Arrow(glyph: string) | Label(text: string, uppercase: bool)

  /** The correct button's content: its configured text as loaded, or one rebuilt arrow container. */
  datatype ButtonContent = Plain(text: string) | ArrowContainer(children: seq<Span>)

  // ---------------------------------------------------------------------------
  // The visible state as functions of the counter

  function LevelCount(q: SecondQuestion): nat {
    if q.nextBtnLevels.Some? then |q.nextBtnLevels.value| else 0
  }

  /** The wrong button's label after `n` wrong clicks, as the clicks leave it
      one after the other: click `n` writes `levels[n-1]` when there is one,
      and otherwise the label stays. */
  function WrongLabelAfter(q: SecondQuestion, n: nat): string {
    if n == 0 then q.nextBtn
    else if n <= LevelCount(q) then q.nextBtnLevels.value[n - 1]
    else WrongLabelAfter(q, n - 1)
  }

  /** The label is clamped to the last level once the levels are exhausted,
      and is the initial label when there are none. */
  lemma {:induction false} WrongLabelClamped(q: SecondQuestion, n: nat)
    ensures WrongLabelAfter(q, n) ==
      if n == 0 || LevelCount(q) == 0 then q.nextBtn
      else q.nextBtnLevels.value[(if n < LevelCount(q) then n else LevelCount(q)) - 1]
  {
    if n > LevelCount(q) && n > 0 {
      WrongLabelClamped(q, n - 1);
    }
  }

  /** The reaction slot of the `n`-th wrong click: slot `n` for the first two,
      slot 3 for every later one. */
  function SelectReaction(rs: Option<Reactions>, n: nat): (r: Option<Reaction>)
    ensures n == 0 || rs.None? ==> r.None?
    ensures n >= LOCK_THRESHOLD ==> r == SelectReaction(rs, LOCK_THRESHOLD)
    ensures rs.Some? && n > 0 ==> r == Slot(rs.value, if n < 3 then n else 3)
  {
    if rs.None? then None
    else if n == 1 && rs.value.bad1.Some? then rs.value.bad1
    else if n == 2 && rs.value.bad2.Some? then rs.value.bad2
    else if n >= 3 && rs.value.bad3.Some? then rs.value.bad3
    else None
  }

  function Slot(rs: Reactions, k: nat): Option<Reaction>
    requires 1 <= k <= 3
  {
    if k == 1 then rs.bad1 else if k == 2 then rs.bad2 else rs.bad3
  }

  /** The correct button's scale after `n` wrong clicks. */
  function Scale(n: nat): real {
    1.0 + (n as real) * 0.5
  }

  /** The gap between the two buttons, in pixels, after `n` wrong clicks. */
  function Gap(n: nat): int {
    20 + n * 70
  }

  /** The text span of the correct button at click count `n`. */
  function TextSpan(q: SecondQuestion, n: nat): Span {
    if n >= LOCK_THRESHOLD then Label(LOCKED_TEXT, true) else Label(q.startText, false)
  }

  /** `n` copies of `x`, appended one at a time. */
  function Repeat(x: Span, n: nat): seq<Span> {
    if n == 0 then [] else Repeat(x, n - 1) + [x]
  }

  /** `n` right-pointing arrows, then `middle`, then `n` left-pointing arrows. */
  function Framed(middle: Span, n: nat): seq<Span> {
    Repeat(Arrow(RIGHT_ARROW), n) + [middle] + Repeat(Arrow(LEFT_ARROW), n)
  }

  function ContentAfter(q: SecondQuestion, n: nat): ButtonContent {
    if n == 0 then Plain(q.startText) else ArrowContainer(Framed(TextSpan(q, n), n))
  }

  // ---------------------------------------------------------------------------
  // The rebuilt content

  lemma {:induction false} RepeatAt(x: Span, n: nat, i: nat)
    requires i < n
    ensures |Repeat(x, n)| == n && Repeat(x, n)[i] == x
  {
    RepeatLength(x, n - 1);
    if i < n - 1 {
      RepeatAt(x, n - 1, i);
    }
  }

  lemma {:induction false} RepeatLength(x: Span, n: nat)
    ensures |Repeat(x, n)| == n
  {
    if n > 0 {
      RepeatLength(x, n - 1);
    }
  }

  /** The shape of the content: `2n + 1` children with the text span in the middle. */
  lemma FramedShape(middle: Span, n: nat)
    ensures |Framed(middle, n)| == 2 * n + 1
    ensures Framed(middle, n)[n] == middle
    ensures forall i :: 0 <= i < n ==> Framed(middle, n)[i] == Arrow(RIGHT_ARROW)
    ensures forall i :: n < i <= 2 * n ==> Framed(middle, n)[i] == Arrow(LEFT_ARROW)
  {
    RepeatLength(Arrow(RIGHT_ARROW), n);
    RepeatLength(Arrow(LEFT_ARROW), n);
    forall i | 0 <= i < n
      ensures Framed(middle, n)[i] == Arrow(RIGHT_ARROW)
    {
      RepeatAt(Arrow(RIGHT_ARROW), n, i);
    }
    forall i | n < i <= 2 * n
      ensures Framed(middle, n)[i] == Arrow(LEFT_ARROW)
    {
      RepeatAt(Arrow(LEFT_ARROW), n, i - n - 1);
    }
  }

  /** How many children of `s` are arrows with glyph `g`. */
  function CountGlyph(s: seq<Span>, g: string): nat {
    if s == [] then 0
    else CountGlyph(s[..|s| - 1], g) + (if s[|s| - 1] == Arrow(g) then 1 else 0)
  }

  lemma {:induction false} CountGlyphAppend(a: seq<Span>, b: seq<Span>, g: string)
    ensures CountGlyph(a + b, g) == CountGlyph(a, g) + CountGlyph(b, g)
    decreases |b|
  {
    if b != [] {
      assert (a + b)[..|a + b| - 1] == a + b[..|b| - 1];
      CountGlyphAppend(a, b[..|b| - 1], g);
    } else {
      assert a + b == a;
    }
  }

  lemma {:induction false} CountGlyphRepeat(x: Span, n: nat, g: string)
    ensures CountGlyph(Repeat(x, n), g) == if x == Arrow(g) then n else 0
  {
    if n > 0 {
      CountGlyphRepeat(x, n - 1, g);
      RepeatLength(x, n);
      assert Repeat(x, n)[..n - 1] == Repeat(x, n - 1);
    }
  }

  /** The arrows are counted, not accumulated: content built for count `n`
      holds exactly `n` arrows of each direction, whatever was there before. */
  lemma FramedGlyphCounts(middle: Span, n: nat)
    requires middle.Label?
    ensures CountGlyph(Framed(middle, n), RIGHT_ARROW) == n
    ensures CountGlyph(Framed(middle, n), LEFT_ARROW) == n
  {
    var right, left := Repeat(Arrow(RIGHT_ARROW), n), Repeat(Arrow(LEFT_ARROW), n);
    assert RIGHT_ARROW != LEFT_ARROW by {
      assert RIGHT_ARROW[0] != LEFT_ARROW[0];
    }
    forall g | g == RIGHT_ARROW || g == LEFT_ARROW
      ensures CountGlyph(Framed(middle, n), g) == n
    {
      CountGlyphAppend(right + [middle], left, g);
      CountGlyphAppend(right, [middle], g);
      CountGlyphRepeat(Arrow(RIGHT_ARROW), n, g);
      CountGlyphRepeat(Arrow(LEFT_ARROW), n, g);
      assert [middle][..0] == [];
    }
  }

  /** The two counting loops that fill a fresh arrow container with clones:
      `n` leading arrows, the text span, `n` trailing arrows. */
  method BuildArrowContainer(middle: Span, n: nat) returns (children: seq<Span>)
    ensures children == Framed(middle, n)
  {
    children := [];
    for i := 0 to n
      invariant children == Repeat(Arrow(RIGHT_ARROW), i)
    {
      children := children + [Arrow(RIGHT_ARROW)];
    }
    children := children + [middle];
    ghost var lead := children;
    for i := 0 to n
      invariant children == lead + Repeat(Arrow(LEFT_ARROW), i)
    {
      children := children + [Arrow(LEFT_ARROW)];
    }
  }

  // ---------------------------------------------------------------------------
  // The state machine

  /** Whether the `n`-th wrong click shows a reaction: its slot is set, has
      an image, and the page has the reaction container and image element. */
  predicate ReactionShown(q: SecondQuestion, n: nat, container: Option<Element>, image: Option<string>) {
    var r := SelectReaction(q.reactions, n);
    r.Some? && r.value.image != "" && container.Some? && image.Some?
  }

  /** The second question's buttons, message and reaction, and the click counter. */
  class LoveChoice {
    const config: SecondQuestion
    /** The sequencer a correct answer moves on. */
    const page: Sequencer.Page

    var wrongAnswerClicks: nat
    var wrongButtonText: string
    /** False once `style.display` of the wrong button is `none`. */
    var wrongButtonDisplayed: bool
    var correctContent: ButtonContent
    var correctScale: real
    /** `style.fontWeight` of the correct button; `None` while unset. */
    var correctFontWeight: Option<int>
    /** `style.gap` of the `.love-choices` row, in pixels; `None` while unset. */
    var choicesGap: Option<int>
    var message: Option<Element>
    var reactionContainer: Option<Element>
    /** The `src` of the reaction image, when the page has the image element. */
    var reactionImage: Option<string>
    var reactionCaption: Option<Element>

    /** Everything but the message and the reaction is a function of the counter. */
    ghost predicate Valid()
      reads this
    {
      var n := wrongAnswerClicks;
      && wrongButtonText == WrongLabelAfter(config, n)
      && wrongButtonDisplayed == (n < LOCK_THRESHOLD)
      && correctContent == ContentAfter(config, n)
      && correctScale == Scale(n)
      && correctFontWeight == (if n >= LOCK_THRESHOLD then Some(LOCKED_FONT_WEIGHT) else None)
      && choicesGap == (if n == 0 then None else Some(Gap(n)))
    }

    /** The second question as the page is loaded: no wrong clicks yet, the
        correct button showing `startText`, the wrong one `nextBtn`. */
    constructor(config: SecondQuestion, page: Sequencer.Page, message: Option<Element>,
                reactionContainer: Option<Element>, reactionImage: Option<string>,
                reactionCaption: Option<Element>)
      ensures Valid() && wrongAnswerClicks == 0
      ensures this.config == config && this.page == page
      ensures wrongButtonText == config.nextBtn && correctContent == Plain(config.startText)
      ensures this.message == message && this.reactionContainer == reactionContainer
      ensures this.reactionImage == reactionImage && this.reactionCaption == reactionCaption
    {
      this.config := config;
      this.page := page;
      wrongAnswerClicks := 0;
      wrongButtonText := config.nextBtn;
      wrongButtonDisplayed := true;
      correctContent := Plain(config.startText);
      correctScale := 1.0;
      correctFontWeight := None;
      choicesGap := None;
      this.message := message;
      this.reactionContainer := reactionContainer;
      this.reactionImage := reactionImage;
      this.reactionCaption := reactionCaption;
    }

    /** `handleLoveChoice(isCorrect)`: a correct answer moves on to question
        3 and leaves the machine as it was; a wrong one is a `WrongClick`. */
    method HandleLoveChoice(isCorrect: bool)
      requires Valid() && page.Valid()
      modifies this, page
      ensures Valid() && page.Valid()
      ensures isCorrect ==> unchanged(this)
      ensures isCorrect ==> page.visible == {Sequencer.Question3} && page.title == ""
      ensures isCorrect ==> page.View() == old(page.View()).(visible := {Sequencer.Question3})
      ensures !isCorrect ==> unchanged(page)
      ensures !isCorrect ==> WrongClicked(old(wrongAnswerClicks), old(wrongButtonText), old(wrongButtonDisplayed),
                                          old(message), old(reactionContainer), old(reactionImage), old(reactionCaption))
    {
      if isCorrect {
        var _ := page.ShowNextQuestion(3);
      } else {
        WrongClick();
      }
    }

    /** The state one wrong click leaves, given the state before it. */
    ghost predicate WrongClicked(clicks: nat, buttonText: string, displayed: bool, message0: Option<Element>,
                                 container0: Option<Element>, image0: Option<string>, caption0: Option<Element>)
      reads this
    {
      var n := clicks + 1;
      var r := SelectReaction(config.reactions, n);
      var shows := ReactionShown(config, n, container0, image0);
      && wrongAnswerClicks == n
      && wrongButtonText == (if n <= LevelCount(config) then config.nextBtnLevels.value[n - 1] else buttonText)
      && message == (if message0.Some? then Some(Element(false, WRONG_ANSWER_MESSAGE)) else None)
      && reactionImage == (if shows then Some(r.value.image) else image0)
      && reactionContainer == (if shows then Reveal(container0) else container0)
      && reactionCaption ==
           (if shows && caption0.Some? then Some(caption0.value.(text := r.value.text)) else caption0)
      && correctScale == Scale(n)
      && choicesGap == Some(Gap(n))
      && correctContent == ArrowContainer(Framed(TextSpan(config, n), n))
      && correctFontWeight == (if n >= LOCK_THRESHOLD then Some(LOCKED_FONT_WEIGHT) else None)
      && wrongButtonDisplayed == (displayed && n < LOCK_THRESHOLD)
    }

    /** The wrong-answer branch of `handleLoveChoice`: count the click, then
        relabel, show the message and the reaction, grow the correct button,
        rebuild its content and lock in from the third click. */
    method WrongClick()
      requires Valid()
      modifies this
      ensures Valid()
      ensures WrongClicked(old(wrongAnswerClicks), old(wrongButtonText), old(wrongButtonDisplayed),
                           old(message), old(reactionContainer), old(reactionImage), old(reactionCaption))
    {
      wrongAnswerClicks := wrongAnswerClicks + 1;
      Relabel();
      ShowFeedback();
      Emphasize();
    }

    /** The wrong button's label for the current click count. */
    method Relabel()
      requires wrongAnswerClicks > 0
      requires wrongButtonText == WrongLabelAfter(config, wrongAnswerClicks - 1)
      modifies this`wrongButtonText
      ensures wrongButtonText == WrongLabelAfter(config, wrongAnswerClicks)
      ensures wrongButtonText ==
        if wrongAnswerClicks <= LevelCount(config) then config.nextBtnLevels.value[wrongAnswerClicks - 1]
        else old(wrongButtonText)
    {
      var n := wrongAnswerClicks;
      if config.nextBtnLevels.Some? {
        var levels := config.nextBtnLevels.value;
        if n <= |levels| {
          wrongButtonText := levels[n - 1];
        }
      }
    }

    /** The static message, and the reaction of the current click when it can be shown. */
    method ShowFeedback()
      modifies this`message, this`reactionImage, this`reactionCaption, this`reactionContainer
      ensures message == (if old(message).Some? then Some(Element(false, WRONG_ANSWER_MESSAGE)) else None)
      ensures var r, shows := SelectReaction(config.reactions, wrongAnswerClicks),
                             ReactionShown(config, wrongAnswerClicks, old(reactionContainer), old(reactionImage));
        && reactionImage == (if shows then Some(r.value.image) else old(reactionImage))
        && reactionContainer == (if shows then Reveal(old(reactionContainer)) else old(reactionContainer))
        && reactionCaption ==
             (if shows && old(reactionCaption).Some? then Some(old(reactionCaption).value.(text := r.value.text))
              else old(reactionCaption))
    {
      var reaction := SelectReaction(config.reactions, wrongAnswerClicks);
      if message.Some? {
        message := Some(message.value.(text := WRONG_ANSWER_MESSAGE, hidden := false));
      }
      if ReactionShown(config, wrongAnswerClicks, reactionContainer, reactionImage) {
        reactionImage := Some(reaction.value.image);
        if reactionCaption.Some? {
          reactionCaption := Some(reactionCaption.value.(text := reaction.value.text));
        }
        reactionContainer := Reveal(reactionContainer);
      }
    }

    /** Scale, gap and rebuilt content of the correct button for the current
        click count, and the lock-in from the third click. */
    method Emphasize()
      requires wrongAnswerClicks > 0
      modifies this`correctScale, this`choicesGap, this`correctContent, this`correctFontWeight,
               this`wrongButtonDisplayed
      ensures correctScale == Scale(wrongAnswerClicks) && choicesGap == Some(Gap(wrongAnswerClicks))
      ensures correctContent == ArrowContainer(Framed(TextSpan(config, wrongAnswerClicks), wrongAnswerClicks))
      ensures wrongAnswerClicks >= LOCK_THRESHOLD ==>
        correctFontWeight == Some(LOCKED_FONT_WEIGHT) && !wrongButtonDisplayed
      ensures wrongAnswerClicks < LOCK_THRESHOLD ==>
        correctFontWeight == old(correctFontWeight) && wrongButtonDisplayed == old(wrongButtonDisplayed)
    {
      var n := wrongAnswerClicks;
      correctScale := 1.0 + (n as real) * 0.5;
      choicesGap := Some(20 + n * 70);
      var children := BuildArrowContainer(Label(config.startText, false), n);
      if n >= LOCK_THRESHOLD {
        // The text span is already in the container: changing it changes the button.
        FramedShape(Label(config.startText, false), n);
        FramedShape(TextSpan(config, n), n);
        children := children[n := Label(LOCKED_TEXT, true)];
        assert children == Framed(TextSpan(config, n), n);
        correctFontWeight := Some(LOCKED_FONT_WEIGHT);
        wrongButtonDisplayed := false;
      }
      correctContent := ArrowContainer(children);
    }
  }

  /** At every click count from the lock-in on, the content is the locked
      text framed by as many arrows on each side as there were clicks. */
  lemma LockedContent(q: SecondQuestion, m: nat)
    requires m >= LOCK_THRESHOLD
    ensures TextSpan(q, m) == Label(LOCKED_TEXT, true)
    ensures ContentAfter(q, m).ArrowContainer?
    ensures |ContentAfter(q, m).children| == 2 * m + 1
    ensures ContentAfter(q, m).children[m] == Label(LOCKED_TEXT, true)
    ensures CountGlyph(ContentAfter(q, m).children, RIGHT_ARROW) == m
    ensures CountGlyph(ContentAfter(q, m).children, LEFT_ARROW) == m
  {
    FramedShape(TextSpan(q, m), m);
    FramedGlyphCounts(TextSpan(q, m), m);
  }
}
