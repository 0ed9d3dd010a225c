/**
  The question-1 countdown (`startCountdown` in script.js): five seconds
  counted down one per interval tick, after which the countdown is hidden and
  the yes button revealed.
 */
module Countdown {
  import opened Wrappers
  import opened Dom

  const START_SECONDS := 5

  /** The text a count from 0 to 9 is displayed as. */
  function DigitText(n: int): (s: string)
    requires 0 <= n <= 9
    ensures |s| == 1 && s[0] as int - '0' as int == n
  {
    [('0' as int + n) as char]
  }

  class Countdown {
    var countdownEl: Option<Element>
    var yesButton: Option<Element>
    /** The `timeLeft` of the running interval. */
    var timeLeft: int
    /** Whether an interval is scheduled. */
    var ticking: bool

    ghost predicate Valid()
      reads this
    {
      ticking ==> 0 < timeLeft <= START_SECONDS && countdownEl.Some? && yesButton.Some?
    }

    constructor(countdownEl: Option<Element>, yesButton: Option<Element>)
      ensures Valid() && !ticking
      ensures this.countdownEl == countdownEl && this.yesButton == yesButton
    {
      this.countdownEl := countdownEl;
      this.yesButton := yesButton;
      timeLeft := START_SECONDS;
      ticking := false;
    }

    /** `startCountdown`: with both elements present, show the countdown and
        start ticking from five; with either missing, do nothing. */
    method Start()
      requires Valid() && !ticking
      modifies this
      ensures Valid()
      ensures ticking == (old(countdownEl).Some? && old(yesButton).Some?)
      ensures ticking ==> timeLeft == START_SECONDS && countdownEl == Reveal(old(countdownEl))
      ensures ticking ==> yesButton == old(yesButton)
      ensures !ticking ==> unchanged(this)
    {
      if countdownEl.None? || yesButton.None? {
        return;
      }
      timeLeft := START_SECONDS;
      countdownEl := Reveal(countdownEl);
      ticking := true;
    }

    /** One interval callback: count down and display the count; at zero stop
        the interval, hide the countdown and reveal the yes button. */
    method Tick()
      requires Valid() && ticking
      modifies this
      ensures Valid()
      ensures timeLeft == old(timeLeft) - 1
      ensures ticking == (timeLeft > 0)
      ensures countdownEl.Some? && countdownEl.value.text == DigitText(timeLeft)
      ensures countdownEl.value.hidden == (old(countdownEl).value.hidden || timeLeft == 0)
      ensures yesButton == (if timeLeft == 0 then Reveal(old(yesButton)) else old(yesButton))
    {
      timeLeft := timeLeft - 1;
      countdownEl := Some(countdownEl.value.(text := DigitText(timeLeft)));
      if timeLeft <= 0 {
        ticking := false;
        countdownEl := Conceal(countdownEl);
        yesButton := Reveal(yesButton);
      }
    }

    /** The interval left to run until it stops itself: it stops after exactly
        as many ticks as there are seconds left, showing 0, with the countdown
        hidden and the yes button visible. */
    method RunToEnd() returns (ticks: nat)
      requires Valid() && ticking
      modifies this
      ensures Valid() && !ticking && timeLeft == 0
      ensures ticks == old(timeLeft)
      ensures countdownEl.Some? && countdownEl.value.hidden && countdownEl.value.text == "0"
      ensures yesButton.Some? && !yesButton.value.hidden
      ensures yesButton.value.text == old(yesButton).value.text
    {
      ticks := 0;
      while ticking
        invariant Valid()
        invariant ticks + timeLeft == old(timeLeft)
        invariant ticking ==> yesButton == old(yesButton)
        invariant !ticking ==> timeLeft == 0 && countdownEl.Some? && countdownEl.value.hidden
        invariant !ticking ==> countdownEl.value.text == "0"
        invariant !ticking ==> yesButton == Reveal(old(yesButton)) && yesButton.Some?
        decreases timeLeft
      {
        Tick();
        ticks := ticks + 1;
      }
    }
  }
}
