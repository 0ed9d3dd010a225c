# Valentine page interaction core, modelled in Dafny

This project models the click-driven logic of `script.js`, the single-page
"Valentine" greeting. A visitor answers a chain of questions and finishes on
a celebration screen. The model covers these parts:

- **Configuration validation** (`ConfigValidation`, `config.dfy`): `validateConfig` and `getDefaultColor`.
  - A missing name becomes "My Love".
  - Each colour that fails `^#([A-Fa-f0-9]{6}|[A-Fa-f0-9]{3})$` is replaced by its default.
  - A float duration under 5 s becomes `"5s"`.
  - A heart-explosion size outside [1, 3] becomes 1.5.
  - Each repair pushes one warning, in the order the source pushes them.
- **Screen sequencer** (`Sequencer`, `sequencer.dfy`): the class `Page` holds the page's `.question-section` screens, the header title and the loading-screen elements.
  - `showNextQuestion(k)` leaves question `k` as the only visible screen, except for question 4.
  - Question 4 goes through `handleLoadingSequence`, which is the list of timer steps `LOADING_SCHEDULE` at 100, 5100, 10100 and 13100 ms. It falls back to question 4 at once when the loading section or the progress bar is missing.
  - `celebrate` leaves the celebration as the only visible screen.
  - What each timer callback does is the pure function `ApplyAction` on a `LoadingView`. `RunActions` runs a list of steps in order.
- **Escalation state machine** (`Escalation`, `escalation.dfy`): the class `LoveChoice` holds the counter `wrongAnswerClicks` and the visible state of question 2. It models `handleLoveChoice`.
  - Its invariant `Valid()` says the wrong button's label, the correct button's scale and content, the gap between the buttons and the lock-in are all functions of the counter.
  - The function for the label is `WrongLabelAfter`; the others are `Scale`, `Gap`, `ContentAfter` and a lock-in from three clicks.
  - The correct button's content is rebuilt on each wrong click, not appended to: n right-pointing arrows (U+27A4), the text span, then n left-pointing arrows (U+25C4). The source file shows these two glyphs byte-garbled (saved once in the wrong encoding); they are modelled as the two characters meant.
  - The text span shows `startText`. From the third click it is replaced by the upper-case locked text, and the wrong button is hidden for good.
- **Countdown** (`Countdown`, `countdown.dfy`): `startCountdown` counts from 5 down to 0, one interval tick at a time. At 0 it stops, hides the countdown and reveals the yes button.
- `Scenario` (`scenario.dfy`) drives the handlers from start to celebration, using only the components' contracts.

Page elements are records with a `hidden` flag and a text (`Dom.Element`). An element the page may lack is an `Option`. The configuration is an input value.

Two behaviours of the code worth noting:

- When the reaction slot for a wrong click is missing, the source does not hide a reaction it showed earlier; it leaves the page as it was. `LoveChoice.ShowFeedback` keeps the previous reaction.
- `showNextQuestion(k)` for a `k` with no section hides every screen and then throws. It is modelled as the outcome `Failed` with no visible screen.

The page's markup (index.html) is not part of this model. The model assumes:

- it has the sections question1 to question4 and celebration, all marked `.question-section`;
- the loading section is marked `.question-section` too, and may be missing;
- question 1 is the visible screen when the overlay closes;
- the buttons `correctBtn` and `wrongBtn` and the `.love-choices` container exist. The class `LoveChoice` holds them unconditionally, not as an `Option`; without `correctBtn` or `.love-choices` the wrong-answer branch of `handleLoveChoice` throws at script.js:264 or 291. Without `wrongBtn` it throws at script.js:226 when a level label is written, and at script.js:313 from the third click. A page without these elements cannot be represented.

## Model

| member | source | states |
|---|---|---|
| ConfigValidation.HexPatternChars | script.js:18 | A colour passes `isValidHex` exactly when it is a string of `#` followed by 3 or 6 hex digits. `undefined` is tested as the text "undefined" and fails. |
| ConfigValidation.DefaultColor | script.js:45-54 | There is a default exactly for the five known keys, and each default is a valid hex colour. Any other key gives `undefined`. |
| ConfigValidation.FixColors | script.js:19-24 | The `forEach` loop overwrites in place each invalid entry with its key's default and pushes one warning per overwrite. The result equals the specification functions `FixedColors` and `ColorWarnings`. |
| ConfigValidation.ValidateConfig | script.js:8-35 | The repaired configuration and the warnings are exactly `ValidatedConfig` and `Warnings`: name, then colours, then duration, then size. |
| ConfigValidation.OneWarningPerFix | script.js:19-24 | With distinct keys, the warning for a key is logged exactly once if the key's value failed, and never otherwise. |
| ConfigValidation.ColorWarningsNameInvalidKeys | script.js:20-21 | Every colour warning names a key whose value failed the pattern. |
| ConfigValidation.AbsentKeyNotWarned | script.js:20-21 | No warning names a key that no colour entry carries. |
| ConfigValidation.NoColorWarningsIffAllValid | script.js:19-24 | No colour warning is logged exactly when every colour is valid. |
| ConfigValidation.ScalarFixesWarn | script.js:12-15 | The name, duration and size warnings each appear exactly when their repair is made. Values that pass, the page title and the other animation settings are unchanged. |
| ConfigValidation.ValidationIdempotent | script.js:8-54 | When every colour entry either has a default or is already a valid hex colour, validating a validated configuration changes nothing and logs no warning. |
| ConfigValidation.UnknownKeyWarnsAgain | script.js:19-24 | In any colour list with distinct keys, an invalid entry whose key has no default is repaired to `undefined`. That fails the pattern again, so validating the repaired list warns about that key exactly once more. |
| Sequencer.QuestionScreen | script.js:193 | `question${k}` names a section exactly for k from 1 to 4, and never the loading or celebration section. |
| Sequencer.Page.HideAllSections | script.js:192 | After the loop over the question sections, no screen is visible. |
| Sequencer.Page.ShowNextQuestion | script.js:185-198 | k = 4 diverts to the loading sequence without showing question 4 directly. For k from 1 to 3, question k is the only visible screen and the title is cleared exactly when k > 1. Any other k leaves no screen visible and reports `Failed`. Nothing else on the page changes. |
| Sequencer.Page.HandleLoadingSequence | script.js:478-507 | All screens are hidden first. If the loading section or the progress bar is missing, only question 4 is visible and no timer is scheduled. Otherwise only the loading screen is visible, the bar is at 0 %, the loading caption and bar container are shown, the nervous and ready captions are hidden, and the four timers are scheduled. |
| Sequencer.Page.RunAction | script.js:509-537 | One timer callback changes the page exactly as `ApplyAction` says. |
| Sequencer.Page.RunSchedule | script.js:509-537 | Firing a list of timers in order changes the page exactly as `RunActions` says. |
| Sequencer.RunActionsAppend | script.js:509-537 | Running one more step after a list of steps is the same as running the extended list. |
| Sequencer.LoadingScheduleOrdered | script.js:510-537 | There are four steps, at 100, 5100, 10100 and 13100 ms, in strictly increasing order. |
| Sequencer.LoadingPhases | script.js:509-537 | From the reset page, the steps give, in order: a full slow bar; the nervous caption replacing the loading caption and bar; the ready caption replacing the nervous one; and finally only question 4 visible, with the runaway button armed when the page has one. |
| Sequencer.Page.Celebrate | script.js:319-325 | The title is cleared and the celebration is the only visible screen. Nothing else on the page changes. |
| Escalation.WrongLabelClamped | script.js:221-228 | After n wrong clicks, the wrong button shows `levels[min(n, L) - 1]`, where L is the number of levels. It shows `nextBtn` when n = 0 or there are no levels. |
| Escalation.SelectReaction | script.js:234-247 | The reaction depends only on the counter: slot n for n = 1 and n = 2, slot 3 for every n of 3 or more. There is none at 0 or without a reactions object. |
| Escalation.BuildArrowContainer | script.js:293-302 | The two counting loops produce exactly n right-pointing arrows, the text span, then n left-pointing arrows. |
| Escalation.FramedShape | script.js:293-302 | The rebuilt content has 2n + 1 children, with arrows on both sides of the text span in the middle. |
| Escalation.FramedGlyphCounts | script.js:266-302 | The content holds exactly n arrows of each direction, so arrows never accumulate across clicks. |
| Escalation.LockedContent | script.js:306-309 | From the third click on, the text span is the locked upper-case text, framed by as many arrows on each side as there have been clicks. |
| Escalation.LoveChoice.constructor | script.js:5 | The counter starts at 0, with the buttons as loaded. |
| Escalation.LoveChoice.HandleLoveChoice | script.js:209-213 | A correct answer leaves the machine untouched (counter included) and makes question 3 the only visible screen. A wrong answer leaves the page untouched and is exactly one `WrongClick`. |
| Escalation.LoveChoice.WrongClick | script.js:212-315 | The counter goes up by exactly 1, and the new state is the one `WrongClicked` describes. The invariant `Valid()` is kept. |
| Escalation.LoveChoice.Relabel | script.js:221-228 | The wrong button's label becomes `levels[n-1]` while n ≤ the number of levels, and otherwise keeps its previous label. |
| Escalation.LoveChoice.ShowFeedback | script.js:249-260 | The static message is always set and shown when its element exists. The selected reaction's image and caption are shown only when the slot has an image and the page has the container and the image. Otherwise the reaction elements are unchanged. |
| Escalation.LoveChoice.Emphasize | script.js:262-314 | The scale is 1 + 0.5n and the gap 20 + 70n px. The content is rebuilt as `Framed`. From n ≥ 3 the font weight is 900 and the wrong button is hidden; it is never shown again. |
| Countdown.Countdown.Start | script.js:132-140 | With both elements present, the countdown is shown and starts at 5. With either missing, nothing happens. |
| Countdown.Countdown.Tick | script.js:142-151 | Each tick takes exactly one second off and displays the new count. At 0 the interval stops, the countdown is hidden and the yes button is revealed. |
| Countdown.Countdown.RunToEnd | script.js:142-151 | The interval stops itself after exactly as many ticks as seconds were left. It ends showing "0", with the countdown hidden and the yes button visible. |
| Scenario.CountdownRunsOut | script.js:132-152 | A countdown started on a page with both elements runs exactly 5 ticks and reveals the yes button. |
| Scenario.AnswerSecondQuestion | script.js:209-316 | Three wrong answers and a correct one leave the counter at 3, the wrong button hidden, the content locked, and question 3 visible. |
| Scenario.LoadingToFinalQuestion | script.js:185-190 | `showNextQuestion(4)` on a page with the loading elements schedules the four steps. Running them leaves only question 4 visible and the runaway button armed. |
| Scenario.EndToEnd | script.js:185-325 | The whole chain, from the countdown to the celebration, ends with the counter at 3, only the celebration visible and the runaway button armed. |

## Left out

- Audio: `setupMusicPlayer`, the `bgMusic.play()` promises, and the music parts of `showNextQuestion` and `celebrate`. This is browser media playback, whose success and failure arrive asynchronously.
- Floating emojis, floating photos and the heart explosion. They position elements at random with `Math.random()` and create DOM nodes.
- `makeButtonRunAway`. Its positions are random floats, and it is driven by pointer listeners and a 2 s timer. The model records only whether the loading sequence armed the button (`runawayArmed`).
- The injected style sheets and the runaway button's troll markup. They are CSS and markup text with no logic.
- The `DOMContentLoaded` text wiring, the overlay fade and `document.title`. These are plain DOM assignments; the constructors take the state they leave.
- Console logging of the warnings. `ValidateConfig` returns the warnings instead of printing them.
- The `console.error` that `handleLoadingSequence` logs on its fallback path (script.js:494). It is output only; the fallback's effect on the screens is modelled.
- The text, message, emoji and image written by `celebrate`. Only the section visibility and the title are modelled.
- Real timer scheduling. `handleLoadingSequence` returns its steps as (delay, action) pairs, and `RunSchedule` fires them in order with nothing in between. Overlapping timer sets started by a second invocation are not modelled.
- `parseFloat`. The float duration carries its already-parsed number of seconds, with `None` standing for NaN. A `real` cannot hold ±Infinity: `"-Infinity"` parses to a value below 5 and is repaired in the source, but it cannot be represented here.
- config.js. It is static data and supplies no behaviour.
- ConfigValidation.ValidateConfig: it assumes `config.colors` and `config.animations` exist. The source would throw without them.
- ConfigValidation.DefaultColor: it gives `undefined` for every key outside the five defaults. It does not model the values a JavaScript object inherits for keys such as `constructor`.
- Escalation.LoveChoice: it holds `correctBtn`, `wrongBtn` and `.love-choices` unconditionally. A page lacking `wrongBtn` is not modelled: there the first wrong clicks can still complete, and the branch throws only at script.js:226 or 313.
- Countdown.Countdown.Start: it requires that no countdown is running. A second click on the start button before the overlay disappears would start a second independent interval in the source; the model has a single countdown.
