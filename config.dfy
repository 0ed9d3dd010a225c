/**
  Start-up validation of the page configuration (`validateConfig` and
  `getDefaultColor` in script.js). The configuration is an input value; the
  in-place repairs of the source become a repaired copy plus the list of
  warnings, in the order the source pushes them.
 */
module ConfigValidation {
  import opened Wrappers

  /** The value stored under a colour key: a string, or the `undefined` that
      `getDefaultColor` yields for a key it has no default for. */
  datatype ColorValue = Text(s: string) | Undefined

  /** A float duration as configured (`"15s"`) together with what `parseFloat`
      makes of it; `None` stands for NaN. */
  datatype Duration = Duration(text: string, seconds: Option<real>)

  /** `heartExplosionSize` is `None` when it is not a number (every comparison with it is false). */
  datatype Animations = Animations(
    floatDuration: Duration,
    floatDistance: string,
    bounceSpeed: string,
    heartExplosionSize: Option<real>)

  /** The part of the configuration that validation reads and repairs; the
      colour entries are in `Object.entries` order, their keys distinct. */
  datatype Config = Config(
    valentineName: Option<string>,
    pageTitle: string,
    colors: seq<(string, ColorValue)>,
    animations: Animations)

  const DEFAULT_NAME := "My Love"
  const DEFAULT_DURATION := Duration("5s", Some(5.0))
  const DEFAULT_EXPLOSION_SIZE := 1.5
  const NAME_WARNING := "Valentine's name is not set! Using default."
  // The two long messages are written in two pieces so that the verifier sees their characters.
  const DURATION_WARNING := "Float duration too short! " + "Setting to 5s minimum."
  const SIZE_WARNING := "Heart explosion size should be " + "between 1 and 3! Using default."

  /** The keys `getDefaultColor` knows. */
  const DEFAULT_COLOR_KEYS: set<string> :=
    {"backgroundStart", "backgroundEnd", "buttonBackground", "buttonHover", "textColor"}

  function ColorWarning(key: string): string {
    "Invalid color for " + key + "! Using default."
  }

  // ---------------------------------------------------------------------------
  // The colour pattern ^#([A-Fa-f0-9]{6}|[A-Fa-f0-9]{3})$

  predicate IsHexDigit(c: char) {
    '0' <= c <= '9' || 'a' <= c <= 'f' || 'A' <= c <= 'F'
  }

  /** `s` is a run of exactly `k` hex digits (the anchored `[A-Fa-f0-9]{k}`). */
  predicate HexRun(s: string, k: nat) {
    |s| == k && forall i :: 0 <= i < |s| ==> IsHexDigit(s[i])
  }

  /** The regular expression, alternative by alternative. */
  predicate MatchesHexPattern(s: string) {
    |s| > 0 && s[0] == '#' && (HexRun(s[1..], 6) || HexRun(s[1..], 3))
  }

  /** The string a colour value is coerced to before the pattern is tested. */
  function AsText(v: ColorValue): string {
    match v
    case Text(s) => s
    case Undefined => "undefined"
  }

  /** `isValidHex`. */
  predicate IsValidHex(v: ColorValue) {
    MatchesHexPattern(AsText(v))
  }

  /** A colour is accepted exactly when it is `#` followed by 3 or 6 hex digits. */
  lemma HexPatternChars(v: ColorValue)
    ensures IsValidHex(v) <==>
      v.Text? && (|v.s| == 4 || |v.s| == 7) && v.s[0] == '#' &&
      forall i :: 1 <= i < |v.s| ==> IsHexDigit(v.s[i])
  {
    var s := AsText(v);
    if |s| > 0 {
      assert forall i :: 1 <= i < |s| ==> s[i] == s[1..][i - 1];
    }
    if v.Undefined? {
      assert s[0] == 'u';
    }
  }

  // ---------------------------------------------------------------------------
  // getDefaultColor

  /** `getDefaultColor(key)`: the default for one of the five known keys, `undefined` for any other. */
  function DefaultColor(key: string): (v: ColorValue)
    ensures v.Text? <==> key in DEFAULT_COLOR_KEYS
    ensures IsValidHex(v) <==> key in DEFAULT_COLOR_KEYS
  {
    var v :=
      if key == "backgroundStart" then Text("#ffafbd")
      else if key == "backgroundEnd" then Text("#ffc3a0")
      else if key == "buttonBackground" then Text("#ff6b6b")
      else if key == "buttonHover" then Text("#ff8787")
      else if key == "textColor" then Text("#ff4757")
      else Undefined;
    HexPatternChars(v);
    v
  }

  // ---------------------------------------------------------------------------
  // The specification of validateConfig

  /** Falsy as the source tests `!config.valentineName`: unset or empty. */
  predicate NameMissing(name: Option<string>) {
    name.None? || name.value == ""
  }

  predicate DurationTooShort(d: Duration) {
    d.seconds.Some? && d.seconds.value < 5.0
  }

  predicate SizeOutOfRange(size: Option<real>) {
    size.Some? && (size.value < 1.0 || size.value > 3.0)
  }

  function FixColor(entry: (string, ColorValue)): (string, ColorValue) {
    if IsValidHex(entry.1) then entry else (entry.0, DefaultColor(entry.0))
  }

  /** The colour entries after the `forEach`: each entry repaired on its own, in place. */
  function FixedColors(cs: seq<(string, ColorValue)>): seq<(string, ColorValue)> {
    seq(|cs|, i requires 0 <= i < |cs| => FixColor(cs[i]))
  }

  /** The warnings the `forEach` pushes, in order. */
  function ColorWarnings(cs: seq<(string, ColorValue)>): seq<string> {
    if cs == [] then []
    else
      var last := cs[|cs| - 1];
      ColorWarnings(cs[..|cs| - 1]) + (if IsValidHex(last.1) then [] else [ColorWarning(last.0)])
  }

  function ValidatedConfig(cfg: Config): Config {
    cfg.(
      valentineName := if NameMissing(cfg.valentineName) then Some(DEFAULT_NAME) else cfg.valentineName,
      colors := FixedColors(cfg.colors),
      animations := cfg.animations.(
        floatDuration :=
          if DurationTooShort(cfg.animations.floatDuration) then DEFAULT_DURATION
          else cfg.animations.floatDuration,
        heartExplosionSize :=
          if SizeOutOfRange(cfg.animations.heartExplosionSize) then Some(DEFAULT_EXPLOSION_SIZE)
          else cfg.animations.heartExplosionSize))
  }

  function Warnings(cfg: Config): seq<string> {
    (if NameMissing(cfg.valentineName) then [NAME_WARNING] else [])
    + ColorWarnings(cfg.colors)
    + (if DurationTooShort(cfg.animations.floatDuration) then [DURATION_WARNING] else [])
    + (if SizeOutOfRange(cfg.animations.heartExplosionSize) then [SIZE_WARNING] else [])
  }

  predicate DistinctKeys(cs: seq<(string, ColorValue)>) {
    forall i, j :: 0 <= i < j < |cs| ==> cs[i].0 != cs[j].0
  }

  // ---------------------------------------------------------------------------
  // validateConfig

  /** The `forEach` over the colour entries: each entry that fails the
      pattern is overwritten in place with its default and warned about. */
  method FixColors(cs: seq<(string, ColorValue)>) returns (colors: seq<(string, ColorValue)>, warnings: seq<string>)
    ensures colors == FixedColors(cs)
    ensures warnings == ColorWarnings(cs)
  {
    colors, warnings := cs, [];
    var i := 0;
    while i < |cs|
      invariant 0 <= i <= |cs| && |colors| == |cs|
      invariant forall j :: 0 <= j < i ==> colors[j] == FixColor(cs[j])
      invariant forall j :: i <= j < |cs| ==> colors[j] == cs[j]
      invariant warnings == ColorWarnings(cs[..i])
    {
      var (key, value) := cs[i];
      assert cs[..i + 1][..i] == cs[..i];
      if !IsValidHex(value) {
        warnings := warnings + [ColorWarning(key)];
        colors := colors[i := (key, DefaultColor(key))];
      }
      i := i + 1;
    }
    assert cs[..i] == cs;
  }

  /** `validateConfig`: the repaired configuration and the warnings it logs. */
  method ValidateConfig(cfg: Config) returns (fixed: Config, warnings: seq<string>)
    ensures fixed == ValidatedConfig(cfg)
    ensures warnings == Warnings(cfg)
  {
    fixed, warnings := cfg, [];
    if NameMissing(cfg.valentineName) {
      warnings := warnings + [NAME_WARNING];
      fixed := fixed.(valentineName := Some(DEFAULT_NAME));
    }
    var colors, colorWarnings := FixColors(cfg.colors);
    warnings := warnings + colorWarnings;
    fixed := fixed.(colors := colors);
    if DurationTooShort(cfg.animations.floatDuration) {
      warnings := warnings + [DURATION_WARNING];
      fixed := fixed.(animations := fixed.animations.(floatDuration := DEFAULT_DURATION));
    }
    if SizeOutOfRange(cfg.animations.heartExplosionSize) {
      warnings := warnings + [SIZE_WARNING];
      fixed := fixed.(animations := fixed.animations.(heartExplosionSize := Some(DEFAULT_EXPLOSION_SIZE)));
    }
    assert fixed == ValidatedConfig(cfg);
  }

  // ---------------------------------------------------------------------------
  // Properties of validation

  lemma ColorWarningInjective(a: string, b: string)
    ensures ColorWarning(a) == ColorWarning(b) <==> a == b
  {
    var wa, wb := ColorWarning(a), ColorWarning(b);
    assert a == wa[18..18 + |a|];
    assert b == wb[18..18 + |b|];
  }

  /** Every colour warning names a key whose value was invalid. */
  lemma {:induction false} ColorWarningsNameInvalidKeys(cs: seq<(string, ColorValue)>, w: string)
    requires w in ColorWarnings(cs)
    ensures exists i :: 0 <= i < |cs| && !IsValidHex(cs[i].1) && w == ColorWarning(cs[i].0)
  {
    var init := cs[..|cs| - 1];
    if w in ColorWarnings(init) {
      ColorWarningsNameInvalidKeys(init, w);
      var i :| 0 <= i < |init| && !IsValidHex(init[i].1) && w == ColorWarning(init[i].0);
      assert cs[i] == init[i];
    } else {
      assert !IsValidHex(cs[|cs| - 1].1) && w == ColorWarning(cs[|cs| - 1].0);
    }
  }

  /** A key that no entry carries is never warned about. */
  lemma {:induction false} AbsentKeyNotWarned(cs: seq<(string, ColorValue)>, key: string)
    requires forall i :: 0 <= i < |cs| ==> cs[i].0 != key
    ensures multiset(ColorWarnings(cs))[ColorWarning(key)] == 0
  {
    if cs != [] {
      var init, last := cs[..|cs| - 1], cs[|cs| - 1];
      assert forall i :: 0 <= i < |init| ==> init[i] == cs[i];
      AbsentKeyNotWarned(init, key);
      ColorWarningInjective(last.0, key);
    }
  }

  /** With distinct keys, the key of entry `i` is warned about exactly once
      if its value is invalid and never otherwise. */
  lemma {:induction false} OneWarningPerFix(cs: seq<(string, ColorValue)>, i: nat)
    requires DistinctKeys(cs) && i < |cs|
    ensures multiset(ColorWarnings(cs))[ColorWarning(cs[i].0)] ==
      if IsValidHex(cs[i].1) then 0 else 1
  {
    var init, last := cs[..|cs| - 1], cs[|cs| - 1];
    var w := ColorWarning(cs[i].0);
    var tail := if IsValidHex(last.1) then [] else [ColorWarning(last.0)];
    assert ColorWarnings(cs) == ColorWarnings(init) + tail;
    assert forall j :: 0 <= j < |init| ==> init[j] == cs[j];
    ColorWarningInjective(last.0, cs[i].0);
    if i < |cs| - 1 {
      OneWarningPerFix(init, i);
    } else {
      AbsentKeyNotWarned(init, cs[i].0);
    }
  }

  /** No colour warning at all exactly when every colour is valid. */
  lemma {:induction false} NoColorWarningsIffAllValid(cs: seq<(string, ColorValue)>)
    ensures |ColorWarnings(cs)| == 0 <==> forall i :: 0 <= i < |cs| ==> IsValidHex(cs[i].1)
  {
    if cs != [] {
      var init, last := cs[..|cs| - 1], cs[|cs| - 1];
      NoColorWarningsIffAllValid(init);
      assert |ColorWarnings(cs)| == |ColorWarnings(init)| + (if IsValidHex(last.1) then 0 else 1);
      assert forall i :: 0 <= i < |init| ==> init[i] == cs[i];
    }
  }

  /** The four warning kinds cannot be confused: each starts with its own letter. */
  lemma WarningKindsDistinct(key: string)
    ensures ColorWarning(key)[0] == 'I' && NAME_WARNING[0] == 'V'
    ensures DURATION_WARNING[0] == 'F' && SIZE_WARNING[0] == 'H'
  {
  }

  /** Each of the name, duration and size fixes is made exactly when its
      warning is logged, and a value that passes is left as it was. */
  lemma ScalarFixesWarn(cfg: Config)
    ensures var fixed, ws := ValidatedConfig(cfg), Warnings(cfg);
      && (NAME_WARNING in ws <==> NameMissing(cfg.valentineName))
      && (DURATION_WARNING in ws <==> DurationTooShort(cfg.animations.floatDuration))
      && (SIZE_WARNING in ws <==> SizeOutOfRange(cfg.animations.heartExplosionSize))
      && fixed.valentineName == (if NameMissing(cfg.valentineName) then Some(DEFAULT_NAME) else cfg.valentineName)
      && fixed.animations.floatDuration ==
           (if DurationTooShort(cfg.animations.floatDuration) then DEFAULT_DURATION else cfg.animations.floatDuration)
      && fixed.animations.heartExplosionSize ==
           (if SizeOutOfRange(cfg.animations.heartExplosionSize) then Some(DEFAULT_EXPLOSION_SIZE)
            else cfg.animations.heartExplosionSize)
      && fixed.pageTitle == cfg.pageTitle
      && fixed.animations.floatDistance == cfg.animations.floatDistance
      && fixed.animations.bounceSpeed == cfg.animations.bounceSpeed
  {
    var ws := Warnings(cfg);
    var cw := ColorWarnings(cfg.colors);
    forall w | w in cw
      ensures w != NAME_WARNING && w != DURATION_WARNING && w != SIZE_WARNING
    {
      ColorWarningsNameInvalidKeys(cfg.colors, w);
      var i :| 0 <= i < |cfg.colors| && !IsValidHex(cfg.colors[i].1) && w == ColorWarning(cfg.colors[i].0);
      WarningKindsDistinct(cfg.colors[i].0);
    }
  }

  /** Once every colour entry has a default or is already valid, validation
      is idempotent: a validated configuration passes unchanged and without
      warnings. */
  lemma ValidationIdempotent(cfg: Config)
    requires forall i :: 0 <= i < |cfg.colors| ==> cfg.colors[i].0 in DEFAULT_COLOR_KEYS || IsValidHex(cfg.colors[i].1)
    ensures ValidatedConfig(ValidatedConfig(cfg)) == ValidatedConfig(cfg)
    ensures Warnings(ValidatedConfig(cfg)) == []
  {
    var cs := cfg.colors;
    var fs := FixedColors(cs);
    assert forall i :: 0 <= i < |fs| ==> IsValidHex(fs[i].1);
    NoColorWarningsIffAllValid(fs);
    assert FixedColors(fs) == fs;
  }

  /** Validation keeps the keys, so it keeps them distinct. */
  lemma FixedColorsDistinct(cs: seq<(string, ColorValue)>)
    requires DistinctKeys(cs)
    ensures DistinctKeys(FixedColors(cs))
  {
  }

  /** A key without a default is repaired to `undefined`, which fails the
      pattern again: wherever such a key sits in the colour entries, the
      repaired entries warn about it once more. */
  lemma UnknownKeyWarnsAgain(cs: seq<(string, ColorValue)>, i: nat)
    requires DistinctKeys(cs) && i < |cs|
    requires cs[i].0 !in DEFAULT_COLOR_KEYS && !IsValidHex(cs[i].1)
    ensures FixedColors(cs)[i] == (cs[i].0, Undefined)
    ensures multiset(ColorWarnings(FixedColors(cs)))[ColorWarning(cs[i].0)] == 1
  {
    var fs := FixedColors(cs);
    var key := cs[i].0;
    assert DefaultColor(key) == Undefined;
    assert fs[i] == (key, Undefined);
    HexPatternChars(Undefined);
    assert !IsValidHex(fs[i].1);
    FixedColorsDistinct(cs);
    OneWarningPerFix(fs, i);
  }
}
