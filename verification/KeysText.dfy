// The text half of the printed-key sheet: wrapping a long key, fitting a font, cutting a caption.
// Everything is parametric in `measure(text, pt)`, the width of a text printed at a font size.
module KeysText {

  type Measure = (string, real) -> real

  const SLIP_PADDING_MM := 2.0
  const PT_IN_MM := 25.4 / 72.0
  const KEY_FONT_MAX_PT := 14.0
  const KEY_FONT_MIN_PT := 12.0
  const LONG_KEY_FONT_MAX_PT := 24.0
  const CAPTION_FONT_PT := 10.0
  const CAPTION_FONT_MIN_PT := 6.0
  const CAPTION_GAP_MM := 3.0
  const LINE_HEIGHT := 1.25
  const ELLIPSIS := "\U{2026}"

  // What is assumed of a measure, and nothing else.

  ghost predicate NonNegative(m: Measure) {
    forall text: string, pt: real :: pt >= 0.0 ==> m(text, pt) >= 0.0
  }

  ghost predicate Linear(m: Measure) {
    forall text: string, pt: real :: m(text, pt) == m(text, 1.0) * pt
  }

  ghost predicate MonotoneOnSubstrings(m: Measure) {
    forall text: string, i: int, j: int, pt: real ::
      0 <= i <= j <= |text| && pt >= 0.0 ==> m(text[i..j], pt) <= m(text, pt)
  }

  ghost predicate Sane(m: Measure) {
    NonNegative(m) && Linear(m) && MonotoneOnSubstrings(m)
  }

  lemma PrefixNotWider(m: Measure, text: string, k: int, pt: real)
    requires MonotoneOnSubstrings(m) && pt >= 0.0 && 0 <= k <= |text|
    ensures m(text[..k], pt) <= m(text, pt)
  {
    assert text[0..k] == text[..k];
  }

  lemma SuffixNotWider(m: Measure, text: string, k: int, pt: real)
    requires MonotoneOnSubstrings(m) && pt >= 0.0 && 0 <= k <= |text|
    ensures m(text[k..], pt) <= m(text, pt)
  {
    assert text[k..|text|] == text[k..];
  }

  // ----- Wrapping -----

  function Concat(pieces: seq<string>): string {
    if pieces == [] then "" else pieces[0] + Concat(pieces[1..])
  }

  ghost predicate AllFit(m: Measure, pieces: seq<string>, pt: real, available: real) {
    forall i :: 0 <= i < |pieces| ==> m(pieces[i], pt) <= available
  }

  // Where the line starting at the beginning of `key` ends, given that it has `k` characters already.
  function LineEnd(m: Measure, key: string, pt: real, available: real, k: nat): (end: nat)
    requires 1 <= k <= |key|
    ensures k <= end <= |key|
    decreases |key| - k
  {
    if k == |key| || m(key[..k + 1], pt) > available then k
    else LineEnd(m, key, pt, available, k + 1)
  }

  // The lines of a key, each as long as it can be made.
  function Wrap(m: Measure, key: string, pt: real, available: real): (lines: seq<string>)
    decreases |key|
  {
    if key == "" then []
    else
      var end := LineEnd(m, key, pt, available, 1);
      [key[..end]] + Wrap(m, key[end..], pt, available)
  }

  // A line that cannot take the next character is closed; one that can is longer by it.
  lemma LineStep(m: Measure, key: string, pt: real, available: real, start: nat, i: nat)
    requires start < i < |key|
    requires LineEnd(m, key[start..], pt, available, 1) == LineEnd(m, key[start..], pt, available, i - start)
    ensures m(key[start..i + 1], pt) > available ==>
              Wrap(m, key[start..], pt, available) == [key[start..i]] + Wrap(m, key[i..], pt, available)
    ensures m(key[start..i + 1], pt) <= available ==>
              LineEnd(m, key[start..], pt, available, 1) == LineEnd(m, key[start..], pt, available, i + 1 - start)
  {
    var rest := key[start..];
    assert rest[..i - start + 1] == key[start..i + 1];
    assert rest[..i - start] == key[start..i] && rest[i - start..] == key[i..];
  }

  // After `i` characters of the key: the lines so far, and the line under way since `start`.
  ghost predicate Wrapping(
    m: Measure, key: string, pt: real, available: real, lines: seq<string>, current: string, start: nat, i: nat)
  {
    && start <= i <= |key| && current == key[start..i] && (start == i ==> i == 0)
    && Wrap(m, key, pt, available) == lines + Wrap(m, key[start..], pt, available)
    && (start < i ==> LineEnd(m, key[start..], pt, available, 1) == LineEnd(m, key[start..], pt, available, i - start))
  }

  lemma LineGrows(
    m: Measure, key: string, pt: real, available: real, lines: seq<string>, current: string, start: nat, i: nat)
    requires Wrapping(m, key, pt, available, lines, current, start, i) && i < |key|
    requires current == "" || m(current + [key[i]], pt) <= available
    ensures Wrapping(m, key, pt, available, lines, current + [key[i]], start, i + 1)
  {
    assert current + [key[i]] == key[start..i + 1];
    if current != "" { LineStep(m, key, pt, available, start, i); }
  }

  lemma LineCloses(
    m: Measure, key: string, pt: real, available: real, lines: seq<string>, current: string, start: nat, i: nat)
    requires Wrapping(m, key, pt, available, lines, current, start, i) && i < |key|
    requires current != "" && m(current + [key[i]], pt) > available
    ensures Wrapping(m, key, pt, available, lines + [current], [key[i]], i, i + 1)
  {
    assert current + [key[i]] == key[start..i + 1] && [key[i]] == key[i..i + 1];
    LineStep(m, key, pt, available, start, i);
    var rest := Wrap(m, key[i..], pt, available);
    assert lines + ([current] + rest) == (lines + [current]) + rest;
  }

  lemma LastLine(
    m: Measure, key: string, pt: real, available: real, lines: seq<string>, current: string, start: nat)
    requires Wrapping(m, key, pt, available, lines, current, start, |key|)
    ensures Wrap(m, key, pt, available) == lines + if current == "" then [] else [current]
  {
    assert key[start..] == current;
    if current != "" {
      assert current[..|key| - start] == current && current[|key| - start..] == "";
      assert Wrap(m, current, pt, available) == [current];
    }
  }

  method WrapKey(m: Measure, key: string, pt: real, available: real) returns (lines: seq<string>)
    ensures lines == Wrap(m, key, pt, available)
  {
    lines := [];
    var current := "";
    ghost var start := 0;
    assert key[0..] == key;
    for i := 0 to |key|
      invariant Wrapping(m, key, pt, available, lines, current, start, i)
    {
      if current != "" && m(current + [key[i]], pt) > available {
        LineCloses(m, key, pt, available, lines, current, start, i);
        assert "" + [key[i]] == [key[i]];
        lines := lines + [current];
        current := "";
        start := i;
      } else {
        LineGrows(m, key, pt, available, lines, current, start, i);
      }
      current := current + [key[i]];
    }
    LastLine(m, key, pt, available, lines, current, start);
    if current != "" {
      lines := lines + [current];
    }
  }

  lemma {:induction false} WrapLossless(m: Measure, key: string, pt: real, available: real)
    ensures Concat(Wrap(m, key, pt, available)) == key
    ensures forall i :: 0 <= i < |Wrap(m, key, pt, available)| ==> Wrap(m, key, pt, available)[i] != ""
    decreases |key|
  {
    if key != "" {
      var end := LineEnd(m, key, pt, available, 1);
      WrapLossless(m, key[end..], pt, available);
      assert Wrap(m, key, pt, available)[1..] == Wrap(m, key[end..], pt, available);
      assert key[..end] + key[end..] == key;
    }
  }

  lemma {:induction false} LineFits(m: Measure, key: string, pt: real, available: real, k: nat)
    requires 1 <= k <= |key| && m(key[..k], pt) <= available
    ensures m(key[..LineEnd(m, key, pt, available, k)], pt) <= available
    decreases |key| - k
  {
    if k < |key| && m(key[..k + 1], pt) <= available {
      LineFits(m, key, pt, available, k + 1);
    }
  }

  // Every line fits as soon as every single character does.
  lemma {:induction false} WrapFits(m: Measure, key: string, pt: real, available: real)
    requires forall i :: 0 <= i < |key| ==> m([key[i]], pt) <= available
    ensures AllFit(m, Wrap(m, key, pt, available), pt, available)
    decreases |key|
  {
    if key != "" {
      var end := LineEnd(m, key, pt, available, 1);
      assert key[..1] == [key[0]];
      LineFits(m, key, pt, available, 1);
      WrapFits(m, key[end..], pt, available);
    }
  }

  // The first line is at least as long as any prefix that fits.
  lemma {:induction false} LineReaches(m: Measure, key: string, pt: real, available: real, k: nat, target: nat)
    requires MonotoneOnSubstrings(m) && pt >= 0.0
    requires 1 <= k <= target <= |key| && m(key[..target], pt) <= available
    ensures LineEnd(m, key, pt, available, k) >= target
    decreases target - k
  {
    if k < target {
      PrefixNotWider(m, key[..target], k + 1, pt);
      assert key[..target][..k + 1] == key[..k + 1];
      LineReaches(m, key, pt, available, k + 1, target);
    }
  }

  // Greedy stays ahead: any tail of a text takes greedily no more lines than any split of the text
  // into fitting pieces.
  lemma {:induction false} GreedyStaysAhead(
    m: Measure, tail: string, pieces: seq<string>, pt: real, available: real)
    requires MonotoneOnSubstrings(m) && pt >= 0.0
    requires AllFit(m, pieces, pt, available)
    requires |tail| <= |Concat(pieces)| && tail == Concat(pieces)[|Concat(pieces)| - |tail|..]
    ensures |Wrap(m, tail, pt, available)| <= |pieces|
    decreases |pieces|
  {
    if tail != "" {
      var others := Concat(pieces[1..]);
      var whole := Concat(pieces);
      assert whole == pieces[0] + others;
      if |tail| <= |others| {
        assert tail == others[|others| - |tail|..];
        GreedyStaysAhead(m, tail, pieces[1..], pt, available);
      } else {
        var head := |tail| - |others|;
        assert tail[..head] == pieces[0][|pieces[0]| - head..];
        SuffixNotWider(m, pieces[0], |pieces[0]| - head, pt);
        LineReaches(m, tail, pt, available, 1, head);
        var end := LineEnd(m, tail, pt, available, 1);
        assert tail[end..] == others[|others| - |tail[end..]|..];
        GreedyStaysAhead(m, tail[end..], pieces[1..], pt, available);
      }
    }
  }

  // No other way of cutting the key into pieces that fit has fewer lines.
  lemma WrapOptimal(m: Measure, key: string, pieces: seq<string>, pt: real, available: real)
    requires MonotoneOnSubstrings(m) && pt >= 0.0
    requires Concat(pieces) == key && AllFit(m, pieces, pt, available)
    ensures |Wrap(m, key, pt, available)| <= |pieces|
  {
    GreedyStaysAhead(m, key, pieces, pt, available);
  }

  // ----- Fonts -----

  function Min(a: real, b: real): real { if b < a then b else a }
  function Max(a: real, b: real): real { if b > a then b else a }

  function FittingFont(m: Measure, text: string, available: real, maximum: real): (font: real)
    ensures font <= maximum
  {
    var width := m(text, KEY_FONT_MIN_PT);
    if width <= 0.0 then maximum
    else Min(maximum, KEY_FONT_MIN_PT * available / width)
  }

  // At its fitting font a text is never wider than the room it was fitted to, and a text that had
  // room at the smallest readable size is not printed smaller than that.
  lemma FittingFontFits(m: Measure, text: string, available: real, maximum: real)
    requires Sane(m) && available >= 0.0 && maximum >= KEY_FONT_MIN_PT
    ensures m(text, FittingFont(m, text, available, maximum)) <= available
    ensures m(text, KEY_FONT_MIN_PT) <= available ==>
              KEY_FONT_MIN_PT <= FittingFont(m, text, available, maximum)
  {
    var width := m(text, KEY_FONT_MIN_PT);
    var unit := m(text, 1.0);
    assert width == unit * KEY_FONT_MIN_PT;
    if width <= 0.0 {
      assert unit == 0.0;
    } else {
      var font := FittingFont(m, text, available, maximum);
      var exact := KEY_FONT_MIN_PT * available / width;
      assert exact == available / unit by { DivideOut(available, unit, width, exact); }
      assert unit * exact == available;
      assert unit * font <= unit * exact;
      if width <= available { RatioAtLeast(available, width, exact); }
    }
  }

  lemma DivideOut(available: real, unit: real, width: real, exact: real)
    requires unit > 0.0 && width == unit * KEY_FONT_MIN_PT
    requires exact == KEY_FONT_MIN_PT * available / width
    ensures exact == available / unit
  {
    assert exact * width == KEY_FONT_MIN_PT * available;
    assert exact * unit * KEY_FONT_MIN_PT == available * KEY_FONT_MIN_PT;
    assert exact * unit == available;
  }

  lemma RatioAtLeast(available: real, width: real, exact: real)
    requires 0.0 < width <= available && exact == KEY_FONT_MIN_PT * available / width
    ensures exact >= KEY_FONT_MIN_PT
  {
    assert available / width >= 1.0;
    assert exact == KEY_FONT_MIN_PT * (available / width);
  }

  // ----- Captions -----

  function CaptionWidth(m: Measure, name: string, date: string, pt: real): real {
    m(name, pt) + m(date, pt) + CAPTION_GAP_MM
  }

  predicate CaptionFits(m: Measure, name: string, date: string, pt: real, available: real) {
    CaptionWidth(m, name, date, pt) <= available
  }

  function CaptionFont(m: Measure, name: string, date: string, available: real): (font: real)
    requires CaptionIsDefined(m, name, date, available)
    ensures CAPTION_FONT_MIN_PT <= font
  {
    var needed := m(name, CAPTION_FONT_PT) + m(date, CAPTION_FONT_PT);
    var room := available - CAPTION_GAP_MM;
    if needed > room then Max(CAPTION_FONT_MIN_PT, CAPTION_FONT_PT * room / needed)
    else CAPTION_FONT_PT
  }

  // The one thing the font computation demands: it never divides by a zero width.
  predicate CaptionIsDefined(m: Measure, name: string, date: string, available: real) {
    m(name, CAPTION_FONT_PT) + m(date, CAPTION_FONT_PT) > available - CAPTION_GAP_MM ==>
      m(name, CAPTION_FONT_PT) + m(date, CAPTION_FONT_PT) != 0.0
  }

  predicate EndsWithEllipsis(name: string) {
    name != "" && name[|name| - 1] == ELLIPSIS[0]
  }

  // One turn of the truncation loop: drop a character (and the ellipsis before it), add the ellipsis.
  function CutOnce(name: string): string
    requires name != ""
  {
    (if EndsWithEllipsis(name) then (if |name| >= 2 then name[..|name| - 2] else "")
     else name[..|name| - 1]) + ELLIPSIS
  }

  // The longest of the first `k` prefixes that fits with an ellipsis; the bare ellipsis if none does.
  function LongestCut(m: Measure, name: string, date: string, pt: real, available: real, k: nat): (cut: string)
    requires k <= |name|
  {
    if k == 0 || CaptionFits(m, name[..k] + ELLIPSIS, date, pt, available) then name[..k] + ELLIPSIS
    else LongestCut(m, name, date, pt, available, k - 1)
  }

  function CaptionName(m: Measure, name: string, date: string, pt: real, available: real): string {
    if name == "" || CaptionFits(m, name, date, pt, available) then name
    else LongestCut(m, name, date, pt, available, |name| - 1)
  }

  // The name after `n` turns of the loop, guard or no guard.
  function CutTimes(name: string, n: nat): string
    requires name != ""
    ensures CutTimes(name, n) != ""
  {
    if n == 0 then name else CutOnce(CutTimes(name, n - 1))
  }

  predicate CaptionLoopEnds(m: Measure, name: string, date: string, pt: real, available: real) {
    || name == ""
    || CaptionFits(m, name, date, pt, available)
    || CaptionFits(m, ELLIPSIS, date, pt, available)
  }

  // The truncation loop. Its variant is (length, not yet ending with the ellipsis).
  method Caption(m: Measure, name: string, date: string, available: real) returns (font: real, cut: string)
    requires CaptionIsDefined(m, name, date, available)
    requires CaptionLoopEnds(m, name, date, CaptionFont(m, name, date, available), available)
    ensures font == CaptionFont(m, name, date, available)
    ensures cut == CaptionName(m, name, date, font, available)
  {
    font := CAPTION_FONT_PT;
    var needed := m(name, font) + m(date, font);
    var room := available - CAPTION_GAP_MM;
    if needed > room {
      font := Max(CAPTION_FONT_MIN_PT, font * room / needed);
    }
    cut := name;
    ghost var k: nat := |name|;
    while cut != "" && CaptionWidth(m, cut, date, font) > available
      invariant 0 <= k <= |name|
      invariant k == |name| ==> cut == name
      invariant k < |name| ==> !CaptionFits(m, name, date, font, available)
      invariant k < |name| ==> cut == name[..k] + ELLIPSIS
      invariant k < |name| ==>
                  CaptionName(m, name, date, font, available) == LongestCut(m, name, date, font, available, k)
      decreases |cut|, if EndsWithEllipsis(cut) then 0 else 1
    {
      if k < |name| {
        assert cut[|cut| - 1] == ELLIPSIS[0];
        assert k > 0 by { assert name[..0] + ELLIPSIS == ELLIPSIS; }
        assert cut[..|cut| - 2] == name[..k - 1];
        k := k - 1;
      } else if EndsWithEllipsis(name) {
        assert |name| == 1 ==> name == ELLIPSIS;
        assert name[..|name| - 1] + ELLIPSIS == name;
        k := |name| - 2;
      } else {
        k := |name| - 1;
      }
      cut := CutOnce(cut);
    }
  }

  lemma {:induction false} CutShrinks(name: string, n: nat)
    requires name != "" && n >= 1
    ensures EndsWithEllipsis(CutTimes(name, n))
    ensures |CutTimes(name, n)| <= if n <= |name| then |name| - n + 1 else 1
  {
    if n > 1 { CutShrinks(name, n - 1); }
  }

  // The guard of the loop is false after `n` turns.
  ghost predicate LoopEndsAfter(m: Measure, name: string, date: string, pt: real, available: real, n: nat)
    requires name != ""
  {
    CaptionFits(m, CutTimes(name, n), date, pt, available)
  }

  lemma EndedLoopHadRoom(m: Measure, name: string, date: string, pt: real, available: real, n: nat)
    requires MonotoneOnSubstrings(m) && pt >= 0.0 && name != ""
    requires LoopEndsAfter(m, name, date, pt, available, n)
    ensures CaptionLoopEnds(m, name, date, pt, available)
  {
    if n > 0 {
      CutShrinks(name, n);
      var cut := CutTimes(name, n);
      assert cut[|cut| - 1..] == ELLIPSIS;
      SuffixNotWider(m, cut, |cut| - 1, pt);
    }
  }

  lemma CutsEndBare(name: string)
    requires name != ""
    ensures CutTimes(name, |name|) == ELLIPSIS && CutOnce(ELLIPSIS) == ELLIPSIS
  {
    CutShrinks(name, |name|);
  }

  // The loop leaves its guard after finitely many turns in exactly these cases; in all others the
  // name sticks at a bare ellipsis for ever.
  lemma CaptionLoopEndsIff(m: Measure, name: string, date: string, pt: real, available: real)
    requires MonotoneOnSubstrings(m) && pt >= 0.0 && name != ""
    ensures CaptionLoopEnds(m, name, date, pt, available) <==>
              exists n: nat :: LoopEndsAfter(m, name, date, pt, available, n)
  {
    if CaptionFits(m, name, date, pt, available) {
      assert LoopEndsAfter(m, name, date, pt, available, 0);
    } else if CaptionFits(m, ELLIPSIS, date, pt, available) {
      CutsEndBare(name);
      assert LoopEndsAfter(m, name, date, pt, available, |name|);
    }
    forall n: nat | LoopEndsAfter(m, name, date, pt, available, n)
      ensures CaptionLoopEnds(m, name, date, pt, available)
    {
      EndedLoopHadRoom(m, name, date, pt, available, n);
    }
  }

  // `cut` is what is left of `name` after `kept` characters.
  ghost predicate IsBestCut(
    m: Measure, name: string, date: string, pt: real, available: real, k: nat, kept: nat)
    requires k <= |name|
  {
    && kept <= k
    && (kept == 0 || CaptionFits(m, name[..kept] + ELLIPSIS, date, pt, available))
    && forall j :: kept < j <= k ==> !CaptionFits(m, name[..j] + ELLIPSIS, date, pt, available)
  }

  lemma {:induction false} LongestCutIsBest(
    m: Measure, name: string, date: string, pt: real, available: real, k: nat) returns (kept: nat)
    requires k <= |name|
    ensures IsBestCut(m, name, date, pt, available, k, kept)
    ensures LongestCut(m, name, date, pt, available, k) == name[..kept] + ELLIPSIS
  {
    if k == 0 || CaptionFits(m, name[..k] + ELLIPSIS, date, pt, available) {
      kept := k;
    } else {
      kept := LongestCutIsBest(m, name, date, pt, available, k - 1);
    }
  }

  // What the truncation loop leaves is the name itself when it fits, else its longest proper prefix
  // that fits with an ellipsis; and whenever the loop ends, what it leaves fits (or is empty).
  lemma CaptionIsBestCut(m: Measure, name: string, date: string, pt: real, available: real)
    requires CaptionLoopEnds(m, name, date, pt, available)
    ensures CaptionName(m, name, date, pt, available) == "" ||
            CaptionFits(m, CaptionName(m, name, date, pt, available), date, pt, available)
    ensures CaptionFits(m, name, date, pt, available) ==> CaptionName(m, name, date, pt, available) == name
    ensures name != "" && !CaptionFits(m, name, date, pt, available) ==>
              exists kept: nat ::
                && kept < |name|
                && IsBestCut(m, name, date, pt, available, |name| - 1, kept)
                && CaptionName(m, name, date, pt, available) == name[..kept] + ELLIPSIS
  {
    if name != "" && !CaptionFits(m, name, date, pt, available) {
      var kept := LongestCutIsBest(m, name, date, pt, available, |name| - 1);
      assert name[..0] + ELLIPSIS == ELLIPSIS;
      assert IsBestCut(m, name, date, pt, available, |name| - 1, kept);
    }
  }

  // A caption that fits at the smallest size is shrunk until it fits, never cut.
  lemma FittingCaptionNeverCut(m: Measure, name: string, date: string, available: real)
    requires Sane(m) && available >= CAPTION_GAP_MM
    requires CaptionFits(m, name, date, CAPTION_FONT_MIN_PT, available)
    ensures CaptionIsDefined(m, name, date, available)
    ensures CaptionFits(m, name, date, CaptionFont(m, name, date, available), available)
  {
    CaptionFontFits(m, name, date, available);
  }

  lemma Shrinks(room: real, needed: real, exact: real)
    requires 0.0 <= room < needed && exact == CAPTION_FONT_PT * room / needed
    ensures exact * needed == CAPTION_FONT_PT * room && exact <= CAPTION_FONT_PT
  {
    if exact > CAPTION_FONT_PT {
      StrictlyMore(exact, CAPTION_FONT_PT, needed);
      assert false;
    }
  }

  lemma StrictlyMore(a: real, b: real, factor: real)
    requires a > b && factor > 0.0
    ensures a * factor > b * factor
  {
  }

  // Above the smallest size the whole caption fits; so the name is only ever cut at the smallest size.
  lemma CaptionFontFits(m: Measure, name: string, date: string, available: real)
    requires Sane(m) && available >= CAPTION_GAP_MM
    ensures CaptionIsDefined(m, name, date, available)
    ensures CaptionFont(m, name, date, available) <= CAPTION_FONT_PT
    ensures CaptionFont(m, name, date, available) > CAPTION_FONT_MIN_PT ==>
              CaptionFits(m, name, date, CaptionFont(m, name, date, available), available)
  {
    var unit := m(name, 1.0) + m(date, 1.0);
    var needed := m(name, CAPTION_FONT_PT) + m(date, CAPTION_FONT_PT);
    var room := available - CAPTION_GAP_MM;
    assert needed == unit * CAPTION_FONT_PT;
    if needed > room {
      var exact := CAPTION_FONT_PT * room / needed;
      Shrinks(room, needed, exact);
      assert exact * unit == room;
      assert CaptionWidth(m, name, date, exact) == unit * exact + CAPTION_GAP_MM;
    }
  }

  // With room for a bare ellipsis at the smallest size, the loop ends and its caption fits.
  lemma CaptionFitsInRoom(m: Measure, name: string, date: string, available: real)
    requires Sane(m) && available >= CAPTION_GAP_MM
    requires CaptionFits(m, ELLIPSIS, date, CAPTION_FONT_MIN_PT, available)
    ensures CaptionIsDefined(m, name, date, available)
    ensures CaptionLoopEnds(m, name, date, CaptionFont(m, name, date, available), available)
    ensures var font := CaptionFont(m, name, date, available);
            CaptionFits(m, CaptionName(m, name, date, font, available), date, font, available)
  {
    CaptionFontFits(m, name, date, available);
    var font := CaptionFont(m, name, date, available);
    CaptionIsBestCut(m, name, date, font, available);
    PrefixNotWider(m, ELLIPSIS, 0, font);
    assert ELLIPSIS[..0] == "";
  }
}
