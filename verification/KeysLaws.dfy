// What is printed where: every slip of the sheet, by its size, its text and its place, in the terms of the page.
module KeysLaws {
  import opened KeysText
  import opened KeysPages

  // ----- Sizes -----

  // A size is the largest one up to a limit at which something fits.
  ghost predicate LargestFitting(fits: real -> bool, font: real, limit: real) {
    font <= limit && fits(font) && forall pt: real :: font < pt <= limit ==> !fits(pt)
  }

  lemma WiderWhenLarger(unit: real, a: real, b: real)
    requires unit > 0.0 && a < b
    ensures unit * a < unit * b
  {
  }

  // A text is printed at the largest size up to the limit at which it fits.
  lemma FittingFontIsLargest(m: Measure, text: string, available: real, maximum: real)
    requires Sane(m) && available >= 0.0 && maximum >= KEY_FONT_MIN_PT
    ensures LargestFitting(pt => m(text, pt) <= available, FittingFont(m, text, available, maximum), maximum)
  {
    FittingFontFits(m, text, available, maximum);
    forall pt: real | FittingFont(m, text, available, maximum) < pt <= maximum ensures m(text, pt) > available {
      LargerTextIsWider(m, text, available, maximum, pt);
    }
  }

  lemma LargerTextIsWider(m: Measure, text: string, available: real, maximum: real, pt: real)
    requires Sane(m) && available >= 0.0 && FittingFont(m, text, available, maximum) < pt <= maximum
    ensures m(text, pt) > available
  {
    var width, unit := m(text, KEY_FONT_MIN_PT), m(text, 1.0);
    var exact := KEY_FONT_MIN_PT * available / width;
    assert width == unit * KEY_FONT_MIN_PT && width > 0.0 && exact < pt;
    DivideOut(available, unit, width, exact);
    assert unit * exact == available;
    WiderWhenLarger(unit, exact, pt);
    assert m(text, pt) == unit * pt;
  }

  predicate CaptionRoomy(m: Measure, name: string, date: string, pt: real, available: real) {
    m(name, pt) + m(date, pt) + 3.0 <= available
  }

  // The largest size from 6 up to 10 at which the caption fits, or 6 when it fits at none.
  ghost predicate CaptionSizeIs(m: Measure, pt: real, name: string, date: string, available: real) {
    && 6.0 <= pt <= 10.0 && (pt > 6.0 ==> CaptionRoomy(m, name, date, pt, available))
    && forall larger: real :: pt < larger <= 10.0 ==> !CaptionRoomy(m, name, date, larger, available)
  }

  lemma CaptionFontIsLargest(m: Measure, name: string, date: string, available: real)
    requires Sane(m) && available >= CAPTION_GAP_MM
    ensures CaptionIsDefined(m, name, date, available)
    ensures CaptionSizeIs(m, CaptionFont(m, name, date, available), name, date, available)
  {
    CaptionFontFits(m, name, date, available);
    var font := CaptionFont(m, name, date, available);
    assert font > 6.0 ==> CaptionFits(m, name, date, font, available);
    forall pt: real | font < pt <= 10.0 ensures !CaptionRoomy(m, name, date, pt, available) {
      LargerCaptionIsWider(m, name, date, available, pt);
    }
  }

  lemma LargerCaptionIsWider(m: Measure, name: string, date: string, available: real, pt: real)
    requires Sane(m) && available >= CAPTION_GAP_MM && CaptionIsDefined(m, name, date, available)
    requires CaptionFont(m, name, date, available) < pt <= 10.0
    ensures !CaptionRoomy(m, name, date, pt, available)
  {
    var unit := m(name, 1.0) + m(date, 1.0);
    var needed, room := m(name, CAPTION_FONT_PT) + m(date, CAPTION_FONT_PT), available - CAPTION_GAP_MM;
    assert needed == unit * CAPTION_FONT_PT && needed > room;
    var exact := CAPTION_FONT_PT * room / needed;
    Shrinks(room, needed, exact);
    assert exact < pt && exact * unit == room;
    assert unit * exact == room;
    WiderWhenLarger(unit, exact, pt);
    assert m(name, pt) == m(name, 1.0) * pt && m(date, pt) == m(date, 1.0) * pt;
    assert m(name, pt) + m(date, pt) == unit * pt;
    assert m(name, pt) + m(date, pt) > room;
  }

  // ----- Lines -----

  lemma {:induction false} LineEndIsGreedy(m: Measure, key: string, pt: real, available: real, k: nat)
    requires 1 <= k <= |key|
    ensures var end := LineEnd(m, key, pt, available, k);
            && (end < |key| ==> m(key[..end + 1], pt) > available)
            && forall j :: k < j <= end ==> m(key[..j], pt) <= available
    decreases |key| - k
  {
    if k < |key| && m(key[..k + 1], pt) <= available { LineEndIsGreedy(m, key, pt, available, k + 1); }
  }

  // Every line but the last is closed because the next character did not fit, and every character but the first
  // was added because it did.
  ghost predicate Greedy(m: Measure, lines: seq<string>, pt: real, available: real) {
    && (forall i :: 0 <= i < |lines| ==> lines[i] != "")
    && (forall i :: 0 <= i < |lines| - 1 && lines[i + 1] != "" ==> m(lines[i] + [lines[i + 1][0]], pt) > available)
    && (forall i, j :: 0 <= i < |lines| && 1 < j <= |lines[i]| ==> m(lines[i][..j], pt) <= available)
  }

  lemma {:induction false} WrapIsGreedy(m: Measure, key: string, pt: real, available: real)
    ensures Concat(Wrap(m, key, pt, available)) == key && Greedy(m, Wrap(m, key, pt, available), pt, available)
    decreases |key|
  {
    WrapLossless(m, key, pt, available);
    if key != "" {
      var end := LineEnd(m, key, pt, available, 1);
      var line, rest := key[..end], Wrap(m, key[end..], pt, available);
      LineEndIsGreedy(m, key, pt, available, 1);
      WrapIsGreedy(m, key[end..], pt, available);
      GreedyGrows(m, line, rest, key, pt, available);
    }
  }

  lemma GreedyGrows(m: Measure, line: string, rest: seq<string>, key: string, pt: real, available: real)
    requires 1 <= |line| <= |key| && line == key[..|line|] && Concat(rest) == key[|line|..]
    requires Greedy(m, rest, pt, available)
    requires |line| < |key| ==> m(key[..|line| + 1], pt) > available
    requires forall j :: 1 < j <= |line| ==> m(key[..j], pt) <= available
    ensures Greedy(m, [line] + rest, pt, available)
  {
    var lines := [line] + rest;
    forall i, j | 0 <= i < |lines| && 1 < j <= |lines[i]| ensures m(lines[i][..j], pt) <= available {
      if i == 0 { assert line[..j] == key[..j]; } else { assert lines[i] == rest[i - 1]; }
    }
    forall i | 0 <= i < |lines| - 1 && lines[i + 1] != "" ensures m(lines[i] + [lines[i + 1][0]], pt) > available {
      if i == 0 {
        assert Concat(rest)[0] == rest[0][0];
        assert line + [rest[0][0]] == key[..|line| + 1];
      } else {
        assert lines[i] == rest[i - 1] && lines[i + 1] == rest[i];
      }
    }
  }

  // ----- Columns -----

  lemma {:induction false} LongestIsAKey(m: Measure, keys: seq<string>)
    requires keys != []
    ensures exists key :: key in keys && m(key, KEY_FONT_MIN_PT) == Longest(m, keys)
  {
    if |keys| == 1 {
      assert keys[0] in keys;
    } else {
      LongestIsAKey(m, keys[1..]);
      var key :| key in keys[1..] && m(key, KEY_FONT_MIN_PT) == Longest(m, keys[1..]);
      assert key in keys && keys[0] in keys;
    }
  }

  // The room for text in one of so many columns of a page: 190 mm less the gaps of 4 mm between them, shared out,
  // less the padding on both sides.
  function Room(columns: nat): real
    requires columns > 0
  {
    (190.0 - 4.0 * (columns - 1) as real) / columns as real - 2.0 * SLIP_PADDING_MM
  }

  predicate AllFitIn(m: Measure, keys: seq<string>, name: string, date: string, columns: nat)
    requires columns > 0
  {
    && (forall key :: key in keys ==> m(key, 12.0) <= Room(columns))
    && m(name, 6.0) + m(date, 6.0) + 3.0 <= Room(columns)
  }

  // The grid has as many columns as possible, up to four, in which every key and the caption fit; else it has one.
  lemma ColumnsAreMost(m: Measure, keys: seq<string>, name: string, date: string)
    requires keys != []
    ensures var count := ColumnsCount(m, keys, name, date);
            && 1 <= count <= 4 && (count > 1 ==> AllFitIn(m, keys, name, date, count))
            && forall more :: count < more <= 4 ==> !AllFitIn(m, keys, name, date, more)
  {
    var count, longest := ColumnsCount(m, keys, name, date), Longest(m, keys);
    LongestIsAKey(m, keys);
    var key :| key in keys && m(key, KEY_FONT_MIN_PT) == longest;
    forall more | count < more <= 4 ensures !AllFitIn(m, keys, name, date, more) {
      assert Max(longest, CaptionWidth(m, name, date, CAPTION_FONT_MIN_PT)) > Available(more);
      assert Available(more) == Room(more);
    }
    if count > 1 { assert Available(count) == Room(count); }
  }

  // ----- One slip -----

  // The name as it is printed: whole where it fits, else cut as late as possible.
  ghost predicate NamePrinted(m: Measure, name: string, date: string, pt: real, available: real, printed: string) {
    if name == "" || m(name, pt) + m(date, pt) + 3.0 <= available then printed == name
    else exists kept: nat ::
           && kept < |name| && printed == name[..kept] + ELLIPSIS
           && m(printed, pt) + m(date, pt) + 3.0 <= available
           && forall j :: kept < j < |name| ==> m(name[..j] + ELLIPSIS, pt) + m(date, pt) + 3.0 > available
  }

  lemma CaptionNameIsPrinted(m: Measure, name: string, date: string, pt: real, available: real)
    requires CaptionLoopEnds(m, name, date, pt, available)
    ensures NamePrinted(m, name, date, pt, available, CaptionName(m, name, date, pt, available))
  {
    CaptionIsBestCut(m, name, date, pt, available);
    if name != "" && !CaptionFits(m, name, date, pt, available) {
      var printed := CaptionName(m, name, date, pt, available);
      var kept: nat :| kept < |name| && IsBestCut(m, name, date, pt, available, |name| - 1, kept)
                       && printed == name[..kept] + ELLIPSIS;
      assert CaptionFits(m, printed, date, pt, available);
      forall j | kept < j < |name| ensures m(name[..j] + ELLIPSIS, pt) + m(date, pt) + 3.0 > available {
        assert !CaptionFits(m, name[..j] + ELLIPSIS, date, pt, available);
      }
    }
  }

  // The slip lies in the middle of the rectangle.
  predicate Centred(slip: Slip, left: real, top: real, width: real, height: real) {
    slip.left + slip.width / 2.0 == left + width / 2.0 && slip.top + slip.height / 2.0 == top + height / 2.0
  }

  // What a slip says, and how large: the key in its largest size up to the limit, and the caption with the date.
  ghost predicate Says(m: Measure, slip: Slip, key: string, available: real, name: string, date: string) {
    && slip.lines == [key] && slip.captionDate == date
    && LargestFitting(pt => m(key, pt) <= available, slip.fontPt, KEY_FONT_MAX_PT)
    && CaptionSizeIs(m, slip.captionFontPt, name, date, available)
    && NamePrinted(m, name, date, slip.captionFontPt, available, slip.captionName)
  }

  // The left edge of the `i`-th cell counted along the rows, and its top.
  function LeftOf(columns: nat, i: nat): real
    requires columns > 0
  {
    10.0 + (i % columns) as real * (Room(columns) + 2.0 * SLIP_PADDING_MM + 4.0)
  }

  function TopOf(columns: nat, i: nat, rowHeight: real): real
    requires columns > 0
  {
    10.0 + (i / columns) as real * rowHeight
  }

  // A slip of the grid lies in the middle of its cell.
  ghost predicate GridSlipIs(
    m: Measure, slip: Slip, key: string, i: nat, columns: nat, rowHeight: real, name: string, date: string)
    requires columns > 0
  {
    && Says(m, slip, key, Room(columns), name, date)
    && Centred(slip, LeftOf(columns, i), TopOf(columns, i, rowHeight), Room(columns) + 2.0 * SLIP_PADDING_MM, rowHeight)
  }

  lemma FittedIsCentred(
    m: Measure, lines: seq<string>, fontPt: real, captionName: string, date: string, captionFontPt: real,
    left: real, top: real, width: real, height: real)
    requires lines != []
    ensures Centred(Fitted(m, lines, fontPt, captionName, date, captionFontPt, left, top, width, height),
                    left, top, width, height)
  {
  }

  lemma CellIs(columns: nat, i: nat, rowHeight: real)
    requires 1 <= columns <= MAX_COLUMNS
    ensures Available(columns) == Room(columns) && ColumnWidth(columns) == Room(columns) + 2.0 * SLIP_PADDING_MM
    ensures CellLeft(columns, i) == LeftOf(columns, i) && CellTop(columns, rowHeight, i) == TopOf(columns, i, rowHeight)
  {
  }

  lemma SlipSays(
    m: Measure, key: string, available: real, name: string, date: string,
    left: real, top: real, width: real, height: real)
    requires Sane(m) && available >= CAPTION_GAP_MM && CaptionIsDefined(m, name, date, available)
    requires CaptionLoopEnds(m, name, date, CaptionFont(m, name, date, available), available)
    ensures var captionFont := CaptionFont(m, name, date, available);
            Says(m, Fitted(m, [key], FittingFont(m, key, available, KEY_FONT_MAX_PT),
                           CaptionName(m, name, date, captionFont, available), date, captionFont,
                           left, top, width, height), key, available, name, date)
  {
    FittingFontIsLargest(m, key, available, KEY_FONT_MAX_PT);
    CaptionFontIsLargest(m, name, date, available);
    CaptionNameIsPrinted(m, name, date, CaptionFont(m, name, date, available), available);
  }

  lemma GridSlipLaw(
    m: Measure, key: string, i: nat, columns: nat, rowHeight: real, name: string, date: string)
    requires Sane(m) && 1 <= columns <= MAX_COLUMNS
    requires CaptionIsDefined(m, name, date, Available(columns))
    requires CaptionLoopEnds(m, name, date, CaptionFont(m, name, date, Available(columns)), Available(columns))
    ensures GridSlipIs(m, GridSlip(m, key, i, columns, rowHeight, name, date), key, i, columns, rowHeight, name, date)
  {
    var available := Available(columns);
    var captionFont := CaptionFont(m, name, date, available);
    var left, top, width := CellLeft(columns, i), CellTop(columns, rowHeight, i), ColumnWidth(columns);
    ColumnsAreWide(columns);
    CellIs(columns, i, rowHeight);
    SlipSays(m, key, available, name, date, left, top, width, rowHeight);
    FittedIsCentred(m, [key], FittingFont(m, key, available, KEY_FONT_MAX_PT),
                    CaptionName(m, name, date, captionFont, available), date, captionFont, left, top, width, rowHeight);
  }

  // ----- The pages of the grid -----

  // The slips of a page are these keys in order.
  ghost predicate GridPageIs(
    m: Measure, page: Page, keys: seq<string>, columns: nat, rowHeight: real, name: string, date: string)
    requires columns > 0
  {
    && |page| == |keys|
    && forall i :: 0 <= i < |page| ==> GridSlipIs(m, page[i], keys[i], i, columns, rowHeight, name, date)
  }

  // The pages hold so many slips each, but for the last.
  ghost predicate GridPagesAre(
    m: Measure, pages: seq<Page>, slips: seq<string>, perPage: nat, columns: nat, rowHeight: real,
    name: string, date: string)
    requires columns > 0 && perPage > 0
    decreases |slips|
  {
    if slips == [] then pages == []
    else
      var taken := MinNat(|slips|, perPage);
      && pages != [] && GridPageIs(m, pages[0], slips[..taken], columns, rowHeight, name, date)
      && GridPagesAre(m, pages[1..], slips[taken..], perPage, columns, rowHeight, name, date)
  }

  lemma {:induction false} PagesLaw(
    m: Measure, slips: seq<string>, perPage: nat, columns: nat, rowHeight: real, name: string, date: string)
    requires Sane(m) && 1 <= columns <= MAX_COLUMNS && perPage > 0
    requires CaptionIsDefined(m, name, date, Available(columns))
    requires CaptionLoopEnds(m, name, date, CaptionFont(m, name, date, Available(columns)), Available(columns))
    ensures GridPagesAre(m, PagesFrom(m, slips, perPage, columns, rowHeight, name, date), slips, perPage, columns,
                         rowHeight, name, date)
    decreases |slips|
  {
    if slips != [] {
      var taken := MinNat(|slips|, perPage);
      var page := GridPage(m, slips[..taken], columns, rowHeight, name, date);
      var rest := PagesFrom(m, slips[taken..], perPage, columns, rowHeight, name, date);
      PagesLaw(m, slips[taken..], perPage, columns, rowHeight, name, date);
      forall i | 0 <= i < taken ensures GridSlipIs(m, page[i], slips[..taken][i], i, columns, rowHeight, name, date) {
        GridSlipLaw(m, slips[..taken][i], i, columns, rowHeight, name, date);
      }
      assert ([page] + rest)[1..] == rest;
    }
  }

  // Keys that fit one page are repeated as often as they all fit it, others are printed once.
  predicate CopiesFillPage(copies: nat, keys: nat, perPage: nat) {
    if keys <= perPage then copies * keys <= perPage < (copies + 1) * keys else copies == 1
  }

  lemma CopiesLaw(perPage: nat, keys: nat)
    requires keys > 0
    ensures CopiesFillPage(Copies(perPage, keys), keys, perPage)
  {
    if keys <= perPage { CopiesFill(perPage, keys); } else { DivBounds(perPage, keys); }
  }

  // The copies of a key follow one another, in the order of the keys.
  lemma {:induction false} CopiesFollow(keys: seq<string>, copies: nat, i: nat, j: nat)
    requires i < |keys| && j < copies
    ensures i * copies + j < |RepeatEach(keys, copies)| && RepeatEach(keys, copies)[i * copies + j] == keys[i]
  {
    InRange(|keys|, copies, i, j);
    if i > 0 {
      InRange(|keys| - 1, copies, i - 1, j);
      CopiesFollow(keys[1..], copies, i - 1, j);
      assert i * copies + j == copies + ((i - 1) * copies + j);
    }
  }

  lemma InRange(keys: nat, copies: nat, i: nat, j: nat)
    requires i < keys && j < copies
    ensures 0 <= i * copies + j < keys * copies
  {
    assert (i + 1) * copies <= keys * copies;
  }

  // As many columns as possible, and as many rows as the slips of a full page take, at most 18.
  ghost predicate GridIs(m: Measure, keys: seq<string>, name: string, date: string, columns: nat, rows: nat) {
    && 1 <= columns <= 4 && (columns > 1 ==> AllFitIn(m, keys, name, date, columns))
    && (forall more :: columns < more <= 4 ==> !AllFitIn(m, keys, name, date, more))
    && CopiesFillPage(GridCopies(m, keys, name, date), |keys|, 18 * columns)
    && var slips := RepeatEach(keys, GridCopies(m, keys, name, date));
       && 0 < rows && (rows - 1) * columns < MinNat(|slips|, 18 * columns) <= rows * columns
       && GridPagesAre(m, GridPages(m, keys, name, date), slips, 18 * columns, columns, 277.0 / rows as real,
                       name, date)
  }

  // The grid: every key repeated the number of copies, in order, 18 rows a page.
  lemma GridLaw(m: Measure, keys: seq<string>, name: string, date: string)
    requires Sane(m) && keys != [] && CaptionFits(m, ELLIPSIS, date, CAPTION_FONT_MIN_PT, WIDEST_MM)
    ensures exists columns: nat, rows: nat :: GridIs(m, keys, name, date, columns, rows)
  {
    var columns, rows := ColumnsCount(m, keys, name, date), UsedRows(m, keys, name, date);
    var slips := RepeatEach(keys, GridCopies(m, keys, name, date));
    ColumnsAreMost(m, keys, name, date);
    RowsFit();
    CopiesLaw(18 * columns, |keys|);
    CaptionEnds(m, keys, name, date);
    GridHasSlips(keys, GridCopies(m, keys, name, date));
    RowsAreFewest(MinNat(|slips|, 18 * columns), columns);
    PagesLaw(m, slips, 18 * columns, columns, 277.0 / rows as real, name, date);
    assert GridIs(m, keys, name, date, columns, rows);
  }

  lemma RowsAreFewest(slips: nat, columns: nat)
    requires slips > 0 && columns > 0
    ensures var rows := CeilDiv(slips, columns); 0 < rows && (rows - 1) * columns < slips <= rows * columns
  {
    CeilDivCovers(slips, columns);
    DivBounds(slips + columns - 1, columns);
  }

  lemma CaptionEnds(m: Measure, keys: seq<string>, name: string, date: string)
    requires Sane(m) && keys != [] && CaptionFits(m, ELLIPSIS, date, CAPTION_FONT_MIN_PT, WIDEST_MM)
    ensures var available := Available(ColumnsCount(m, keys, name, date));
            && CaptionIsDefined(m, name, date, available)
            && CaptionLoopEnds(m, name, date, CaptionFont(m, name, date, available), available)
  {
    var columns := ColumnsCount(m, keys, name, date);
    ColumnsAreWide(columns);
    if columns > 1 {
      FittingCaptionNeverCut(m, name, date, Available(columns));
    } else {
      CaptionFitsInRoom(m, name, date, WIDEST_MM);
    }
  }

  // ----- The page of a long key -----

  // What a slip of a long key says: the whole key, in lines that are as long as they can be, and the caption.
  ghost predicate LongSays(m: Measure, slip: Slip, key: string, font: real, name: string, date: string) {
    && Concat(slip.lines) == key && Greedy(m, slip.lines, font, Room(1)) && slip.fontPt == font
    && CaptionSizeIs(m, slip.captionFontPt, name, date, Room(1)) && slip.captionDate == date
    && NamePrinted(m, name, date, slip.captionFontPt, Room(1), slip.captionName)
  }

  // The `i`-th of the copies one under the other, in rows of this height.
  ghost predicate LongSlipIs(
    m: Measure, slip: Slip, key: string, font: real, name: string, date: string, i: nat, rowHeight: real) {
    LongSays(m, slip, key, font, name, date) && Centred(slip, 10.0, 10.0 + i as real * rowHeight, 190.0, rowHeight)
  }

  // At most four copies, and as many as fit.
  predicate CopiesAre(copies: nat, height: real) {
    && 1 <= copies <= 4 && (copies > 1 ==> copies as real * height <= 277.0)
    && (copies < 4 ==> (copies + 1) as real * height > 277.0)
  }

  lemma LongSlipSays(
    m: Measure, key: string, font: real, captionFont: real, name: string, date: string, top: real, rowHeight: real)
    requires Sane(m) && key != "" && CaptionSizeIs(m, captionFont, name, date, Room(1))
    requires CaptionLoopEnds(m, name, date, captionFont, Room(1))
    ensures LongSays(m, Fitted(m, Wrap(m, key, font, WIDEST_MM), font,
                               CaptionName(m, name, date, captionFont, WIDEST_MM), date, captionFont,
                               MARGIN_MM, top, CONTENT_WIDTH_MM, rowHeight), key, font, name, date)
  {
    assert Room(1) == WIDEST_MM;
    WrapIsGreedy(m, key, font, WIDEST_MM);
    CaptionNameIsPrinted(m, name, date, captionFont, WIDEST_MM);
  }

  lemma LongSlipLaw(
    m: Measure, key: string, font: real, captionFont: real, name: string, date: string, i: nat, rowHeight: real)
    requires Sane(m) && key != "" && CaptionSizeIs(m, captionFont, name, date, Room(1))
    requires CaptionLoopEnds(m, name, date, captionFont, Room(1))
    ensures LongSlipIs(m, LongSlip(m, Wrap(m, key, font, WIDEST_MM), font,
                                   CaptionName(m, name, date, captionFont, WIDEST_MM), date, captionFont,
                                   rowHeight, i), key, font, name, date, i, rowHeight)
  {
    var top := MARGIN_MM + i as real * rowHeight;
    LongSlipSays(m, key, font, captionFont, name, date, top, rowHeight);
    FittedIsCentred(m, Wrap(m, key, font, WIDEST_MM), font, CaptionName(m, name, date, captionFont, WIDEST_MM), date,
                    captionFont, MARGIN_MM, top, CONTENT_WIDTH_MM, rowHeight);
  }

  lemma LongPageSlips(
    m: Measure, key: string, font: real, captionFont: real, name: string, date: string, copies: nat)
    requires Sane(m) && key != "" && copies > 0 && CaptionSizeIs(m, captionFont, name, date, Room(1))
    requires CaptionLoopEnds(m, name, date, captionFont, Room(1))
    ensures var lines := Wrap(m, key, font, WIDEST_MM);
            var page := LongSlips(m, lines, font, CaptionName(m, name, date, captionFont, WIDEST_MM), date, captionFont,
                                  copies);
            && (forall i :: 0 <= i < copies ==>
                  LongSlipIs(m, page[i], key, font, name, date, i, 277.0 / copies as real))
            && page[0].lines == lines && page[0].captionFontPt == captionFont
  {
    var rowHeight := 277.0 / copies as real;
    var page := LongSlips(m, Wrap(m, key, font, WIDEST_MM), font, CaptionName(m, name, date, captionFont, WIDEST_MM),
                          date, captionFont, copies);
    forall i | 0 <= i < copies ensures LongSlipIs(m, page[i], key, font, name, date, i, rowHeight) {
      LongSlipLaw(m, key, font, captionFont, name, date, i, rowHeight);
    }
  }

  // The page of a long key, at the size found for it.
  lemma LongKeyPageLaw(m: Measure, key: string, name: string, date: string)
    requires Sane(m) && key != "" && CaptionFits(m, ELLIPSIS, date, CAPTION_FONT_MIN_PT, WIDEST_MM)
    ensures var page, font := LongKeyPage(m, key, name, date), LongSize(m, key, name, date) as real;
            && page != []
            && (forall i :: 0 <= i < |page| ==>
                  LongSlipIs(m, page[i], key, font, name, date, i, 277.0 / |page| as real))
            && CopiesAre(|page|, BlockHeight(|page[0].lines|, font, page[0].captionFontPt))
  {
    var captionFont, font := CaptionFont(m, name, date, WIDEST_MM), LongSize(m, key, name, date) as real;
    var height := BlockHeight(|Wrap(m, key, font, WIDEST_MM)|, font, captionFont);
    assert Room(1) == WIDEST_MM;
    CaptionFitsInRoom(m, name, date, WIDEST_MM);
    CaptionFontIsLargest(m, name, date, WIDEST_MM);
    CopiesAreMost(height);
    LongPageSlips(m, key, font, captionFont, name, date, LongCopies(height));
  }

  lemma CopiesAreMost(height: real)
    requires height > 0.0
    ensures CopiesAre(LongCopies(height), height)
  {
    var ratio, copies := 277.0 / height, LongCopies(height);
    assert ratio * height == 277.0 && ratio > 0.0;
    if copies > 1 { MultiplyBy(copies as real, ratio, height); }
    if copies < 4 {
      assert ratio < (copies + 1) as real;
      WiderWhenLarger(height, ratio, (copies + 1) as real);
    }
  }
}
