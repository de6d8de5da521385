// The page half of the printed-key sheet: which keys go where, how many copies, and the rectangles.
module KeysPages {
  import opened KeysText

  const PAGE_WIDTH_MM := 210.0
  const PAGE_HEIGHT_MM := 297.0
  const MARGIN_MM := 10.0
  const COLUMN_GAP_MM := 4.0
  const MAX_COLUMNS: nat := 4
  const MAX_COPIES_OF_LONG_KEY: nat := 4
  const CONTENT_WIDTH_MM := PAGE_WIDTH_MM - 2.0 * MARGIN_MM
  const CONTENT_HEIGHT_MM := PAGE_HEIGHT_MM - 2.0 * MARGIN_MM
  const WIDEST_MM := CONTENT_WIDTH_MM - 2.0 * SLIP_PADDING_MM

  datatype Slip = Slip(
    lines: seq<string>, fontPt: real,
    captionName: string, captionDate: string, captionFontPt: real,
    left: real, top: real, width: real, height: real)

  type Page = seq<Slip>

  datatype Sheet = Sheet(pages: seq<Page>, copies: nat)

  // ----- Splitting the keys -----

  function Select(m: Measure, keys: seq<string>, ordinary: bool): (selected: seq<string>)
    ensures forall key :: key in selected ==>
              key in keys && (m(key, KEY_FONT_MIN_PT) <= WIDEST_MM) == ordinary
  {
    if keys == [] then [] else SelectOne(m, keys[0], ordinary) + Select(m, keys[1..], ordinary)
  }

  function SelectOne(m: Measure, key: string, ordinary: bool): seq<string> {
    if (m(key, KEY_FONT_MIN_PT) <= WIDEST_MM) == ordinary then [key] else []
  }

  lemma {:induction false} SelectAppends(m: Measure, keys: seq<string>, key: string, ordinary: bool)
    ensures Select(m, keys + [key], ordinary) == Select(m, keys, ordinary) + SelectOne(m, key, ordinary)
  {
    if keys != [] {
      SelectAppends(m, keys[1..], key, ordinary);
      assert (keys + [key])[1..] == keys[1..] + [key] && (keys + [key])[0] == keys[0];
      var one, last := SelectOne(m, keys[0], ordinary), SelectOne(m, key, ordinary);
      var rest := Select(m, keys[1..], ordinary);
      assert one + (rest + last) == (one + rest) + last;
    } else {
      assert (keys + [key])[1..] == [] && (keys + [key])[0] == key;
      assert SelectOne(m, key, ordinary) + [] == [] + SelectOne(m, key, ordinary);
    }
  }

  method SplitByLength(m: Measure, keys: seq<string>) returns (ordinary: seq<string>, long: seq<string>)
    ensures ordinary == Select(m, keys, true)
    ensures long == Select(m, keys, false)
  {
    ordinary, long := [], [];
    for i := 0 to |keys|
      invariant ordinary == Select(m, keys[..i], true)
      invariant long == Select(m, keys[..i], false)
    {
      assert keys[..i + 1] == keys[..i] + [keys[i]];
      SelectAppends(m, keys[..i], keys[i], true);
      SelectAppends(m, keys[..i], keys[i], false);
      if m(keys[i], KEY_FONT_MIN_PT) <= WIDEST_MM {
        ordinary := ordinary + [keys[i]];
      } else {
        long := long + [keys[i]];
      }
    }
    assert keys[..|keys|] == keys;
  }

  lemma CountHead(keys: seq<string>, key: string)
    requires keys != []
    ensures multiset(keys)[key] == multiset(keys[1..])[key] + if key == keys[0] then 1 else 0
  {
    assert keys == [keys[0]] + keys[1..];
  }

  lemma {:induction false} SelectedAsOften(m: Measure, keys: seq<string>, ordinary: bool, key: string)
    ensures multiset(Select(m, keys, ordinary))[key]
         == if (m(key, KEY_FONT_MIN_PT) <= WIDEST_MM) == ordinary then multiset(keys)[key] else 0
  {
    if keys != [] {
      SelectedAsOften(m, keys[1..], ordinary, key);
      CountHead(keys, key);
    }
  }

  lemma OneOfBoth(m: Measure, keys: seq<string>, key: string)
    ensures multiset(Select(m, keys, true))[key] + multiset(Select(m, keys, false))[key] == multiset(keys)[key]
    ensures multiset(Select(m, keys, true))[key] == 0 || multiset(Select(m, keys, false))[key] == 0
  {
    SelectedAsOften(m, keys, true, key);
    SelectedAsOften(m, keys, false, key);
  }

  // Every key lands in exactly one of the two lists.
  lemma SplitConserves(m: Measure, keys: seq<string>)
    ensures multiset(Select(m, keys, true)) + multiset(Select(m, keys, false)) == multiset(keys)
    ensures multiset(Select(m, keys, true)) !! multiset(Select(m, keys, false))
  {
    var one, other := multiset(Select(m, keys, true)), multiset(Select(m, keys, false));
    forall key {:trigger one[key]}
      ensures one[key] + other[key] == multiset(keys)[key] && (one[key] == 0 || other[key] == 0) {
      OneOfBoth(m, keys, key);
    }
  }

  // ----- The grid -----

  function Longest(m: Measure, keys: seq<string>): (longest: real)
    requires keys != []
    ensures forall key :: key in keys ==> m(key, KEY_FONT_MIN_PT) <= longest
  {
    if |keys| == 1 then m(keys[0], KEY_FONT_MIN_PT)
    else Max(m(keys[0], KEY_FONT_MIN_PT), Longest(m, keys[1..]))
  }

  function ColumnWidth(columns: nat): real
    requires columns > 0
  {
    (CONTENT_WIDTH_MM - (columns - 1) as real * COLUMN_GAP_MM) / columns as real
  }

  function Available(columns: nat): real
    requires columns > 0
  {
    ColumnWidth(columns) - 2.0 * SLIP_PADDING_MM
  }

  // The widest column count not above `columns` in which the longest key and the caption fit, else one.
  function ColumnsFrom(longest: real, caption: real, columns: nat): (count: nat)
    requires 1 <= columns
    ensures 1 <= count <= columns
    ensures count > 1 ==> longest <= Available(count) && caption <= Available(count)
    ensures forall wider :: count < wider <= columns ==> Max(longest, caption) > Available(wider)
  {
    if columns == 1 || Max(longest, caption) <= Available(columns) then columns
    else ColumnsFrom(longest, caption, columns - 1)
  }

  function ColumnsCount(m: Measure, keys: seq<string>, name: string, date: string): nat
    requires keys != []
  {
    ColumnsFrom(Longest(m, keys), CaptionWidth(m, name, date, CAPTION_FONT_MIN_PT), MAX_COLUMNS)
  }

  function BlockHeight(lines: nat, fontPt: real, captionFontPt: real): real {
    (lines as real * fontPt + captionFontPt) * LINE_HEIGHT * PT_IN_MM + 2.0 * SLIP_PADDING_MM
  }

  function SlipHeight(): real {
    (KEY_FONT_MAX_PT + CAPTION_FONT_PT) * LINE_HEIGHT * PT_IN_MM + 2.0 * SLIP_PADDING_MM
  }

  function Rows(): nat {
    var fitting := (CONTENT_HEIGHT_MM / SlipHeight()).Floor;
    if fitting > 1 then fitting else 1
  }

  lemma RowsFit()
    ensures Rows() == 18 && 18.0 * SlipHeight() <= CONTENT_HEIGHT_MM < 19.0 * SlipHeight()
  {
    var ratio := CONTENT_HEIGHT_MM / SlipHeight();
    assert 18.0 <= ratio < 19.0;
  }

  function Copies(perPage: nat, keys: nat): nat
    requires keys > 0
  {
    if perPage / keys > 1 then perPage / keys else 1
  }

  function RepeatEach(keys: seq<string>, copies: nat): (slips: seq<string>)
    ensures |slips| == |keys| * copies
  {
    if keys == [] then [] else seq(copies, _ => keys[0]) + RepeatEach(keys[1..], copies)
  }

  function MinNat(a: nat, b: nat): nat { if b < a then b else a }

  function CeilDiv(a: nat, b: nat): nat
    requires b > 0
  {
    (a + b - 1) / b
  }

  function MaxWidth(m: Measure, lines: seq<string>, fontPt: real): (widest: real)
    requires lines != []
    ensures forall i :: 0 <= i < |lines| ==> m(lines[i], fontPt) <= widest
    ensures exists i :: 0 <= i < |lines| && m(lines[i], fontPt) == widest
  {
    if |lines| == 1 then m(lines[0], fontPt)
    else
      var rest := MaxWidth(m, lines[1..], fontPt);
      assert exists i :: 0 <= i < |lines[1..]| && m(lines[1..][i], fontPt) == rest;
      Max(m(lines[0], fontPt), rest)
  }

  // A slip centred in the rectangle it was given, no bigger than what it holds.
  function Fitted(
    m: Measure, lines: seq<string>, fontPt: real,
    captionName: string, captionDate: string, captionFontPt: real,
    left: real, top: real, width: real, height: real): Slip
    requires lines != []
  {
    var content := Max(MaxWidth(m, lines, fontPt), CaptionWidth(m, captionName, captionDate, captionFontPt));
    var fitWidth := Min(width, content + 2.0 * SLIP_PADDING_MM);
    var fitHeight := Min(height, BlockHeight(|lines|, fontPt, captionFontPt));
    Slip(lines, fontPt, captionName, captionDate, captionFontPt,
         left + (width - fitWidth) / 2.0, top + (height - fitHeight) / 2.0, fitWidth, fitHeight)
  }

  function CellLeft(columns: nat, i: nat): real
    requires columns > 0
  {
    MARGIN_MM + (i % columns) as real * (ColumnWidth(columns) + COLUMN_GAP_MM)
  }

  function CellTop(columns: nat, rowHeight: real, i: nat): real
    requires columns > 0
  {
    MARGIN_MM + (i / columns) as real * rowHeight
  }

  lemma ColumnsAreWide(columns: nat)
    requires 1 <= columns <= MAX_COLUMNS
    ensures Available(columns) >= 40.0
  {
    if columns == 1 {
      assert ColumnWidth(1) == 190.0;
    } else if columns == 2 {
      assert ColumnWidth(2) == 93.0;
    } else if columns == 3 {
      assert ColumnWidth(3) * 3.0 == 182.0;
    } else {
      assert ColumnWidth(4) == 44.5;
    }
  }

  function GridSlip(
    m: Measure, key: string, i: nat, columns: nat, rowHeight: real, name: string, date: string): Slip
    requires 1 <= columns <= MAX_COLUMNS
  {
    ColumnsAreWide(columns);
    var available := Available(columns);
    var captionFont := CaptionFont(m, name, date, available);
    Fitted(m, [key], FittingFont(m, key, available, KEY_FONT_MAX_PT),
           CaptionName(m, name, date, captionFont, available), date, captionFont,
           CellLeft(columns, i), CellTop(columns, rowHeight, i), ColumnWidth(columns), rowHeight)
  }

  function GridPage(
    m: Measure, keys: seq<string>, columns: nat, rowHeight: real, name: string, date: string): (page: Page)
    requires 1 <= columns <= MAX_COLUMNS
    ensures |page| == |keys|
  {
    seq(|keys|, i requires 0 <= i < |keys| => GridSlip(m, keys[i], i, columns, rowHeight, name, date))
  }

  function PagesFrom(
    m: Measure, slips: seq<string>, perPage: nat, columns: nat, rowHeight: real, name: string, date: string)
    : (pages: seq<Page>)
    requires 1 <= columns <= MAX_COLUMNS && perPage > 0
  {
    if slips == [] then []
    else
      var taken := MinNat(|slips|, perPage);
      [GridPage(m, slips[..taken], columns, rowHeight, name, date)]
      + PagesFrom(m, slips[taken..], perPage, columns, rowHeight, name, date)
  }

  function PerPage(m: Measure, keys: seq<string>, name: string, date: string): (perPage: nat)
    requires keys != []
    ensures perPage > 0
  {
    RowsFit();
    Rows() * ColumnsCount(m, keys, name, date)
  }

  function GridCopies(m: Measure, keys: seq<string>, name: string, date: string): nat {
    if keys == [] then 0 else Copies(PerPage(m, keys, name, date), |keys|)
  }

  lemma GridHasSlips(keys: seq<string>, copies: nat)
    requires keys != [] && copies > 0
    ensures |RepeatEach(keys, copies)| > 0
  {
    assert |keys| * copies >= copies;
  }

  function UsedRows(m: Measure, keys: seq<string>, name: string, date: string): (used: nat)
    requires keys != []
    ensures 1 <= used <= Rows()
  {
    var columns := ColumnsCount(m, keys, name, date);
    var perPage := PerPage(m, keys, name, date);
    var slips := RepeatEach(keys, GridCopies(m, keys, name, date));
    GridHasSlips(keys, GridCopies(m, keys, name, date));
    RowsFit();
    CeilDiv(MinNat(|slips|, perPage), columns)
  }

  function GridPages(m: Measure, keys: seq<string>, name: string, date: string): seq<Page> {
    if keys == [] then []
    else
      PagesFrom(m, RepeatEach(keys, GridCopies(m, keys, name, date)), PerPage(m, keys, name, date),
                ColumnsCount(m, keys, name, date), CONTENT_HEIGHT_MM / UsedRows(m, keys, name, date) as real,
                name, date)
  }

  // ----- Counting: what the grid prints, and how often -----

  // Every slip of these pages has a line.
  predicate HasLines(pages: seq<Page>) {
    forall p, i :: 0 <= p < |pages| && 0 <= i < |pages[p]| ==> pages[p][i].lines != []
  }

  function KeysOnPage(page: Page): seq<string>
    requires forall i :: 0 <= i < |page| ==> page[i].lines != []
  {
    seq(|page|, i requires 0 <= i < |page| => page[i].lines[0])
  }

  function KeysOf(pages: seq<Page>): seq<string>
    requires HasLines(pages)
  {
    if pages == [] then [] else KeysOnPage(pages[0]) + KeysOf(pages[1..])
  }

  lemma GridPagePrints(
    m: Measure, keys: seq<string>, columns: nat, rowHeight: real, name: string, date: string)
    requires 1 <= columns <= MAX_COLUMNS
    ensures var page := GridPage(m, keys, columns, rowHeight, name, date);
            (forall i :: 0 <= i < |page| ==> page[i].lines != []) && KeysOnPage(page) == keys
  {
  }

  lemma PageThenPages(page: Page, rest: seq<Page>)
    requires (forall i :: 0 <= i < |page| ==> page[i].lines != []) && HasLines(rest)
    ensures HasLines([page] + rest) && KeysOf([page] + rest) == KeysOnPage(page) + KeysOf(rest)
  {
    var pages: seq<Page> := [page] + rest;
    forall p: int, i: int | 0 <= p < |pages| && 0 <= i < |pages[p]| ensures pages[p][i].lines != [] {
      if p > 0 { assert pages[p] == rest[p - 1]; }
    }
    assert pages[1..] == rest;
  }

  predicate Prints(pages: seq<Page>, slips: seq<string>) {
    HasLines(pages) && KeysOf(pages) == slips
  }

  lemma PageMore(
    m: Measure, first: seq<string>, columns: nat, rowHeight: real, name: string, date: string, rest: seq<Page>,
    others: seq<string>)
    requires 1 <= columns <= MAX_COLUMNS && Prints(rest, others)
    ensures Prints([GridPage(m, first, columns, rowHeight, name, date)] + rest, first + others)
  {
    GridPagePrints(m, first, columns, rowHeight, name, date);
    PageThenPages(GridPage(m, first, columns, rowHeight, name, date), rest);
  }

  lemma {:induction false} PagesPrintSlips(
    m: Measure, slips: seq<string>, perPage: nat, columns: nat, rowHeight: real, name: string, date: string)
    requires 1 <= columns <= MAX_COLUMNS && perPage > 0
    ensures Prints(PagesFrom(m, slips, perPage, columns, rowHeight, name, date), slips)
    decreases |slips|
  {
    if slips != [] {
      var taken := MinNat(|slips|, perPage);
      var rest := PagesFrom(m, slips[taken..], perPage, columns, rowHeight, name, date);
      PagesPrintSlips(m, slips[taken..], perPage, columns, rowHeight, name, date);
      PageMore(m, slips[..taken], columns, rowHeight, name, date, rest, slips[taken..]);
      assert slips[..taken] + slips[taken..] == slips;
    }
  }

  // Read in order, the grid pages are the ordinary keys, each repeated exactly `copies` times.
  lemma GridPrintsEachKey(m: Measure, keys: seq<string>, name: string, date: string)
    ensures var pages := GridPages(m, keys, name, date);
            && HasLines(pages)
            && KeysOf(pages) == RepeatEach(keys, GridCopies(m, keys, name, date))
  {
    if keys != [] {
      PagesPrintSlips(m, RepeatEach(keys, GridCopies(m, keys, name, date)), PerPage(m, keys, name, date),
                      ColumnsCount(m, keys, name, date),
                      CONTENT_HEIGHT_MM / UsedRows(m, keys, name, date) as real, name, date);
    }
  }

  lemma DivBounds(a: nat, b: nat)
    requires b > 0
    ensures a / b * b <= a < (a / b + 1) * b
  {
  }

  // Keys that fit one page fill one page, and one more copy of each would not fit on it.
  lemma CopiesAreMaximal(m: Measure, keys: seq<string>, name: string, date: string)
    requires keys != [] && |keys| <= PerPage(m, keys, name, date)
    ensures |GridPages(m, keys, name, date)| == 1
    ensures (GridCopies(m, keys, name, date) + 1) * |keys| > PerPage(m, keys, name, date)
  {
    var perPage := PerPage(m, keys, name, date);
    CopiesFill(perPage, |keys|);
    OnePage(m, RepeatEach(keys, GridCopies(m, keys, name, date)), perPage, ColumnsCount(m, keys, name, date),
            CONTENT_HEIGHT_MM / UsedRows(m, keys, name, date) as real, name, date);
  }

  lemma CopiesFill(perPage: nat, keys: nat)
    requires 0 < keys <= perPage
    ensures 0 < keys * Copies(perPage, keys) <= perPage < (Copies(perPage, keys) + 1) * keys
  {
    DivBounds(perPage, keys);
    assert perPage / keys >= 1;
  }

  lemma OnePage(
    m: Measure, slips: seq<string>, perPage: nat, columns: nat, rowHeight: real, name: string, date: string)
    requires 1 <= columns <= MAX_COLUMNS && 0 < |slips| <= perPage
    ensures |PagesFrom(m, slips, perPage, columns, rowHeight, name, date)| == 1
  {
    assert slips[|slips|..] == [];
  }

  // ----- Geometry -----

  predicate InMargins(slip: Slip) {
    && MARGIN_MM <= slip.left && slip.left + slip.width <= PAGE_WIDTH_MM - MARGIN_MM
    && MARGIN_MM <= slip.top && slip.top + slip.height <= PAGE_HEIGHT_MM - MARGIN_MM
  }

  predicate Disjoint(a: Slip, b: Slip) {
    || a.left + a.width <= b.left || b.left + b.width <= a.left
    || a.top + a.height <= b.top || b.top + b.height <= a.top
  }

  // Nothing printed on the slip is clipped: neither a line, nor the caption, nor the height of the block.
  ghost predicate HoldsText(m: Measure, slip: Slip) {
    && (forall i :: 0 <= i < |slip.lines| ==> m(slip.lines[i], slip.fontPt) + 2.0 * SLIP_PADDING_MM <= slip.width)
    && CaptionWidth(m, slip.captionName, slip.captionDate, slip.captionFontPt) + 2.0 * SLIP_PADDING_MM <= slip.width
    && BlockHeight(|slip.lines|, slip.fontPt, slip.captionFontPt) <= slip.height
  }

  predicate WithinCell(slip: Slip, left: real, top: real, width: real, height: real) {
    && left <= slip.left && slip.left + slip.width <= left + width
    && top <= slip.top && slip.top + slip.height <= top + height
  }

  lemma FittedHoldsText(
    m: Measure, lines: seq<string>, fontPt: real, name: string, date: string, captionFontPt: real,
    left: real, top: real, width: real, height: real)
    requires lines != []
    ensures WithinCell(Fitted(m, lines, fontPt, name, date, captionFontPt, left, top, width, height),
                       left, top, width, height)
    ensures && AllFit(m, lines, fontPt, width - 2.0 * SLIP_PADDING_MM)
            && CaptionFits(m, name, date, captionFontPt, width - 2.0 * SLIP_PADDING_MM)
            && BlockHeight(|lines|, fontPt, captionFontPt) <= height
            ==> HoldsText(m, Fitted(m, lines, fontPt, name, date, captionFontPt, left, top, width, height))
  {
  }

  lemma CellGeometry(columns: nat, used: nat, i: nat)
    requires 1 <= columns <= MAX_COLUMNS && 1 <= used && i < used * columns
    ensures var rowHeight := CONTENT_HEIGHT_MM / used as real;
            && MARGIN_MM <= CellLeft(columns, i)
            && CellLeft(columns, i) + ColumnWidth(columns) <= PAGE_WIDTH_MM - MARGIN_MM
            && MARGIN_MM <= CellTop(columns, rowHeight, i)
            && CellTop(columns, rowHeight, i) + rowHeight <= PAGE_HEIGHT_MM - MARGIN_MM
  {
    assert i % columns <= columns - 1;
    if columns == 1 {
    } else if columns == 2 {
    } else if columns == 3 {
    } else {
    }
    assert i / columns < used;
    RowInside(i / columns, used);
  }

  lemma RowInside(row: nat, used: nat)
    requires row < used
    ensures var rowHeight := CONTENT_HEIGHT_MM / used as real;
            0.0 <= row as real * rowHeight && (row as real * rowHeight) + rowHeight <= CONTENT_HEIGHT_MM
  {
    var rowHeight := CONTENT_HEIGHT_MM / used as real;
    assert used as real * rowHeight == CONTENT_HEIGHT_MM;
    MultiplyBy(row as real + 1.0, used as real, rowHeight);
    MultiplyBy(0.0, row as real, rowHeight);
  }

  lemma MultiplyBy(a: real, b: real, factor: real)
    requires a <= b && factor >= 0.0
    ensures a * factor <= b * factor
  {
  }

  lemma CellsApart(columns: nat, used: nat, i: nat, j: nat)
    requires 1 <= columns <= MAX_COLUMNS && 1 <= used && i < j
    ensures var rowHeight := CONTENT_HEIGHT_MM / used as real;
            || CellLeft(columns, i) + ColumnWidth(columns) <= CellLeft(columns, j)
            || CellLeft(columns, j) + ColumnWidth(columns) <= CellLeft(columns, i)
            || CellTop(columns, rowHeight, i) + rowHeight <= CellTop(columns, rowHeight, j)
  {
    var rowHeight := CONTENT_HEIGHT_MM / used as real;
    var step := ColumnWidth(columns) + COLUMN_GAP_MM;
    if i / columns < j / columns {
      MultiplyBy((i / columns) as real + 1.0, (j / columns) as real, rowHeight);
    } else {
      SameRow(columns, i, j);
      MultiplyBy((i % columns) as real + 1.0, (j % columns) as real, step);
    }
  }

  lemma DivMonotone(i: nat, j: nat, columns: nat)
    requires columns > 0 && i <= j
    ensures i / columns <= j / columns
  {
    var q, r := i / columns, j / columns;
    DivBounds(i, columns);
    DivBounds(j, columns);
    if q > r {
      TimesMonotone(r + 1, q, columns);
      assert false;
    }
  }

  lemma TimesMonotone(a: nat, b: nat, factor: nat)
    requires a <= b
    ensures a * factor <= b * factor
  {
  }

  lemma SameRow(columns: nat, i: nat, j: nat)
    requires columns > 0 && i < j && i / columns >= j / columns
    ensures i % columns + 1 <= j % columns
  {
    DivMonotone(i, j, columns);
    assert i == i / columns * columns + i % columns;
    assert j == j / columns * columns + j % columns;
  }

  lemma BlockFitsRow(fontPt: real, captionFontPt: real, used: nat)
    requires fontPt <= KEY_FONT_MAX_PT && captionFontPt <= CAPTION_FONT_PT && 1 <= used <= Rows()
    ensures BlockHeight(1, fontPt, captionFontPt) <= CONTENT_HEIGHT_MM / used as real
  {
    RowsFit();
    var rowHeight := CONTENT_HEIGHT_MM / used as real;
    assert used as real * rowHeight == CONTENT_HEIGHT_MM;
    assert used as real * SlipHeight() <= 18.0 * SlipHeight();
    assert BlockHeight(1, fontPt, captionFontPt) <= SlipHeight();
  }

  // One slip of the grid: inside its cell, unclipped, readable, and cut only in a single-column grid.
  lemma GridSlipGood(
    m: Measure, key: string, i: nat, columns: nat, used: nat, name: string, date: string)
    requires Sane(m) && 1 <= columns <= MAX_COLUMNS && 1 <= used <= Rows()
    requires m(key, KEY_FONT_MIN_PT) <= Available(columns)
    requires columns > 1 ==> CaptionFits(m, name, date, CAPTION_FONT_MIN_PT, Available(columns))
    requires columns == 1 ==> CaptionFits(m, ELLIPSIS, date, CAPTION_FONT_MIN_PT, WIDEST_MM)
    ensures var rowHeight := CONTENT_HEIGHT_MM / used as real;
            var slip := GridSlip(m, key, i, columns, rowHeight, name, date);
            && WithinCell(slip, CellLeft(columns, i), CellTop(columns, rowHeight, i), ColumnWidth(columns), rowHeight)
            && HoldsText(m, slip)
            && KEY_FONT_MIN_PT <= slip.fontPt <= KEY_FONT_MAX_PT
            && slip.lines == [key]
            && (columns > 1 ==> slip.captionName == name)
  {
    var rowHeight := CONTENT_HEIGHT_MM / used as real;
    var available := Available(columns);
    var captionFont := CaptionFont(m, name, date, available);
    FittingFontFits(m, key, available, KEY_FONT_MAX_PT);
    CaptionFontFits(m, name, date, available);
    if columns > 1 {
      FittingCaptionNeverCut(m, name, date, available);
    } else {
      CaptionFitsInRoom(m, name, date, available);
    }
    var font := FittingFont(m, key, available, KEY_FONT_MAX_PT);
    BlockFitsRow(font, captionFont, used);
    FittedHoldsText(m, [key], font, CaptionName(m, name, date, captionFont, available), date, captionFont,
                    CellLeft(columns, i), CellTop(columns, rowHeight, i), ColumnWidth(columns), rowHeight);
  }

  ghost predicate GoodPage(m: Measure, page: Page) {
    && (forall i :: 0 <= i < |page| ==> InMargins(page[i]) && HoldsText(m, page[i]))
    && (forall i, j :: 0 <= i < j < |page| ==> Disjoint(page[i], page[j]))
  }

  // A page of the grid: good, readable, and with the name cut only if the grid is a single column.
  ghost predicate GoodGridPage(m: Measure, page: Page, columns: nat, name: string) {
    && GoodPage(m, page)
    && (forall i :: 0 <= i < |page| ==> KEY_FONT_MIN_PT <= page[i].fontPt <= KEY_FONT_MAX_PT)
    && (forall i :: 0 <= i < |page| && columns > 1 ==> page[i].captionName == name)
  }

  ghost predicate GoodGrid(m: Measure, pages: seq<Page>, columns: nat, name: string) {
    forall p :: 0 <= p < |pages| ==> GoodGridPage(m, pages[p], columns, name)
  }

  lemma GridPageGood(
    m: Measure, keys: seq<string>, columns: nat, used: nat, name: string, date: string)
    requires Sane(m) && 1 <= columns <= MAX_COLUMNS && 1 <= used <= Rows() && |keys| <= used * columns
    requires forall key :: key in keys ==> m(key, KEY_FONT_MIN_PT) <= Available(columns)
    requires columns > 1 ==> CaptionFits(m, name, date, CAPTION_FONT_MIN_PT, Available(columns))
    requires columns == 1 ==> CaptionFits(m, ELLIPSIS, date, CAPTION_FONT_MIN_PT, WIDEST_MM)
    ensures GoodGridPage(m, GridPage(m, keys, columns, CONTENT_HEIGHT_MM / used as real, name, date), columns, name)
  {
    var rowHeight := CONTENT_HEIGHT_MM / used as real;
    var page := GridPage(m, keys, columns, rowHeight, name, date);
    forall i | 0 <= i < |page|
      ensures WithinCell(page[i], CellLeft(columns, i), CellTop(columns, rowHeight, i), ColumnWidth(columns), rowHeight)
      ensures HoldsText(m, page[i]) && InMargins(page[i])
      ensures KEY_FONT_MIN_PT <= page[i].fontPt <= KEY_FONT_MAX_PT
      ensures columns > 1 ==> page[i].captionName == name
    {
      GridSlipGood(m, keys[i], i, columns, used, name, date);
      CellGeometry(columns, used, i);
    }
    forall i, j | 0 <= i < j < |page| ensures Disjoint(page[i], page[j]) {
      CellsApart(columns, used, i, j);
    }
  }

  lemma {:induction false} PagesGood(
    m: Measure, slips: seq<string>, perPage: nat, columns: nat, used: nat, name: string, date: string)
    requires Sane(m) && 1 <= columns <= MAX_COLUMNS && 1 <= used <= Rows() && perPage > 0
    requires MinNat(|slips|, perPage) <= used * columns
    requires forall key :: key in slips ==> m(key, KEY_FONT_MIN_PT) <= Available(columns)
    requires columns > 1 ==> CaptionFits(m, name, date, CAPTION_FONT_MIN_PT, Available(columns))
    requires columns == 1 ==> CaptionFits(m, ELLIPSIS, date, CAPTION_FONT_MIN_PT, WIDEST_MM)
    ensures GoodGrid(m, PagesFrom(m, slips, perPage, columns, CONTENT_HEIGHT_MM / used as real, name, date),
                     columns, name)
    decreases |slips|
  {
    if slips != [] {
      var taken := MinNat(|slips|, perPage);
      GridPageGood(m, slips[..taken], columns, used, name, date);
      PagesGood(m, slips[taken..], perPage, columns, used, name, date);
      var rowHeight := CONTENT_HEIGHT_MM / used as real;
      GoodGridGrows(m, GridPage(m, slips[..taken], columns, rowHeight, name, date),
                    PagesFrom(m, slips[taken..], perPage, columns, rowHeight, name, date), columns, name);
    }
  }

  lemma GoodGridGrows(m: Measure, page: Page, pages: seq<Page>, columns: nat, name: string)
    requires GoodGridPage(m, page, columns, name) && GoodGrid(m, pages, columns, name)
    ensures GoodGrid(m, [page] + pages, columns, name)
  {
  }

  lemma {:induction false} RepeatedKeysAreKeys(keys: seq<string>, copies: nat)
    ensures forall key :: key in RepeatEach(keys, copies) ==> key in keys
  {
    if keys != [] { RepeatedKeysAreKeys(keys[1..], copies); }
  }

  lemma CeilDivCovers(a: nat, b: nat)
    requires b > 0
    ensures a <= CeilDiv(a, b) * b
  {
  }

  lemma UsedRowsCover(m: Measure, keys: seq<string>, name: string, date: string)
    requires keys != []
    ensures MinNat(|RepeatEach(keys, GridCopies(m, keys, name, date))|, PerPage(m, keys, name, date))
            <= UsedRows(m, keys, name, date) * ColumnsCount(m, keys, name, date)
  {
    var slips := RepeatEach(keys, GridCopies(m, keys, name, date));
    CeilDivCovers(MinNat(|slips|, PerPage(m, keys, name, date)), ColumnsCount(m, keys, name, date));
  }

  // On every page of the grid all slips lie inside the margins, are pairwise disjoint, hold their whole
  // key and caption, and are printed at a readable size; a grid of several columns never cuts the name.
  lemma GridGeometry(m: Measure, keys: seq<string>, name: string, date: string)
    requires Sane(m) && CaptionFits(m, ELLIPSIS, date, CAPTION_FONT_MIN_PT, WIDEST_MM)
    requires forall key :: key in keys ==> m(key, KEY_FONT_MIN_PT) <= WIDEST_MM
    ensures GoodGrid(m, GridPages(m, keys, name, date),
                     if keys == [] then 1 else ColumnsCount(m, keys, name, date), name)
  {
    if keys != [] {
      var columns := ColumnsCount(m, keys, name, date);
      var slips := RepeatEach(keys, GridCopies(m, keys, name, date));
      var perPage := PerPage(m, keys, name, date);
      UsedRowsCover(m, keys, name, date);
      RepeatedKeysAreKeys(keys, GridCopies(m, keys, name, date));
      PagesGood(m, slips, perPage, columns, UsedRows(m, keys, name, date), name, date);
    }
  }

  // ----- Long keys -----

  function LongHeight(m: Measure, key: string, font: nat, captionFont: real): real {
    BlockHeight(|Wrap(m, key, font as real, WIDEST_MM)|, font as real, captionFont)
  }

  // The largest whole font size not above `from` at which the block fits the page, else the smallest size.
  function LongFont(m: Measure, key: string, captionFont: real, from: nat): (font: nat)
    requires from >= 12
    ensures 12 <= font <= from
    ensures font > 12 ==> LongHeight(m, key, font, captionFont) <= CONTENT_HEIGHT_MM
    ensures forall bigger :: font < bigger <= from ==> LongHeight(m, key, bigger, captionFont) > CONTENT_HEIGHT_MM
  {
    if from == 12 || LongHeight(m, key, from, captionFont) <= CONTENT_HEIGHT_MM then from
    else LongFont(m, key, captionFont, from - 1)
  }

  function LongCopies(height: real): nat
    requires height > 0.0
  {
    var fitting := (CONTENT_HEIGHT_MM / height).Floor;
    MinNat(MAX_COPIES_OF_LONG_KEY, if fitting > 1 then fitting else 1)
  }

  function LongSlip(
    m: Measure, lines: seq<string>, font: real, captionName: string, date: string, captionFont: real,
    rowHeight: real, i: nat): Slip
    requires lines != []
  {
    Fitted(m, lines, font, captionName, date, captionFont,
           MARGIN_MM, MARGIN_MM + i as real * rowHeight, CONTENT_WIDTH_MM, rowHeight)
  }

  function LongSlips(
    m: Measure, lines: seq<string>, font: real, captionName: string, date: string, captionFont: real, copies: nat)
    : (page: Page)
    requires lines != [] && copies > 0
    ensures |page| == copies
  {
    var rowHeight := CONTENT_HEIGHT_MM / copies as real;
    seq(copies, i requires 0 <= i < copies =>
      LongSlip(m, lines, font, captionName, date, captionFont, rowHeight, i))
  }

  function LongKeyPage(m: Measure, key: string, name: string, date: string): (page: Page)
    requires key != ""
  {
    var captionFont := CaptionFont(m, name, date, WIDEST_MM);
    var font := LongFont(m, key, captionFont, 24);
    var lines := Wrap(m, key, font as real, WIDEST_MM);
    LongSlips(m, lines, font as real, CaptionName(m, name, date, captionFont, WIDEST_MM), date, captionFont,
              LongCopies(BlockHeight(|lines|, font as real, captionFont)))
  }

  // The size is searched downwards in whole points until the block fits or the smallest size is reached.
  method FindLongFont(m: Measure, key: string, captionFont: real) returns (font: real)
    requires captionFont >= 0.0
    ensures font == LongFont(m, key, captionFont, 24) as real
  {
    font := LONG_KEY_FONT_MAX_PT;
    ghost var size: nat := 24;
    while font > KEY_FONT_MIN_PT
      invariant 12 <= size <= 24 && font == size as real
      invariant LongFont(m, key, captionFont, size) == LongFont(m, key, captionFont, 24)
      decreases size
    {
      var lines := WrapKey(m, key, font, WIDEST_MM);
      if BlockHeight(|lines|, font, captionFont) <= CONTENT_HEIGHT_MM {
        break;
      }
      font := font - 1.0;
      size := size - 1;
    }
  }

  // The page cannot be built for an empty key: it has no line to measure.
  method BuildLongKeyPage(m: Measure, key: string, name: string, date: string) returns (page: Page)
    requires key != ""
    requires CaptionLoopEnds(m, name, date, CaptionFont(m, name, date, WIDEST_MM), WIDEST_MM)
    ensures page == LongKeyPage(m, key, name, date)
  {
    var captionFont, captionName := Caption(m, name, date, WIDEST_MM);
    var font := FindLongFont(m, key, captionFont);
    var lines := WrapKey(m, key, font, WIDEST_MM);
    page := LongSlips(m, lines, font, captionName, date, captionFont,
                      LongCopies(BlockHeight(|lines|, font, captionFont)));
  }

  lemma FloorTimes(height: real)
    requires 0.0 < height <= CONTENT_HEIGHT_MM
    ensures 1 <= LongCopies(height) && LongCopies(height) as real * height <= CONTENT_HEIGHT_MM
  {
    var ratio := CONTENT_HEIGHT_MM / height;
    assert ratio * height == CONTENT_HEIGHT_MM;
    assert ratio >= 1.0;
    assert LongCopies(height) as real <= ratio;
    MultiplyBy(LongCopies(height) as real, ratio, height);
  }

  ghost predicate CharactersFit(m: Measure, key: string, font: real) {
    forall i :: 0 <= i < |key| ==> m([key[i]], font) <= WIDEST_MM
  }

  lemma FittedInRow(
    m: Measure, lines: seq<string>, font: real, captionName: string, date: string, captionFont: real,
    offset: real, rowHeight: real)
    requires lines != [] && 0.0 <= offset && offset + rowHeight <= CONTENT_HEIGHT_MM
    requires AllFit(m, lines, font, WIDEST_MM) && CaptionFits(m, captionName, date, captionFont, WIDEST_MM)
    ensures var slip := Fitted(m, lines, font, captionName, date, captionFont,
                               MARGIN_MM, MARGIN_MM + offset, CONTENT_WIDTH_MM, rowHeight);
            && WithinCell(slip, MARGIN_MM, MARGIN_MM + offset, CONTENT_WIDTH_MM, rowHeight)
            && InMargins(slip)
            && (BlockHeight(|lines|, font, captionFont) <= rowHeight ==> HoldsText(m, slip))
  {
    FittedHoldsText(m, lines, font, captionName, date, captionFont,
                    MARGIN_MM, MARGIN_MM + offset, CONTENT_WIDTH_MM, rowHeight);
  }

  lemma LongSlipGood(
    m: Measure, lines: seq<string>, font: real, captionName: string, date: string, captionFont: real,
    copies: nat, i: nat)
    requires lines != [] && i < copies
    requires AllFit(m, lines, font, WIDEST_MM) && CaptionFits(m, captionName, date, captionFont, WIDEST_MM)
    ensures var rowHeight := CONTENT_HEIGHT_MM / copies as real;
            var slip := LongSlip(m, lines, font, captionName, date, captionFont, rowHeight, i);
            && WithinCell(slip, MARGIN_MM, MARGIN_MM + i as real * rowHeight, CONTENT_WIDTH_MM, rowHeight)
            && InMargins(slip)
            && (BlockHeight(|lines|, font, captionFont) <= rowHeight ==> HoldsText(m, slip))
  {
    var rowHeight := CONTENT_HEIGHT_MM / copies as real;
    RowInside(i, copies);
    FittedInRow(m, lines, font, captionName, date, captionFont, i as real * rowHeight, rowHeight);
  }

  lemma RowsApart(a: Slip, b: Slip, i: nat, j: nat, rowHeight: real)
    requires i < j && rowHeight >= 0.0
    requires WithinCell(a, MARGIN_MM, MARGIN_MM + i as real * rowHeight, CONTENT_WIDTH_MM, rowHeight)
    requires WithinCell(b, MARGIN_MM, MARGIN_MM + j as real * rowHeight, CONTENT_WIDTH_MM, rowHeight)
    ensures Disjoint(a, b)
  {
    MultiplyBy(i as real + 1.0, j as real, rowHeight);
  }

  lemma LongSlipsGood(
    m: Measure, lines: seq<string>, font: real, captionName: string, date: string, captionFont: real, copies: nat)
    requires lines != [] && copies > 0
    requires AllFit(m, lines, font, WIDEST_MM) && CaptionFits(m, captionName, date, captionFont, WIDEST_MM)
    requires BlockHeight(|lines|, font, captionFont) <= CONTENT_HEIGHT_MM / copies as real
    ensures GoodPage(m, LongSlips(m, lines, font, captionName, date, captionFont, copies))
  {
    var rowHeight := CONTENT_HEIGHT_MM / copies as real;
    var page := LongSlips(m, lines, font, captionName, date, captionFont, copies);
    forall i | 0 <= i < copies ensures InMargins(page[i]) && HoldsText(m, page[i]) {
      LongSlipGood(m, lines, font, captionName, date, captionFont, copies, i);
    }
    forall i, j | 0 <= i < j < copies ensures Disjoint(page[i], page[j]) {
      LongSlipGood(m, lines, font, captionName, date, captionFont, copies, i);
      LongSlipGood(m, lines, font, captionName, date, captionFont, copies, j);
      RowsApart(page[i], page[j], i, j, rowHeight);
    }
  }

  // The lines of a long key print it whole and fit the page.
  lemma LongLinesGood(m: Measure, key: string, font: nat)
    requires Sane(m) && key != "" && CharactersFit(m, key, font as real)
    ensures var lines := Wrap(m, key, font as real, WIDEST_MM);
            lines != [] && Concat(lines) == key && AllFit(m, lines, font as real, WIDEST_MM)
  {
    WrapLossless(m, key, font as real, WIDEST_MM);
    WrapFits(m, key, font as real, WIDEST_MM);
  }

  // Every slip of the page prints the whole key in that size; a block that fits the page is printed
  // as often as the page says, unclipped and disjoint, and one that does not is printed once.
  ghost predicate WholeKeyPage(m: Measure, key: string, font: real, height: real, page: Page) {
    && (forall i :: 0 <= i < |page| ==> Concat(page[i].lines) == key && page[i].fontPt == font)
    && (height <= CONTENT_HEIGHT_MM ==> GoodPage(m, page) && |page| as real * height <= CONTENT_HEIGHT_MM)
    && (height > CONTENT_HEIGHT_MM ==> |page| == 1 && InMargins(page[0]))
  }

  lemma LongSlipsPrint(
    m: Measure, lines: seq<string>, font: real, captionName: string, date: string, captionFont: real, copies: nat)
    requires lines != [] && copies > 0
    ensures var page := LongSlips(m, lines, font, captionName, date, captionFont, copies);
            forall i :: 0 <= i < |page| ==> page[i].lines == lines && page[i].fontPt == font
  {
  }

  lemma FittingBlockGood(
    m: Measure, lines: seq<string>, font: real, captionName: string, date: string, captionFont: real, height: real)
    requires lines != [] && 0.0 < height <= CONTENT_HEIGHT_MM
    requires height == BlockHeight(|lines|, font, captionFont)
    requires AllFit(m, lines, font, WIDEST_MM) && CaptionFits(m, captionName, date, captionFont, WIDEST_MM)
    ensures LongCopies(height) > 0 && LongCopies(height) as real * height <= CONTENT_HEIGHT_MM
    ensures GoodPage(m, LongSlips(m, lines, font, captionName, date, captionFont, LongCopies(height)))
  {
    FloorTimes(height);
    var copies := LongCopies(height);
    RowHolds(copies, height, CONTENT_HEIGHT_MM / copies as real);
    LongSlipsGood(m, lines, font, captionName, date, captionFont, copies);
  }

  lemma FittingBlockWhole(
    m: Measure, lines: seq<string>, font: real, captionName: string, date: string, captionFont: real, height: real)
    requires lines != [] && 0.0 < height <= CONTENT_HEIGHT_MM
    requires height == BlockHeight(|lines|, font, captionFont)
    requires AllFit(m, lines, font, WIDEST_MM) && CaptionFits(m, captionName, date, captionFont, WIDEST_MM)
    ensures LongCopies(height) > 0
    ensures WholeKeyPage(m, Concat(lines), font, height,
                         LongSlips(m, lines, font, captionName, date, captionFont, LongCopies(height)))
  {
    FittingBlockGood(m, lines, font, captionName, date, captionFont, height);
    LongSlipsPrint(m, lines, font, captionName, date, captionFont, LongCopies(height));
    assert |LongSlips(m, lines, font, captionName, date, captionFont, LongCopies(height))| == LongCopies(height);
  }

  lemma TallBlockWhole(
    m: Measure, lines: seq<string>, font: real, captionName: string, date: string, captionFont: real, height: real)
    requires lines != [] && font >= 0.0 && captionFont >= 0.0
    requires height == BlockHeight(|lines|, font, captionFont) && height > CONTENT_HEIGHT_MM
    requires AllFit(m, lines, font, WIDEST_MM) && CaptionFits(m, captionName, date, captionFont, WIDEST_MM)
    ensures LongCopies(height) == 1
    ensures WholeKeyPage(m, Concat(lines), font, height, LongSlips(m, lines, font, captionName, date, captionFont, 1))
  {
    TallBlockAlone(height);
    LongSlipsPrint(m, lines, font, captionName, date, captionFont, 1);
    LongSlipGood(m, lines, font, captionName, date, captionFont, 1, 0);
  }

  lemma LongBlockGood(
    m: Measure, lines: seq<string>, font: real, captionName: string, date: string, captionFont: real, height: real)
    requires lines != [] && font >= 0.0 && captionFont >= 0.0
    requires height == BlockHeight(|lines|, font, captionFont) && height > 0.0
    requires AllFit(m, lines, font, WIDEST_MM) && CaptionFits(m, captionName, date, captionFont, WIDEST_MM)
    ensures LongCopies(height) > 0
    ensures WholeKeyPage(m, Concat(lines), font, height,
                         LongSlips(m, lines, font, captionName, date, captionFont, LongCopies(height)))
  {
    if height <= CONTENT_HEIGHT_MM {
      FittingBlockWhole(m, lines, font, captionName, date, captionFont, height);
    } else {
      TallBlockWhole(m, lines, font, captionName, date, captionFont, height);
    }
  }

  // The size a long key is printed in.
  function LongSize(m: Measure, key: string, name: string, date: string): nat {
    LongFont(m, key, CaptionFont(m, name, date, WIDEST_MM), 24)
  }

  ghost predicate LongPageGood(m: Measure, key: string, name: string, date: string, page: Page) {
    var font := LongSize(m, key, name, date);
    WholeKeyPage(m, key, font as real, LongHeight(m, key, font, CaptionFont(m, name, date, WIDEST_MM)), page)
  }

  // A long key is printed whole, in the largest whole size from 24 down to 12 whose block fits the page;
  // only when none does is the smallest size used for a block that does not fit. A character wider than the
  // page at the size found cannot be printed whole.
  lemma LongKeyPageGood(m: Measure, key: string, name: string, date: string)
    requires Sane(m) && key != "" && CaptionFits(m, ELLIPSIS, date, CAPTION_FONT_MIN_PT, WIDEST_MM)
    requires CharactersFit(m, key, LongSize(m, key, name, date) as real)
    ensures var captionFont := CaptionFont(m, name, date, WIDEST_MM);
            var font := LongSize(m, key, name, date);
            var height := LongHeight(m, key, font, captionFont);
            && LongPageGood(m, key, name, date, LongKeyPage(m, key, name, date))
            && (height > CONTENT_HEIGHT_MM ==> font == 12)
            && (forall bigger :: font < bigger <= 24 ==> LongHeight(m, key, bigger, captionFont) > CONTENT_HEIGHT_MM)
  {
    var captionFont := CaptionFont(m, name, date, WIDEST_MM);
    var font := LongSize(m, key, name, date);
    CaptionFitsInRoom(m, name, date, WIDEST_MM);
    LongKeyPageWhole(m, key, font, CaptionName(m, name, date, captionFont, WIDEST_MM), date, captionFont,
                     LongHeight(m, key, font, captionFont));
  }

  lemma LongKeyPageWhole(
    m: Measure, key: string, font: nat, captionName: string, date: string, captionFont: real, height: real)
    requires Sane(m) && key != "" && 12 <= font <= 24 && captionFont >= 0.0
    requires CaptionFits(m, captionName, date, captionFont, WIDEST_MM)
    requires CharactersFit(m, key, font as real)
    requires height == LongHeight(m, key, font, captionFont)
    ensures height > 0.0 && LongCopies(height) > 0
    ensures WholeKeyPage(m, key, font as real, height,
                         LongSlips(m, Wrap(m, key, font as real, WIDEST_MM), font as real, captionName, date,
                                   captionFont, LongCopies(height)))
  {
    LongLinesGood(m, key, font);
    var lines := Wrap(m, key, font as real, WIDEST_MM);
    assert height == BlockHeight(|lines|, font as real, captionFont) && height > 0.0;
    LongBlockGood(m, lines, font as real, captionName, date, captionFont, height);
  }

  lemma TallBlockAlone(height: real)
    requires height > CONTENT_HEIGHT_MM
    ensures LongCopies(height) == 1
  {
    assert CONTENT_HEIGHT_MM / height < 1.0;
  }

  lemma RowHolds(copies: nat, height: real, rowHeight: real)
    requires copies > 0 && copies as real * height <= CONTENT_HEIGHT_MM
    requires copies as real * rowHeight == CONTENT_HEIGHT_MM
    ensures height <= rowHeight
  {
    assert copies as real * (rowHeight - height) >= 0.0;
  }

  // ----- The whole sheet -----

  function LongPages(m: Measure, keys: seq<string>, name: string, date: string): (pages: seq<Page>)
    requires "" !in keys
  {
    if keys == [] then []
    else [LongKeyPage(m, keys[0], name, date)] + LongPages(m, keys[1..], name, date)
  }

  lemma {:induction false} LongPagesAppend(m: Measure, keys: seq<string>, key: string, name: string, date: string)
    requires "" !in keys && key != ""
    ensures LongPages(m, keys + [key], name, date) ==
            LongPages(m, keys, name, date) + [LongKeyPage(m, key, name, date)]
  {
    if keys != [] {
      LongPagesAppend(m, keys[1..], key, name, date);
      assert (keys + [key])[1..] == keys[1..] + [key];
    } else {
      assert (keys + [key])[1..] == [];
    }
  }

  method BuildLongPages(m: Measure, keys: seq<string>, name: string, date: string) returns (pages: seq<Page>)
    requires "" !in keys
    requires CaptionLoopEnds(m, name, date, CaptionFont(m, name, date, WIDEST_MM), WIDEST_MM)
    ensures pages == LongPages(m, keys, name, date)
  {
    pages := [];
    for i := 0 to |keys|
      invariant pages == LongPages(m, keys[..i], name, date)
    {
      var page := BuildLongKeyPage(m, keys[i], name, date);
      LongPagesAppend(m, keys[..i], keys[i], name, date);
      assert keys[..i + 1] == keys[..i] + [keys[i]];
      pages := pages + [page];
    }
    assert keys[..|keys|] == keys;
  }

  function PlannedSheet(m: Measure, keys: seq<string>, name: string, date: string): Sheet
    requires "" !in Select(m, keys, false)
  {
    var ordinary := Select(m, keys, true);
    Sheet(GridPages(m, ordinary, name, date) + LongPages(m, Select(m, keys, false), name, date),
          GridCopies(m, ordinary, name, date))
  }

  // An empty key is never long, so the whole sheet can always be planned once the caption can be cut.
  method Plan(m: Measure, keys: seq<string>, name: string, date: string) returns (sheet: Sheet)
    requires CaptionLoopEnds(m, name, date, CaptionFont(m, name, date, WIDEST_MM), WIDEST_MM)
    requires m("", KEY_FONT_MIN_PT) <= WIDEST_MM
    ensures "" !in Select(m, keys, false) && sheet == PlannedSheet(m, keys, name, date)
  {
    var ordinary, long := SplitByLength(m, keys);
    var longPages := BuildLongPages(m, long, name, date);
    sheet := Sheet(GridPages(m, ordinary, name, date) + longPages, GridCopies(m, ordinary, name, date));
  }

  lemma {:induction false} CopiesOfOne(copies: nat, one: string, key: string)
    ensures multiset(seq(copies, _ => one))[key] == if key == one then copies else 0
  {
    var all := seq(copies, _ => one);
    if copies > 0 {
      CopiesOfOne(copies - 1, one, key);
      assert all == seq(copies - 1, _ => one) + [one];
    }
  }

  lemma {:induction false} RepeatedAsOften(keys: seq<string>, copies: nat, key: string)
    ensures multiset(RepeatEach(keys, copies))[key] == copies * multiset(keys)[key]
  {
    if keys != [] {
      RepeatedAsOften(keys[1..], copies, key);
      CopiesOfOne(copies, keys[0], key);
      var once := seq(copies, _ => keys[0]);
      assert multiset(RepeatEach(keys, copies))[key]
          == multiset(once)[key] + multiset(RepeatEach(keys[1..], copies))[key];
      CountHead(keys, key);
      OneMore(copies, multiset(keys[1..])[key]);
    }
  }

  lemma OneMore(a: nat, b: nat)
    ensures a * (b + 1) == a * b + a
  {
  }

  ghost predicate LongKeysFit(m: Measure, keys: seq<string>, name: string, date: string) {
    forall key {:trigger LongSize(m, key, name, date)} :: key in keys ==>
      CharactersFit(m, key, LongSize(m, key, name, date) as real)
  }

  lemma {:induction false} LongPagesGood(m: Measure, keys: seq<string>, name: string, date: string)
    requires "" !in keys && Sane(m) && CaptionFits(m, ELLIPSIS, date, CAPTION_FONT_MIN_PT, WIDEST_MM)
    requires LongKeysFit(m, keys, name, date)
    ensures |LongPages(m, keys, name, date)| == |keys|
    ensures forall i {:trigger keys[i]} :: 0 <= i < |keys| ==>
              LongPageGood(m, keys[i], name, date, LongPages(m, keys, name, date)[i])
  {
    if keys != [] {
      LongPagesGood(m, keys[1..], name, date);
      LongKeyPageGood(m, keys[0], name, date);
      var pages := LongPages(m, keys, name, date);
      forall i | 0 <= i < |keys| ensures LongPageGood(m, keys[i], name, date, pages[i]) {
        if i > 0 { assert keys[i] == keys[1..][i - 1] && pages[i] == LongPages(m, keys[1..], name, date)[i - 1]; }
      }
    }
  }

  // The grid prints every ordinary key exactly `copies` times for each time it was given, and nothing else.
  ghost predicate GridComplete(m: Measure, keys: seq<string>, copies: nat, grid: seq<Page>) {
    && HasLines(grid)
    && (forall key :: multiset(KeysOf(grid))[key] ==
          if m(key, KEY_FONT_MIN_PT) <= WIDEST_MM then copies * multiset(keys)[key] else 0)
    && (forall p :: 0 <= p < |grid| ==> GoodPage(m, grid[p]))
  }

  // Every long key is printed whole on a page of its own, once for each time it was given.
  ghost predicate LongComplete(m: Measure, keys: seq<string>, name: string, date: string, long: seq<Page>) {
    exists printed: seq<string> ::
      && |printed| == |long|
      && (forall key ::
            multiset(printed)[key] == if m(key, KEY_FONT_MIN_PT) <= WIDEST_MM then 0 else multiset(keys)[key])
      && (forall k {:trigger printed[k]} :: 0 <= k < |long| ==> LongPageGood(m, printed[k], name, date, long[k]))
  }

  lemma GridIsComplete(m: Measure, keys: seq<string>, name: string, date: string)
    requires Sane(m) && CaptionFits(m, ELLIPSIS, date, CAPTION_FONT_MIN_PT, WIDEST_MM)
    ensures var ordinary := Select(m, keys, true);
            GridComplete(m, keys, GridCopies(m, ordinary, name, date), GridPages(m, ordinary, name, date))
  {
    var ordinary := Select(m, keys, true);
    var pages := GridPages(m, ordinary, name, date);
    GridPrintsEachKey(m, ordinary, name, date);
    forall key ensures multiset(KeysOf(pages))[key] ==
              if m(key, KEY_FONT_MIN_PT) <= WIDEST_MM
              then GridCopies(m, ordinary, name, date) * multiset(keys)[key] else 0
    {
      RepeatedAsOften(ordinary, GridCopies(m, ordinary, name, date), key);
      SelectedAsOften(m, keys, true, key);
    }
    GridGeometry(m, ordinary, name, date);
  }

  // At half the size an empty key is no wider than an ellipsis and no wider than a date, which fit together; so
  // it is never long.
  lemma NoEmptyKeyIsLong(m: Measure, keys: seq<string>, date: string)
    requires Sane(m) && CaptionFits(m, ELLIPSIS, date, CAPTION_FONT_MIN_PT, WIDEST_MM)
    ensures "" !in Select(m, keys, false)
  {
    PrefixNotWider(m, ELLIPSIS, 0, CAPTION_FONT_MIN_PT);
    PrefixNotWider(m, date, 0, CAPTION_FONT_MIN_PT);
    assert ELLIPSIS[..0] == "" == date[..0];
    assert m("", KEY_FONT_MIN_PT) == 2.0 * m("", CAPTION_FONT_MIN_PT);
  }

  lemma LongIsComplete(m: Measure, keys: seq<string>, name: string, date: string)
    requires Sane(m) && CaptionFits(m, ELLIPSIS, date, CAPTION_FONT_MIN_PT, WIDEST_MM)
    requires LongKeysFit(m, Select(m, keys, false), name, date)
    ensures "" !in Select(m, keys, false)
    ensures LongComplete(m, keys, name, date, LongPages(m, Select(m, keys, false), name, date))
  {
    var long := Select(m, keys, false);
    NoEmptyKeyIsLong(m, keys, date);
    forall key ensures multiset(long)[key] == if m(key, KEY_FONT_MIN_PT) <= WIDEST_MM then 0 else multiset(keys)[key] {
      SelectedAsOften(m, keys, false, key);
    }
    LongPagesGood(m, long, name, date);
  }

  // The whole sheet: grid pages that print every ordinary key as often as the sheet says, then a page for every
  // long key. Whatever was given is printed, and every page is good.
  lemma SheetPrintsEveryKey(m: Measure, keys: seq<string>, name: string, date: string)
    requires Sane(m) && CaptionFits(m, ELLIPSIS, date, CAPTION_FONT_MIN_PT, WIDEST_MM)
    requires LongKeysFit(m, Select(m, keys, false), name, date)
    ensures "" !in Select(m, keys, false)
    ensures var sheet := PlannedSheet(m, keys, name, date);
            exists grid, long ::
              && sheet.pages == grid + long
              && GridComplete(m, keys, sheet.copies, grid)
              && LongComplete(m, keys, name, date, long)
  {
    GridIsComplete(m, keys, name, date);
    LongIsComplete(m, keys, name, date);
    var grid, long := GridPages(m, Select(m, keys, true), name, date), LongPages(m, Select(m, keys, false), name, date);
    assert PlannedSheet(m, keys, name, date).pages == grid + long;
  }
}
