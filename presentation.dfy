/** The processor object of app.py (class `ExcelToJsonPresentation`): it
    reads a worksheet into the JSON data of app.py:126-137, keeps it, and
    turns it into a slide deck: a title slide, an overview slide with the
    count of each category, then the slides of each category
    (app.py:166-335). The workbook and the .pptx file are outside the
    model: a sheet arrives as its header row and data rows, and the deck
    that would be saved is returned as a list of slides. */
module Presentation {
  import opened Wrappers
  import opened Text
  import opened Seqs
  import opened Sheet
  import opened Categories
  import opened Pagination
  import opened SlideContent

  /** A paragraph of the overview slide: its text and its indent level. */
  datatype Line = Line(text: string, level: nat)

  /** The three kinds of slide the program adds. A category slide keeps
      what its title is made from: the category, the page index and the
      page count; `Title()` is the title it shows. */
  datatype Slide =
    | TitleSlide(title: string, subtitle: string)
    | OverviewSlide(title: string, lines: seq<Line>)
    | CategorySlide(category: string, page: nat, pages: int, body: seq<Paragraph>)
  {
    function Title(): string
    {
      match this
      case TitleSlide(title, _) => title
      case OverviewSlide(title, _) => title
      case CategorySlide(category, page, pages, _) => PageTitle(category, page, pages)
    }
  }

  /** The JSON data: the metadata (file name, `total_rows`, columns, sheet
      name, categories and their counts), the rows by category, and all
      rows. */
  datatype Dataset = Dataset(fileName: string, totalRows: nat, columns: seq<string>, sheetName: string,
                             grouped: Categorized, data: seq<Record>)

  const DefaultSheetName: string := "Sheet1"
  const ExcelSuffix: string := ".xlsx"
  const TitlePrefix: string := "系統交流會議題討論 - "
  const OverviewTitle: string := "議題概覽"
  const StatsHeading: string := "各類型議題統計:"

  /** POSIX `os.path.basename(path)`: what follows the last '/', or the
      whole path when it has none. */
  function Basename(path: string): (name: string)
    ensures |name| <= |path| && path[|path| - |name|..] == name
    ensures '/' !in name
    ensures |name| == |path| || path[|path| - |name| - 1] == '/'
  {
    if path == [] || path[|path| - 1] == '/' then []
    else
      var n := |path| - 1;
      var b := Basename(path[..n]);
      var name := b + [path[n]];
      assert path[|path| - |name|..] == path[..n][n - (|name| - 1)..] + [path[n]];
      assert |b| < n ==> path[..n][n - |b| - 1] == path[n - |b| - 1];
      name
  }

  /** A path without a directory part is its own base name. */
  lemma {:induction false} BasenameOfName(name: string)
    requires '/' !in name
    ensures Basename(name) == name
  {
    if name != [] {
      var n := |name| - 1;
      assert '/' !in name[..n] by {
        forall j | 0 <= j < n
          ensures name[..n][j] != '/'
        {
          assert name[..n][j] == name[j];
        }
      }
      BasenameOfName(name[..n]);
      assert name[..n] + [name[n]] == name;
    }
  }

  /** `sheet_name if sheet_name else 'Sheet1'`: an empty name counts as
      none. */
  function SheetLabel(sheetName: Option<string>): (name: string)
    ensures name != ""
  {
    if sheetName.Some? && sheetName.value != "" then sheetName.value else DefaultSheetName
  }

  /** Everything `read_excel_to_json` computes from one sheet: `None` when it
      fails (two columns named `類型`), otherwise the JSON data. */
  function ReadSheet(path: string, sheetName: Option<string>, headerRow: seq<Cell>, rows: seq<seq<Cell>>)
    : Option<Dataset>
    requires Rectangular(headerRow, rows)
  {
    var t := Normalise(headerRow, rows);
    var c := Categorize(t);
    if c.None? then None
    else Some(Dataset(Basename(path), |t.records|, t.columns, SheetLabel(sheetName), c.value, t.records))
  }

  /** What the rest of the program relies on in the JSON data: categories
      are listed once each with their rows and counts, and the counts add up
      to `total_rows`, the number of rows. */
  predicate WellFormed(d: Dataset)
  {
    && Consistent(d.grouped)
    && d.totalRows == |d.data|
    && Sum(StatsList(d.grouped)) == d.totalRows
  }

  /** The read fails exactly when `類型` names two columns; otherwise the data
      is well formed, holds every non-blank row once, and its columns are
      the header names. */
  lemma ReadSheetOutcome(path: string, sheetName: Option<string>, headerRow: seq<Cell>, rows: seq<seq<Cell>>)
    requires Rectangular(headerRow, rows)
    ensures ReadSheet(path, sheetName, headerRow, rows).None? <==> Count(Headers(headerRow), TypeColumn) > 1
    ensures match ReadSheet(path, sheetName, headerRow, rows)
      case None => true
      case Some(d) =>
        && WellFormed(d)
        && d.totalRows == |NonBlankRows(rows)|
        && d.columns == Headers(headerRow)
        && d.fileName == Basename(path)
  {
    var t := Normalise(headerRow, rows);
    if Categorize(t).Some? {
      StatsSumToTotal(t);
    }
  }

  /** The `pptx.Presentation()` object: the slides added so far. */
  class Deck {
    var slides: seq<Slide>

    constructor()
      ensures slides == []
    {
      slides := [];
    }

    /** `prs.slides.add_slide(...)` with its placeholders filled. */
    method AddSlide(s: Slide)
      modifies this
      ensures slides == old(slides) + [s]
    {
      slides := slides + [s];
    }
  }

  /** The slides of one category: for slide `p`, the title of app.py:264-267
      and the text frame of app.py:269-332. */
  function CategorySlides(category: string, items: seq<Record>, k: int): (slides: seq<Slide>)
    requires items != [] ==> k != 0
    ensures |slides| == PageCount(|items|, k)
  {
    var total := PageCount(|items|, k);
    seq(total, p requires 0 <= p < total =>
      CategorySlide(category, p, total, PageContent(PageItems(items, k, p), PageStart(p, k))))
  }

  /** The title slide (app.py:183-189). */
  function TitleSlideOf(d: Dataset): Slide
  {
    TitleSlide(TitlePrefix + RemoveAll(d.fileName, ExcelSuffix), "共 " + NatToString(d.totalRows) + " 筆議題")
  }

  /** The line of the overview for category `c` with `n` rows. */
  function StatLine(c: string, n: nat): Line
  {
    Line("  " + c + ": " + NatToString(n) + " 筆", 1)
  }

  /** The overview text (app.py:201-212): the total, a heading, then one
      indented line per category in category order. */
  function OverviewLines(d: Dataset): (lines: seq<Line>)
    requires Consistent(d.grouped)
    ensures |lines| == 2 + |d.grouped.categories|
  {
    var cs := d.grouped.categories;
    [Line("總議題數: " + NatToString(d.totalRows), 0), Line(StatsHeading, 0)]
    + seq(|cs|, i requires 0 <= i < |cs| => StatLine(cs[i], d.grouped.stats[cs[i]]))
  }

  /** Some category has rows. */
  predicate HasRows(d: Dataset)
    requires Consistent(d.grouped)
  {
    exists i :: 0 <= i < |d.grouped.categories| && d.grouped.byCategory[d.grouped.categories[i]] != []
  }

  /** The slides of the categories `cs`, one category after another. */
  function AllCategorySlides(d: Dataset, cs: seq<string>, k: int): seq<Slide>
    requires Consistent(d.grouped) && forall c :: c in cs ==> c in d.grouped.categories
    requires k == 0 ==> NoRowsIn(d, cs)
  {
    if cs == [] then []
    else
      var c := cs[|cs| - 1];
      AllCategorySlides(d, cs[..|cs| - 1], k) + CategorySlides(c, d.grouped.byCategory[c], k)
  }

  /** The deck `create_presentation` saves. */
  function DeckOf(d: Dataset, k: int): seq<Slide>
    requires Consistent(d.grouped) && (k == 0 ==> !HasRows(d))
  {
    [TitleSlideOf(d), OverviewSlide(OverviewTitle, OverviewLines(d))]
    + AllCategorySlides(d, d.grouped.categories, k)
  }

  /** No category of `cs` has rows. */
  predicate NoRowsIn(d: Dataset, cs: seq<string>)
    requires Consistent(d.grouped) && forall c :: c in cs ==> c in d.grouped.categories
  {
    forall c :: c in cs ==> d.grouped.byCategory[c] == []
  }

  lemma SlideOfPage(category: string, items: seq<Record>, k: int, p: nat, frame: seq<Paragraph>)
    requires k != 0 && p < PageCount(|items|, k)
    requires frame == PageContent(PySlice(items, p * k, Min(p * k + k, |items|)), p * k)
    ensures CategorySlides(category, items, k)[p] == CategorySlide(category, p, FloorDiv(|items| + k - 1, k), frame)
  {
  }

  /** One more category's slides follow the slides of those before it. */
  lemma CategoryAdded(d: Dataset, cs: seq<string>, i: nat, k: int)
    requires Consistent(d.grouped) && cs == d.grouped.categories && i < |cs|
    requires k == 0 ==> NoRowsIn(d, cs[..i]) && d.grouped.byCategory[cs[i]] == []
    ensures k == 0 ==> NoRowsIn(d, cs[..i + 1])
    ensures AllCategorySlides(d, cs[..i + 1], k) ==
      AllCategorySlides(d, cs[..i], k) + CategorySlides(cs[i], d.grouped.byCategory[cs[i]], k)
  {
    assert cs[..i + 1][..i] == cs[..i];
    assert cs[..i + 1] == cs[..i] + [cs[i]];
  }

  /** After the last category the deck is complete. */
  lemma AllCategories(d: Dataset, k: int)
    requires Consistent(d.grouped)
    requires k == 0 ==> NoRowsIn(d, d.grouped.categories[..|d.grouped.categories|])
    ensures k == 0 ==> !HasRows(d)
    ensures d.grouped.categories[..|d.grouped.categories|] == d.grouped.categories
  {
    var cs := d.grouped.categories;
    assert cs[..|cs|] == cs;
  }

  /** A sum of counts is positive exactly when one of them is. */
  lemma {:induction false} SumPositive(xs: seq<int>)
    requires forall i :: 0 <= i < |xs| ==> xs[i] >= 0
    ensures Sum(xs) >= 0
    ensures Sum(xs) > 0 <==> exists i :: 0 <= i < |xs| && xs[i] > 0
  {
    if xs != [] {
      var n := |xs| - 1;
      assert forall i :: 0 <= i < n ==> xs[..n][i] == xs[i];
      SumPositive(xs[..n]);
      if Sum(xs[..n]) > 0 {
        var i :| 0 <= i < n && xs[..n][i] > 0;
        assert xs[i] > 0;
      }
    }
  }

  /** `items_per_page = 0` makes `create_presentation` fail exactly when
      some row was read: the groups share out `total_rows`, so some group is
      not empty. */
  lemma ZeroItemsPerPage(d: Dataset)
    requires WellFormed(d)
    ensures HasRows(d) <==> d.totalRows > 0
  {
    var c := d.grouped;
    var counts := StatsList(c);
    SumPositive(counts);
    if d.totalRows > 0 {
      var i :| 0 <= i < |counts| && counts[i] > 0;
      assert c.byCategory[c.categories[i]] != [];
    }
    if HasRows(d) {
      var i :| 0 <= i < |c.categories| && c.byCategory[c.categories[i]] != [];
      assert counts[i] > 0;
    }
  }

  /** The overview shows the total and, per category in order, its count;
      the counts it shows add up to the total it shows. */
  lemma OverviewAddsUp(d: Dataset)
    requires WellFormed(d)
    ensures OverviewLines(d)[0] == Line("總議題數: " + NatToString(Sum(StatsList(d.grouped))), 0)
    ensures forall i :: 0 <= i < |d.grouped.categories| ==>
      OverviewLines(d)[2 + i] == StatLine(d.grouped.categories[i], StatsList(d.grouped)[i])
  {
    var lines, cs := OverviewLines(d), d.grouped.categories;
    var head := [Line("總議題數: " + NatToString(d.totalRows), 0), Line(StatsHeading, 0)];
    var tail := seq(|cs|, i requires 0 <= i < |cs| => StatLine(cs[i], d.grouped.stats[cs[i]]));
    assert lines == head + tail;
    forall i | 0 <= i < |cs|
      ensures lines[2 + i] == StatLine(cs[i], StatsList(d.grouped)[i])
    {
      assert lines[2 + i] == tail[i];
    }
  }

  /** A file name `x.xlsx` is shown on the title slide as `x`. */
  lemma TitleSlideName(d: Dataset, stem: string)
    requires d.fileName == stem + ExcelSuffix && !Occurs(ExcelSuffix, stem)
    ensures TitleSlideOf(d).title == TitlePrefix + stem
  {
    assert ExcelSuffix[0] !in ExcelSuffix[1..];
    RemoveAllTrailing(stem, ExcelSuffix);
  }

  /** The title paragraphs on a slide (none on other slides). */
  function SlideTitles(s: Slide): seq<Paragraph>
  {
    if s.CategorySlide? then Select(s.body, TitleKind) else []
  }

  /** The title lines of slide `p` of a category are those of its records,
      numbered from `p * k + 1`. */
  lemma PageSlideTitles(category: string, items: seq<Record>, k: int, p: nat)
    requires k > 0 && p < PageCount(|items|, k)
    ensures SlideTitles(CategorySlides(category, items, k)[p]) == TitleParagraphs(PageItems(items, k, p), p * k)
  {
    PageBounds(items, k, p);
    PageTitles(PageItems(items, k, p), p * k);
  }

  /** The title paragraphs of each slide of a category, slide by slide. */
  function TitleRuns(category: string, items: seq<Record>, k: int): (runs: seq<seq<Paragraph>>)
    requires items != [] ==> k != 0
    ensures |runs| == PageCount(|items|, k)
  {
    var slides := CategorySlides(category, items, k);
    seq(|slides|, p requires 0 <= p < |slides| => SlideTitles(slides[p]))
  }

  /** The records on the first `q` slides. */
  function Shown<T>(items: seq<T>, k: int, q: nat): seq<T>
    requires k > 0
  {
    items[..Min(q * k, |items|)]
  }

  /** The titles of the first `q` slides followed by those of slide `q` are
      the titles of the records up to the end of slide `q`. */
  lemma TitlesStep(category: string, items: seq<Record>, k: int, q: nat)
    requires k > 0 && q < PageCount(|items|, k)
    ensures TitleParagraphs(Shown(items, k, q), 0) + TitleRuns(category, items, k)[q]
      == TitleParagraphs(Shown(items, k, q + 1), 0)
  {
    var done := items[..Min(q * k, |items|)];
    PageSlideTitles(category, items, k, q);
    PageBounds(items, k, q);
    assert |done| == q * k;
    ConcatStep(items, k, q);
    TitleParagraphsAppend(done, PageItems(items, k, q), 0);
  }

  /** Read slide by slide, the title lines of a category are one per
      record, in record order, numbered 1, 2, ..., n: every record is shown
      once and none is skipped. */
  lemma CategoryTitles(category: string, items: seq<Record>, k: int)
    requires k > 0
    ensures Flatten(TitleRuns(category, items, k)) == TitleParagraphs(items, 0)
    ensures forall i :: 0 <= i < |items| ==> Flatten(TitleRuns(category, items, k))[i] == TitleOf(i + 1, items[i])
  {
    AllTitlesShown(category, items, k);
    forall i | 0 <= i < |items|
      ensures TitleParagraphs(items, 0)[i] == TitleOf(i + 1, items[i])
    {
      TitleParagraphsNumbered(items, 0, i);
    }
  }

  lemma AllTitlesShown(category: string, items: seq<Record>, k: int)
    requires k > 0
    ensures Flatten(TitleRuns(category, items, k)) == TitleParagraphs(items, 0)
  {
    var ts := TitleRuns(category, items, k);
    var pc := |ts|;
    PageCountIsCeiling(|items|, k);
    for q := 0 to pc
      invariant Flatten(ts[..q]) == TitleParagraphs(Shown(items, k, q), 0)
    {
      FlattenPrefixStep(ts, q);
      TitlesStep(category, items, k, q);
    }
    assert ts[..pc] == ts;
    assert Shown(items, k, pc) == items;
  }

  /** The reader and presenter of app.py:10-335. */
  class ExcelToJsonPresentation {
    const excelFilePath: string
    var jsonData: Option<Dataset>

    /** Data kept from a read is always well formed. */
    predicate Valid()
      reads this
    {
      jsonData.Some? ==> WellFormed(jsonData.value)
    }

    constructor(excelFilePath: string)
      ensures this.excelFilePath == excelFilePath && jsonData == None
      ensures Valid()
    {
      this.excelFilePath := excelFilePath;
      jsonData := None;
    }

    /** `read_excel_to_json` on the sheet read from `excelFilePath`: on
        success the data is kept and returned; on failure `None` is returned
        and the data kept from before is left as it was. */
    method ReadExcelToJson(sheetName: Option<string>, headerRow: seq<Cell>, rows: seq<seq<Cell>>)
      returns (r: Option<Dataset>)
      requires Rectangular(headerRow, rows) && Valid()
      modifies this
      ensures r == ReadSheet(excelFilePath, sheetName, headerRow, rows)
      ensures jsonData == (if r.Some? then r else old(jsonData))
      ensures Valid()
    {
      ReadSheetOutcome(excelFilePath, sheetName, headerRow, rows);
      var headers := Headers(headerRow);
      var dataRows := KeepNonBlankRows(rows);
      NonBlankRowsRectangular(headerRow, rows);
      var records := Records(headers, dataRows);
      if Count(headers, TypeColumn) > 1 {
        r := None;
        return;
      }
      var categories, byCategory, stats;
      if TypeColumn in headers {
        assert Typed(records);
        categories, byCategory, stats := GroupByType(records);
      } else {
        categories := [Uncategorized];
        byCategory := map[Uncategorized := records];
        stats := map[Uncategorized := |records|];
      }
      var d := Dataset(Basename(excelFilePath), |records|, headers, SheetLabel(sheetName),
                       Categorized(categories, byCategory, stats), records);
      jsonData := Some(d);
      r := Some(d);
    }

    /** `create_presentation(output, items_per_page)`: `false` with nothing
        saved when there is no data, or when `items_per_page` is 0 and some
        category has rows (the division raises); otherwise `true` and the
        deck. */
    method CreatePresentation(itemsPerPage: int) returns (ok: bool, saved: seq<Slide>)
      requires Valid()
      ensures ok <==> jsonData.Some? && (itemsPerPage != 0 || !HasRows(jsonData.value))
      ensures saved == if ok then DeckOf(jsonData.value, itemsPerPage) else []
    {
      if jsonData.None? {
        return false, [];
      }
      var d := jsonData.value;
      var prs := new Deck();
      prs.AddSlide(TitleSlideOf(d));
      var lines := BuildOverview(d);
      prs.AddSlide(OverviewSlide(OverviewTitle, lines));
      var cs := d.grouped.categories;
      for i := 0 to |cs|
        invariant itemsPerPage == 0 ==> NoRowsIn(d, cs[..i])
        invariant prs.slides == [TitleSlideOf(d), OverviewSlide(OverviewTitle, OverviewLines(d))]
          + AllCategorySlides(d, cs[..i], itemsPerPage)
      {
        ghost var before := prs.slides;
        var raised := AddCategorySlides(prs, cs[i], d.grouped.byCategory[cs[i]], itemsPerPage);
        if raised {
          assert HasRows(d) by {
            assert d.grouped.byCategory[cs[i]] != [];
          }
          return false, [];
        }
        CategoryAdded(d, cs, i, itemsPerPage);
        AppendAssoc(before[..2], AllCategorySlides(d, cs[..i], itemsPerPage),
          CategorySlides(cs[i], d.grouped.byCategory[cs[i]], itemsPerPage));
      }
      AllCategories(d, itemsPerPage);
      return true, prs.slides;
    }

    /** The overview paragraphs of app.py:203-212. */
    method BuildOverview(d: Dataset) returns (lines: seq<Line>)
      requires Consistent(d.grouped)
      ensures lines == OverviewLines(d)
    {
      lines := [Line("總議題數: " + NatToString(d.totalRows), 0)];
      lines := lines + [Line(StatsHeading, 0)];
      var cs := d.grouped.categories;
      for i := 0 to |cs|
        invariant |lines| == 2 + i
        invariant lines[..2] == OverviewLines(d)[..2]
        invariant forall j :: 2 <= j < 2 + i ==> lines[j] == StatLine(cs[j - 2], d.grouped.stats[cs[j - 2]])
      {
        lines := lines + [StatLine(cs[i], d.grouped.stats[cs[i]])];
      }
    }

    /** `_add_category_slides`: nothing for an empty list; a ZeroDivisionError
        before any slide when `items_per_page` is 0; otherwise one slide per
        page, in page order. */
    method AddCategorySlides(prs: Deck, category: string, items: seq<Record>, itemsPerPage: int)
      returns (raised: bool)
      modifies prs
      ensures raised <==> items != [] && itemsPerPage == 0
      ensures prs.slides == old(prs.slides) + (if raised then [] else CategorySlides(category, items, itemsPerPage))
    {
      if items == [] {
        return false;
      }
      if itemsPerPage == 0 {
        return true;
      }
      var totalPages := FloorDiv(|items| + itemsPerPage - 1, itemsPerPage);
      var pages := if totalPages < 0 then 0 else totalPages;
      ghost var slides := CategorySlides(category, items, itemsPerPage);
      for pageNum := 0 to pages
        invariant prs.slides == old(prs.slides) + slides[..pageNum]
      {
        AddPage(prs, category, items, itemsPerPage, pageNum, totalPages);
        assert slides[..pageNum + 1] == slides[..pageNum] + [slides[pageNum]];
      }
      assert slides[..pages] == slides;
      raised := false;
    }

    /** One pass of the page loop (app.py:254-335): the page's records,
        sliced out as Python does, and a slide with its title and text. */
    method AddPage(prs: Deck, category: string, items: seq<Record>, itemsPerPage: int, pageNum: nat, totalPages: int)
      requires itemsPerPage != 0 && pageNum < PageCount(|items|, itemsPerPage)
      requires totalPages == FloorDiv(|items| + itemsPerPage - 1, itemsPerPage)
      modifies prs
      ensures prs.slides == old(prs.slides) + [CategorySlides(category, items, itemsPerPage)[pageNum]]
    {
      var startIdx := pageNum * itemsPerPage;
      var endIdx := Min(startIdx + itemsPerPage, |items|);
      var pageItems := PySlice(items, startIdx, endIdx);
      var frame := BuildPageParagraphs(pageItems, startIdx);
      prs.AddSlide(CategorySlide(category, pageNum, totalPages, frame));
      SlideOfPage(category, items, itemsPerPage, pageNum, frame);
    }
  }
}
