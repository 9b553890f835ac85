# Issue list to slide deck: a Dafny model

`app.py` reads a worksheet of discussion issues, turns it into JSON
grouped by the issue type column `類型`, and builds a PowerPoint deck
from it. The deck has a title slide, an overview slide with the count of
each type, and then the slides of each type. Each type's slides show its
issues a fixed number per slide (`items_per_page`). Each issue is shown
as a numbered title line, then an indented detail line with the fields
`涉及處別`, `涉及部門` and `系統別` when any of them is filled in, and
then a blank separator line before the next issue.

This project models that core and proves its properties:

- `Sheet` models the clean-up of the sheet (app.py:91-106):
  - the column names, where an empty header cell becomes `Unnamed_<i>`;
  - dropping rows with no value at all;
  - empty cells becoming `""`;
  - rows as records, where a repeated column name keeps its rightmost cell.
- `Categories` models the grouping by `類型` and the per-type counts
  (app.py:108-123). pandas' `groupby` yields the distinct types in sorted
  order, using Python's string order, and keeps each group's rows in sheet
  order. Without a `類型` column every row goes to `未分類`. With two
  `類型` columns `groupby` raises, and the read fails.
- `Pagination` models the page arithmetic of `_add_category_slides`
  (app.py:247-267). It covers Python's floor division and slicing for any
  `items_per_page`, the slide count, the records of each slide, the running
  numbers and the slide titles.
- `SlideContent` models the text frame of one slide (app.py:269-332):
  - the loop that writes each record's paragraphs, proved against a
    specification of the whole frame;
  - what the frame holds: one title per record, numbered in order; one
    detail line per record with details; separators only between records.
- `Presentation` models:
  - the class `ExcelToJsonPresentation`, with its `json_data` field;
  - `read_excel_to_json` as a whole;
  - `create_presentation`, with the overview page and the failure cases;
  - `_add_category_slides`, which adds a category's slides to a `Deck`,
    the model of the pptx `Presentation` object.

Numbers in the text are rendered with `str()` of Python integers, written
out digit by digit. `s.replace(".xlsx", "")`, `sep.join` and the POSIX
`os.path.basename` are written out too.

The model keeps a paragraph as what it was written from:
- a record's number and content;
- the list of detail parts;
- or an empty level-0 paragraph (`Separator`): the one written between
  records, and the one `tf.clear()` leaves in a frame, which looks the same.

`Paragraph.Text()` and `Paragraph.Level()` give the text and indent the
slide shows. A category slide likewise keeps its category, page index and
page count, and `Slide.Title()` renders its title.

Where the code's behaviour may surprise, the model follows the code:

- The docstring of `_add_category_slides` (app.py:245) says that a record
  longer than `max_content_length` gets a slide of its own. The code never
  reads that parameter, so every slide holds up to `items_per_page`
  records, whatever their length.
- `groupby` sorts the types. The categories appear in sorted order, not in
  the order they first occur in the sheet.
- `items_per_page = 0` is not rejected up front. The division at
  app.py:251 raises only when a category has records, and
  `create_presentation` then returns `False`. It raises exactly when the
  sheet had any row (`Presentation.ZeroItemsPerPage`).
- A negative `items_per_page` gives no slide at all, except for a
  single-record category. That category gets one slide whose slice is
  empty.

## Model

| member | source | states |
|---|---|---|
| Text.NatToStringRoundTrip | app.py:307 | `str(n)` is all digits and reads back as `n` |
| Text.NatToStringInjective | app.py:265 | different numbers print differently, so page numbers and record numbers are distinguishable |
| Text.NumberAtHead | app.py:307 | the number printed before a non-digit is read back exactly |
| Text.JoinShape | app.py:324 | `sep.join(parts)` has the parts' total length plus one separator per gap, and starts with the first part |
| Text.RemoveAllAbsent | app.py:188 | `s.replace(pat, "")` leaves a string without `pat` unchanged |
| Text.RemoveAllTrailing | app.py:188 | a name `x + ".xlsx"`, where `x` has no ".xlsx" in it, becomes `x` |
| Sheet.Headers | app.py:92 | one name per header cell; a filled cell's own text; an empty cell's name is `Unnamed_` followed by its position, which reads back; two empty cells never share a name |
| Sheet.KeepNonBlankRows | app.py:94-96 | the append loop keeps exactly the rows of `NonBlankRows`, in order |
| Sheet.NonBlankRowsMembers | app.py:95 | a row is kept if and only if it is an input row with at least one non-`None` cell |
| Sheet.DropAllBlankIsNoOp | app.py:102 | `dropna(how='all')` after the loop changes nothing: filtering twice equals filtering once |
| Sheet.RowToRecord | app.py:99-106 | the record of a row has exactly the column names as keys |
| Sheet.RowToRecordValues | app.py:99-106 | a column's cell text is the record's value unless a later column has the same name |
| Sheet.NonBlankRowsRectangular | app.py:94-99 | kept rows still have one cell per header, so the DataFrame can be built |
| Sheet.Normalise | app.py:91-106 | the cleaned table's columns are the header names; it has one record per kept row; every record's keys are the columns |
| Categories.BelowIrreflexive | app.py:112 | Python's string `<` is irreflexive |
| Categories.BelowTransitive | app.py:112 | Python's string `<` is transitive |
| Categories.BelowTotal | app.py:112 | two different strings are ordered one way or the other |
| Categories.Insert | app.py:112 | inserting into a sorted key list keeps it sorted and adds exactly the new key |
| Categories.GroupKeys | app.py:112-113 | the group keys are strictly sorted; every row's type is a key; every key is some row's type |
| Categories.GroupMembers | app.py:112-114 | `Group`: a row is in group `c` if and only if it is a row whose type is `c` |
| Categories.GroupsPartition | app.py:112-114 | `Group`: the groups over distinct keys that cover all types are, together, a permutation of the rows |
| Categories.SortedDistinct | app.py:112 | sorted keys are distinct, so no category is listed twice |
| Categories.GroupByType | app.py:109-119 | the two loops fill `categorized_data` with each key's group and `category_stats` with its size |
| Categories.Categorize | app.py:108-123 | fails exactly when `類型` names two columns; otherwise categories, groups and counts agree; without the column everything is `未分類` with count `len(df)` |
| Categories.StatsSumToTotal | app.py:117-129 | the per-category counts add up to `total_rows` |
| Categories.RowInOneGroup | app.py:112-114 | `Group`: every row is in its own category's group and in no other |
| Pagination.FloorDiv | app.py:251 | Python's `//` rounds toward minus infinity, for either sign of the divisor |
| Pagination.PySlice | app.py:256 | within bounds, Python's slice is the plain subsequence |
| Pagination.PageCountIsCeiling | app.py:247-251 | `PageCount`: for a positive `items_per_page`, the slide count is the ceiling of n / k: zero only for an empty list, enough for every record, and never one slide too many |
| Pagination.PageBounds | app.py:253-256 | `PageItems`: slide `p` shows `items[p*k : min(p*k+k, n)]`, which is never empty, holds at most `k` records, and exactly `k` on every slide but the last |
| Pagination.PagesConcat | app.py:253-256 | `Pages` and `PageItems`: the slides of a category, read in order, give back its records: none lost, repeated or moved |
| Pagination.NumberIsPosition | app.py:254-310 | `PageItems`: record `i` of slide `p` is record `p*k+i` of the category, so the number `start_idx + i + 1` before it is its position counted from 1 |
| Pagination.TitleSuffix | app.py:264-267 | `PageTitle`: a category fitting on one slide gets its bare name as title; a larger one gets ` (p/total)` on every slide |
| Pagination.NegativeItemsPerPage | app.py:251-256 | `PageCount` and `PageItems`: with a negative `items_per_page` there are no slides, except one empty slide for a single record |
| SlideContent.TitleLineNumber | app.py:307-310 | a title line is not empty, and the number it begins with is the record's number |
| SlideContent.QualifyingLabelsMembers | app.py:315-320 | a detail field is listed if and only if it is one of the three and is present and non-empty |
| SlideContent.DetailPartsAreQualifyingFields | app.py:314-320 | `DetailParts`: the details are `field: value` for each qualifying field, in the fixed order; there are none exactly when no field qualifies |
| SlideContent.DetailLineShape | app.py:322-325 | a detail line is not empty and is indented |
| SlideContent.KindsVisible | app.py:307-331 | on the slide a separator is the only empty paragraph and a detail line the only indented one |
| SlideContent.AddRecord | app.py:305-332 | one pass writes the title line (replacing the cleared frame's paragraph for the first record), the detail line if any, and a separator unless last |
| SlideContent.BuildPageParagraphs | app.py:269-332 | `PageContent`: the loop over a slide's records leaves the frame equal to its specification: each record's paragraphs in order, or the cleared frame when there are none |
| SlideContent.PrefixThenRest | app.py:300-332 | `PageParagraphs`: the records written so far followed by the remaining ones give the whole frame |
| SlideContent.BlockKinds | app.py:305-332 | `Block`: one record contributes one title, one detail line if it has details, and a separator exactly when it is not last |
| SlideContent.PageTitles | app.py:300-311 | `PageContent`: the title lines of a slide are its records' titles in order, numbered `start+1, start+2, ...` |
| SlideContent.PageDetails | app.py:313-325 | `PageContent`: a slide has one detail line per record that has details |
| SlideContent.PageBlanks | app.py:327-331 | `PageContent`: a slide with m records has exactly m - 1 separators |
| SlideContent.PageEnds | app.py:306-331 | `PageContent`: the frame starts with the first record's title line and never ends with a separator |
| SlideContent.ParagraphCount | app.py:300-332 | `PageContent`: a slide with m records holds m + (records with details) + (m - 1) paragraphs |
| SlideContent.TitleParagraphsAppend | app.py:307-310 | numbering continues across a split: the second run is numbered on from the first |
| SlideContent.TitleParagraphsNumbered | app.py:307-310 | title `i` is record `i`'s title with number `start + i + 1` |
| SlideContent.KindsPartition | app.py:300-332 | every paragraph is exactly one of title, detail line or separator |
| Presentation.Basename | app.py:128 | the base name is the end of the path, holds no `/`, and is either the whole path or everything after its last `/` |
| Presentation.BasenameOfName | app.py:128 | a name without a directory is its own base name |
| Presentation.SheetLabel | app.py:131 | the metadata's sheet name is never empty: an absent or empty name becomes `Sheet1` |
| Presentation.ReadSheetOutcome | app.py:65-144 | `ReadSheet`: the read fails exactly when `類型` names two columns; otherwise the data is well formed, `total_rows` counts the non-blank rows, and the columns are the header names |
| Presentation.ExcelToJsonPresentation.constructor | app.py:9-19 | a new processor keeps the path and has no data |
| Presentation.ExcelToJsonPresentation.ReadExcelToJson | app.py:65-144 | returns what the sheet reads to; keeps it on success; leaves earlier data untouched on failure |
| Presentation.ExcelToJsonPresentation.CreatePresentation | app.py:166-233 | fails without data, or when `items_per_page` is 0 and a category has rows; otherwise returns `DeckOf`: the title slide, the overview and every category's slides in category order |
| Presentation.ExcelToJsonPresentation.BuildOverview | app.py:201-212 | `OverviewLines`: the overview lists the total, a heading, then one indented line `  c: n 筆` per category in category order |
| Presentation.ExcelToJsonPresentation.AddCategorySlides | app.py:235-335 | adds nothing for an empty list; raises before any slide when `items_per_page` is 0; otherwise appends exactly the category's slides, in page order |
| Presentation.ExcelToJsonPresentation.AddPage | app.py:253-335 | one page adds one slide: the records sliced out for it, under its title |
| Presentation.Deck.AddSlide | app.py:259 | adding a slide appends it to the deck |
| Presentation.CategorySlides | app.py:251-253 | a category gets one slide per page |
| Presentation.ZeroItemsPerPage | app.py:221-251 | `DeckOf`'s failure condition: with `items_per_page` 0 some category has rows exactly when `total_rows` is positive |
| Presentation.SumPositive | app.py:117-123 | a sum of counts is positive exactly when one count is |
| Presentation.OverviewAddsUp | app.py:203-212 | `OverviewLines`: the counts on the overview, in category order, add up to the total it shows |
| Presentation.TitleSlideName | app.py:188 | `TitleSlideOf`: the title slide shows the file name without its `.xlsx` suffix |
| Presentation.PageSlideTitles | app.py:300-311 | slide `p`'s title lines are its records' titles, numbered from `p*k + 1` |
| Presentation.CategoryTitles | app.py:253-310 | read slide by slide, a category's title lines are one per record, in record order, numbered 1..n |

## Left out

- Reading the workbook is not modelled. This covers the first `pd.read_excel`, whose result is thrown away, `load_workbook`, and picking the sheet (app.py:77-89). A sheet arrives as its header row and data rows, padded to one width as openpyxl pads them. That padding is the `Rectangular` precondition.
- Presentation.ExcelToJsonPresentation.ReadExcelToJson: the only failure modelled is the duplicate `類型` column. A missing or unreadable file, and any other exception caught at app.py:142-144, are outside the model.
- Cells are text or `None`. Numbers, dates and formula values are represented by their text. So the truthiness test of app.py:315-319 treats only `""` as empty, while Python would also treat `0` as empty. A header cell that is not a string is represented by its text too. A `類型` value that is not a string, in an all-numeric or a mixed column, also becomes a group key that is not a string. For a category that fits on one slide, app.py:266 then assigns that key to `title.text`. The python-pptx text setter calls `text.split("\n")`, so it raises. app.py:231-233 catches the error, and `create_presentation` returns `False`.
- Presentation.ExcelToJsonPresentation.CreatePresentation: it returns the full deck where the real code fails on a non-string `類型` value, as the line above explains. Every model category is text.
- Categories.GroupKeys: the types are sorted as text, by `Categories.Below`. pandas sorts the values themselves. So an all-numeric `類型` column comes out as 1, 2, 10 in pandas but as "1", "10", "2" here, and the overview lines and the category slides appear in that different order.
- Mixed value types in the `類型` column are not modelled. There pandas does not fail: when the plain sort raises, `groupby` falls back to a mixed sort that puts the numbers before the strings.
- SlideContent.Paragraph.Text: a `"\n"` in a record's `內容` is kept inside its title paragraph. That is what `p.text = ...` does at app.py:310 and app.py:324: it writes a line break within the same paragraph. But the first record of each slide is written with `tf.text = ...` (app.py:307), and the text frame's setter starts a new level-0 paragraph at each `"\n"`. When that record's content holds `"\n"`, the real frame differs from the model's. The claims that then stop describing the real frame are:
  - `SlideContent.BuildPageParagraphs` and `SlideContent.PageTitles`: the first title is split over several paragraphs;
  - `SlideContent.ParagraphCount`: the frame has one more paragraph per `"\n"`;
  - `SlideContent.KindsVisible`: content ending in `"\n"` leaves an empty level-0 paragraph that is not a separator.
- Presentation.Basename: only the POSIX `os.path.basename` is modelled, which splits at `'/'`. On Windows the path is also split at `'\'` and after a drive prefix such as `C:`, and the model does not capture that.
- `save_json` (app.py:146-164) is not modelled: it is file output.
- `prs.save` (app.py:227) is not modelled: the deck that would be saved is returned instead. A failure while saving is not modelled.
- Fonts and sizes are not modelled: `_set_font_style`, `_set_paragraph_font`, and their calls at app.py:192-193, 215-216, 297 and 335 are styling only.
- The bullet-removal block (app.py:273-294) and `word_wrap` are not modelled. They change how paragraphs look, not the paragraphs themselves.
- The slide layouts and placeholders are not modelled.
- The debug prints (app.py:301-304) and every `print` are not modelled.
- The `else` branch of app.py:222-224 (`所有議題`) is not modelled. It cannot run, because the data always has `data_by_category`.
- `main()` (app.py:337-373) is not modelled. It is a driver with fixed file names.
