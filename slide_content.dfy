/** The paragraphs `_add_category_slides` writes into one slide's text
    frame (app.py:269-271, 300-332): per record a numbered title line, an
    indented detail line when the record has any of the three detail
    fields, and a blank separator line between records. */
module SlideContent {
  import opened Text
  import opened Seqs
  import opened Sheet

  /** A paragraph of the text frame, kept as what it was written from: a
      record's numbered title line, its detail line (the detail parts
      joined), or an empty level-0 paragraph. `Separator` is that empty
      paragraph: the one written between records, and also the one
      `tf.clear()` leaves in a frame (`ClearedFrame`), which looks the same
      on the slide. `Text()` and `Level()` are what the slide shows. */
  datatype Paragraph = Title(num: int, content: string) | Details(parts: seq<string>) | Separator
  {
    /** `f"{num}. {content}"`, `" | ".join(parts)` and `""`. */
    function Text(): string
    {
      match this
      case Title(num, content) => IntToString(num) + ". " + content
      case Details(parts) => Join(parts, DetailSeparator)
      case Separator => ""
    }

    /** Only a detail line is indented (`p.level = 1`). */
    function Level(): nat
    {
      if Details? then 1 else 0
    }
  }

  const ContentKey: string := "內容"
  const MissingContent: string := "無內容"
  const DetailLabels: seq<string> := ["涉及處別", "涉及部門", "系統別"]
  const DetailSeparator: string := " | "

  /** `item.get('內容', '無內容')`. */
  function ContentOf(item: Record): string
  {
    if ContentKey in item then item[ContentKey] else MissingContent
  }

  /** The title paragraph of record `item`, numbered `num`. */
  function TitleOf(num: int, item: Record): Paragraph
  {
    Title(num, ContentOf(item))
  }

  /** A title line is never empty, and the number it starts with is the
      record's number. */
  lemma TitleLineNumber(num: nat, item: Record)
    ensures TitleOf(num, item).Text() != ""
    ensures DigitsValue(LeadingDigits(TitleOf(num, item).Text())) == num
  {
    var rest := ". " + ContentOf(item);
    assert rest[0] == '.';
    NumberAtHead(num, rest);
    AppendAssoc(IntToString(num), ". ", ContentOf(item));
  }

  /** `field in item and item[field]`: present and not empty. */
  predicate Qualifies(item: Record, field: string)
  {
    field in item && item[field] != ""
  }

  /** The labels of `labels` that qualify, in their order. */
  function QualifyingLabels(item: Record, labels: seq<string>): (r: seq<string>)
    ensures forall l :: l in r ==> l in item
  {
    if labels == [] then []
    else (if Qualifies(item, labels[0]) then [labels[0]] else []) + QualifyingLabels(item, labels[1..])
  }

  lemma {:induction false} QualifyingLabelsMembers(item: Record, labels: seq<string>)
    ensures forall l :: l in QualifyingLabels(item, labels) <==> l in labels && Qualifies(item, l)
  {
    if labels != [] {
      QualifyingLabelsMembers(item, labels[1..]);
      assert labels == [labels[0]] + labels[1..];
    }
  }

  /** `f"{field}: {value}"`. */
  function FieldText(item: Record, field: string): string
    requires field in item
  {
    field + ": " + item[field]
  }

  /** The qualifying labels among three, unrolled. */
  lemma QualifyingThree(item: Record, a: string, b: string, c: string)
    ensures QualifyingLabels(item, [a, b, c]) ==
      (if Qualifies(item, a) then [a] else []) + (if Qualifies(item, b) then [b] else [])
      + (if Qualifies(item, c) then [c] else [])
    ensures FieldTexts(item, QualifyingLabels(item, [a, b, c])) ==
      (if Qualifies(item, a) then [FieldText(item, a)] else [])
      + (if Qualifies(item, b) then [FieldText(item, b)] else [])
      + (if Qualifies(item, c) then [FieldText(item, c)] else [])
  {
    assert [a, b, c][1..] == [b, c];
    assert [b, c][1..] == [c];
    assert [c][1..] == [];
    var qa := if Qualifies(item, a) then [a] else [];
    var qb := if Qualifies(item, b) then [b] else [];
    var qc := if Qualifies(item, c) then [c] else [];
    assert QualifyingLabels(item, [c]) == qc;
    assert QualifyingLabels(item, [b, c]) == qb + qc;
    assert QualifyingLabels(item, [a, b, c]) == qa + (qb + qc);
    assert qa + (qb + qc) == qa + qb + qc;
    FieldTextsConcat(item, qa, qb + qc);
    FieldTextsConcat(item, qb, qc);
    FieldTextsOne(item, qa);
    FieldTextsOne(item, qb);
    FieldTextsOne(item, qc);
  }

  lemma FieldTextsOne(item: Record, q: seq<string>)
    requires |q| <= 1 && forall l :: l in q ==> l in item
    ensures FieldTexts(item, q) == if q == [] then [] else [FieldText(item, q[0])]
  {
    if q != [] {
      assert q[1..] == [];
    }
  }

  lemma {:induction false} FieldTextsConcat(item: Record, f: seq<string>, g: seq<string>)
    requires forall l :: l in f + g ==> l in item
    ensures FieldTexts(item, f + g) == FieldTexts(item, f) + FieldTexts(item, g)
  {
    if f == [] {
      assert f + g == g;
    } else {
      assert (f + g)[1..] == f[1..] + g;
      FieldTextsConcat(item, f[1..], g);
    }
  }

  /** `f"{field}: {value}"` for each of `fields`, in order. */
  function FieldTexts(item: Record, fields: seq<string>): (texts: seq<string>)
    requires forall l :: l in fields ==> l in item
    ensures |texts| == |fields|
  {
    if fields == [] then [] else [FieldText(item, fields[0])] + FieldTexts(item, fields[1..])
  }

  /** The `details` list of app.py:314-320. */
  function DetailParts(item: Record): (parts: seq<string>)
    ensures |parts| <= |DetailLabels|
  {
    (if Qualifies(item, DetailLabels[0]) then [FieldText(item, DetailLabels[0])] else [])
    + (if Qualifies(item, DetailLabels[1]) then [FieldText(item, DetailLabels[1])] else [])
    + (if Qualifies(item, DetailLabels[2]) then [FieldText(item, DetailLabels[2])] else [])
  }

  /** The details are `f"{field}: {value}"` for every detail field that is
      present and not empty, in the fixed order 涉及處別, 涉及部門, 系統別;
      there are none exactly when no detail field qualifies. */
  lemma DetailPartsAreQualifyingFields(item: Record)
    ensures DetailParts(item) == FieldTexts(item, QualifyingLabels(item, DetailLabels))
    ensures DetailParts(item) == [] <==> forall l :: l in DetailLabels ==> !Qualifies(item, l)
  {
    QualifyingThree(item, DetailLabels[0], DetailLabels[1], DetailLabels[2]);
    assert DetailLabels == [DetailLabels[0], DetailLabels[1], DetailLabels[2]];
    QualifyingLabelsMembers(item, DetailLabels);
  }

  predicate HasDetails(item: Record)
  {
    DetailParts(item) != []
  }

  /** A detail line, `" | ".join(details)`, is never empty, since every part
      starts with its field; it is indented. */
  lemma DetailLineShape(item: Record)
    requires HasDetails(item)
    ensures Details(DetailParts(item)).Text() != ""
    ensures Details(DetailParts(item)).Level() == 1
  {
    var parts := DetailParts(item);
    JoinShape(parts, DetailSeparator);
    DetailPartsAreQualifyingFields(item);
    assert parts[0] == FieldText(item, QualifyingLabels(item, DetailLabels)[0]);
  }

  /** The paragraphs record `item`, numbered `num`, adds to the frame; `last`
      says whether it is the last record of the slide. */
  function Block(item: Record, num: int, last: bool): seq<Paragraph>
  {
    [TitleOf(num, item)]
    + (if HasDetails(item) then [Details(DetailParts(item))] else [])
    + (if last then [] else [Separator])
  }

  /** Records laid out one after another: record `j` of `items` (counting
      from 0) gives `block(items[j], start + j + 1, j == |items| - 1)`, its
      number and whether it is the last one. */
  function Stack<R, T>(items: seq<R>, start: int, block: (R, int, bool) -> seq<T>): seq<T>
  {
    if items == [] then [] else block(items[0], start + 1, |items| == 1) + Stack(items[1..], start + 1, block)
  }

  /** The blocks of the first `i` records only. */
  function StackPrefix<R, T>(items: seq<R>, start: int, i: nat, block: (R, int, bool) -> seq<T>): seq<T>
    requires i <= |items|
  {
    if i == 0 then [] else StackPrefix(items, start, i - 1, block) + block(items[i - 1], start + i, i == |items|)
  }

  lemma StackStep<R, T>(items: seq<R>, start: int, i: nat, block: (R, int, bool) -> seq<T>)
    requires 0 < i <= |items|
    ensures Stack(items[i - 1..], start + (i - 1), block) ==
      block(items[i - 1], start + i, i == |items|) + Stack(items[i..], start + i, block)
  {
    assert items[i - 1..][1..] == items[i..];
  }

  /** The first `i` blocks followed by the remaining records' blocks are
      the whole stack. */
  lemma {:induction false} PrefixThenRest<R, T>(items: seq<R>, start: int, i: nat, block: (R, int, bool) -> seq<T>)
    requires i <= |items|
    ensures StackPrefix(items, start, i, block) + Stack(items[i..], start + i, block) == Stack(items, start, block)
  {
    if i == 0 {
      assert items[0..] == items;
    } else {
      PrefixThenRest(items, start, i - 1, block);
      StackStep(items, start, i, block);
      var w, b, r := StackPrefix(items, start, i - 1, block), block(items[i - 1], start + i, i == |items|),
        Stack(items[i..], start + i, block);
      assert w + b + r == w + (b + r);
    }
  }

  /** Once every record's block is written the stack is complete. */
  lemma PrefixComplete<R, T>(items: seq<R>, start: int, block: (R, int, bool) -> seq<T>)
    ensures StackPrefix(items, start, |items|, block) == Stack(items, start, block)
  {
    PrefixThenRest(items, start, |items|, block);
    assert items[|items|..] == [];
  }

  /** The frame of a slide whose first record has index `start` in its
      category: each record's paragraphs in turn. */
  function PageParagraphs(items: seq<Record>, start: int): seq<Paragraph>
  {
    Stack(items, start, Block)
  }

  /** A frame after `tf.clear()`: one empty level-0 paragraph, the same
      paragraph as a separator. It stays only on a slide without records;
      otherwise the first title line overwrites it. */
  const ClearedFrame: seq<Paragraph> := [Separator]

  /** The frame as a slide is left: cleared, then filled when the slide has
      records. */
  function PageContent(items: seq<Record>, start: int): seq<Paragraph>
  {
    if items == [] then ClearedFrame else PageParagraphs(items, start)
  }

  lemma AppendAssoc<T>(a: seq<T>, b: seq<T>, c: seq<T>)
    ensures a + b + c == a + (b + c)
  {
  }

  /** What stays of the frame when a record's title line is written: on the
      first record `tf.text` overwrites the cleared frame's only paragraph. */
  function Kept(frame: seq<Paragraph>, first: bool): seq<Paragraph>
  {
    if first then [] else frame
  }

  /** One pass of the loop of app.py:305-332 for record `item`, numbered
      `num`: on the first record the title line replaces the cleared
      frame's text, otherwise it is a new paragraph; then the detail line,
      if any, and the separator unless `item` is the slide's last record. */
  method AddRecord(frame: seq<Paragraph>, item: Record, num: int, first: bool, last: bool)
    returns (frame': seq<Paragraph>)
    ensures frame' == Kept(frame, first) + Block(item, num, last)
  {
    var title := Title(num, ContentOf(item));
    if first {
      frame' := [title];
    } else {
      frame' := frame + [title];
    }
    ghost var written := Kept(frame, first);
    ghost var t := [title];
    assert frame' == written + t;
    var details := DetailParts(item);
    if details != [] {
      frame' := frame' + [Details(details)];
    }
    ghost var d := if HasDetails(item) then [Details(DetailParts(item))] else [];
    assert frame' == written + t + d;
    if !last {
      frame' := frame' + [Separator];
    }
    ghost var b := if last then [] else [Separator];
    assert frame' == written + t + d + b;
    AppendAssoc(written, t, d);
    AppendAssoc(written, t + d, b);
  }

  /** The frame once the first `i` records of the slide are written. */
  function FrameAfter(items: seq<Record>, start: int, i: nat): seq<Paragraph>
    requires i <= |items|
  {
    if i == 0 then ClearedFrame else StackPrefix(items, start, i, Block)
  }

  /** The loop of app.py:300-332 on a cleared frame: the slide's records in
      order, numbered from `startIdx + 1`. */
  method BuildPageParagraphs(pageItems: seq<Record>, startIdx: int) returns (frame: seq<Paragraph>)
    ensures frame == PageContent(pageItems, startIdx)
  {
    frame := ClearedFrame;
    for i := 0 to |pageItems|
      invariant frame == FrameAfter(pageItems, startIdx, i)
    {
      ghost var before := frame;
      frame := AddRecord(frame, pageItems[i], startIdx + i + 1, i == 0, i == |pageItems| - 1);
      RecordWritten(pageItems, startIdx, i, before, frame);
    }
    AllRecordsWritten(pageItems, startIdx);
  }

  /** After record `i` is added the frame holds the first `i + 1` records. */
  lemma RecordWritten(items: seq<Record>, start: int, i: nat, before: seq<Paragraph>, after: seq<Paragraph>)
    requires i < |items|
    requires before == FrameAfter(items, start, i)
    requires after == Kept(before, i == 0) + Block(items[i], start + i + 1, i == |items| - 1)
    ensures after == FrameAfter(items, start, i + 1)
  {
    assert Kept(before, i == 0) == StackPrefix(items, start, i, Block);
  }

  /** With every record written the frame is the slide's content. */
  lemma AllRecordsWritten(items: seq<Record>, start: int)
    ensures FrameAfter(items, start, |items|) == PageContent(items, start)
  {
    PrefixComplete(items, start, Block);
  }

  /** What a paragraph is on the slide: a record's title line, its detail
      line, or a blank separator. */
  datatype Kind = TitleKind | DetailKind | BlankKind

  function KindOf(p: Paragraph): Kind
  {
    match p
    case Title(_, _) => TitleKind
    case Details(_) => DetailKind
    case Separator => BlankKind
  }

  /** The kinds can be told apart on the slide: a separator is the only
      empty paragraph and a detail line the only indented one (a detail
      line has parts, the first one not empty). */
  lemma KindsVisible(p: Paragraph)
    requires p.Details? ==> p.parts != [] && p.parts[0] != ""
    ensures KindOf(p) == BlankKind <==> p.Text() == ""
    ensures KindOf(p) == DetailKind <==> p.Level() == 1
  {
    match p
    case Title(num, content) =>
      assert p.Text()[|IntToString(num)|] == '.';
    case Details(parts) =>
      JoinShape(parts, DetailSeparator);
    case Separator =>
  }

  /** The paragraphs of one kind, in order. */
  function Select(ps: seq<Paragraph>, k: Kind): (r: seq<Paragraph>)
    ensures |r| <= |ps|
  {
    if ps == [] then [] else (if KindOf(ps[0]) == k then [ps[0]] else []) + Select(ps[1..], k)
  }

  lemma {:induction false} SelectConcat(a: seq<Paragraph>, b: seq<Paragraph>, k: Kind)
    ensures Select(a + b, k) == Select(a, k) + Select(b, k)
  {
    if a == [] {
      assert a + b == b;
    } else {
      var h := if KindOf(a[0]) == k then [a[0]] else [];
      assert (a + b)[0] == a[0];
      assert (a + b)[1..] == a[1..] + b;
      assert Select(a + b, k) == h + Select(a[1..] + b, k);
      SelectConcat(a[1..], b, k);
      AppendAssoc(h, Select(a[1..], k), Select(b, k));
    }
  }

  /** Every paragraph is of exactly one kind. */
  lemma {:induction false} KindsPartition(ps: seq<Paragraph>)
    ensures |ps| == |Select(ps, TitleKind)| + |Select(ps, DetailKind)| + |Select(ps, BlankKind)|
  {
    if ps != [] {
      KindsPartition(ps[1..]);
    }
  }

  /** The number of records that have a detail line. */
  function CountWithDetails(items: seq<Record>): (n: nat)
    ensures n <= |items|
  {
    if items == [] then 0 else (if HasDetails(items[0]) then 1 else 0) + CountWithDetails(items[1..])
  }

  /** The title paragraph of record `i` of the slide. */
  function TitleParagraph(items: seq<Record>, start: int, i: nat): Paragraph
    requires i < |items|
  {
    TitleOf(start + i + 1, items[i])
  }

  /** The title paragraphs of all records of the slide, in order. */
  function TitleParagraphs(items: seq<Record>, start: int): (ts: seq<Paragraph>)
    ensures |ts| == |items|
  {
    if items == [] then [] else [TitleParagraph(items, start, 0)] + TitleParagraphs(items[1..], start + 1)
  }

  /** Title paragraph `i` is record `i`'s title line, numbered start+i+1. */
  lemma {:induction false} TitleParagraphsNumbered(items: seq<Record>, start: int, i: nat)
    requires i < |items|
    ensures TitleParagraphs(items, start)[i] == TitleParagraph(items, start, i)
  {
    var ts := TitleParagraphs(items, start);
    assert ts == [TitleParagraph(items, start, 0)] + TitleParagraphs(items[1..], start + 1);
    if i > 0 {
      TitleParagraphsNumbered(items[1..], start + 1, i - 1);
      assert ts[i] == TitleParagraphs(items[1..], start + 1)[i - 1];
      TitleParagraphShift(items, start, i - 1);
    }
  }

  /** The title lines of two runs of records, the second numbered on from
      the first. */
  lemma {:induction false} TitleParagraphsAppend(a: seq<Record>, b: seq<Record>, start: int)
    ensures TitleParagraphs(a + b, start) == TitleParagraphs(a, start) + TitleParagraphs(b, start + |a|)
  {
    if a != [] {
      assert (a + b)[1..] == a[1..] + b;
      assert (a + b)[0] == a[0];
      TitleParagraphsAppend(a[1..], b, start + 1);
      AppendAssoc([TitleParagraph(a, start, 0)], TitleParagraphs(a[1..], start + 1), TitleParagraphs(b, start + |a|));
    } else {
      assert a + b == b;
    }
  }

  lemma TitleParagraphShift(items: seq<Record>, start: int, j: nat)
    requires j + 1 < |items|
    ensures TitleParagraph(items[1..], start + 1, j) == TitleParagraph(items, start, j + 1)
  {
    assert items[1..][j] == items[j + 1];
    assert start + 1 + j + 1 == start + (j + 1) + 1;
  }

  lemma BlockKinds(item: Record, num: int, last: bool)
    ensures Select(Block(item, num, last), TitleKind) == [TitleOf(num, item)]
    ensures |Select(Block(item, num, last), DetailKind)| == (if HasDetails(item) then 1 else 0)
    ensures |Select(Block(item, num, last), BlankKind)| == (if last then 0 else 1)
    ensures Block(item, num, last)[0] == TitleOf(num, item)
    ensures KindOf(Block(item, num, last)[|Block(item, num, last)| - 1]) == BlankKind <==> !last
  {
    var tp := TitleOf(num, item);
    var d := if HasDetails(item) then [Details(DetailParts(item))] else [];
    var b := if last then [] else [Separator];
    PartsKinds(tp, d, b);
  }

  /** A title paragraph, then detail paragraphs, then blank ones: each
      kind selects its own part. */
  lemma PartsKinds(tp: Paragraph, d: seq<Paragraph>, b: seq<Paragraph>)
    requires KindOf(tp) == TitleKind
    requires forall p :: p in d ==> KindOf(p) == DetailKind
    requires forall p :: p in b ==> KindOf(p) == BlankKind
    ensures Select([tp] + d + b, TitleKind) == [tp]
    ensures Select([tp] + d + b, DetailKind) == d
    ensures Select([tp] + d + b, BlankKind) == b
  {
    PartsTitle(tp, d, b);
    PartsDetail(tp, d, b);
    PartsBlank(tp, d, b);
  }

  lemma PartsTitle(tp: Paragraph, d: seq<Paragraph>, b: seq<Paragraph>)
    requires KindOf(tp) == TitleKind
    requires forall p :: p in d ==> KindOf(p) == DetailKind
    requires forall p :: p in b ==> KindOf(p) == BlankKind
    ensures Select([tp] + d + b, TitleKind) == [tp]
  {
    SelectParts([tp], d, b, TitleKind);
    SelectAll([tp], TitleKind);
    SelectNone(d, TitleKind);
    SelectNone(b, TitleKind);
    assert [tp] + [] + [] == [tp];
  }

  lemma PartsDetail(tp: Paragraph, d: seq<Paragraph>, b: seq<Paragraph>)
    requires KindOf(tp) == TitleKind
    requires forall p :: p in d ==> KindOf(p) == DetailKind
    requires forall p :: p in b ==> KindOf(p) == BlankKind
    ensures Select([tp] + d + b, DetailKind) == d
  {
    SelectParts([tp], d, b, DetailKind);
    SelectNone([tp], DetailKind);
    SelectAll(d, DetailKind);
    SelectNone(b, DetailKind);
    assert [] + d + [] == d;
  }

  lemma PartsBlank(tp: Paragraph, d: seq<Paragraph>, b: seq<Paragraph>)
    requires KindOf(tp) == TitleKind
    requires forall p :: p in d ==> KindOf(p) == DetailKind
    requires forall p :: p in b ==> KindOf(p) == BlankKind
    ensures Select([tp] + d + b, BlankKind) == b
  {
    SelectParts([tp], d, b, BlankKind);
    SelectNone([tp], BlankKind);
    SelectNone(d, BlankKind);
    SelectAll(b, BlankKind);
    assert [] + [] + b == b;
  }

  lemma SelectParts(a: seq<Paragraph>, b: seq<Paragraph>, c: seq<Paragraph>, k: Kind)
    ensures Select(a + b + c, k) == Select(a, k) + Select(b, k) + Select(c, k)
  {
    SelectConcat(a, b, k);
    SelectConcat(a + b, c, k);
  }

  /** Selecting a kind no paragraph has gives nothing. */
  lemma {:induction false} SelectNone(ps: seq<Paragraph>, k: Kind)
    requires forall p :: p in ps ==> KindOf(p) != k
    ensures Select(ps, k) == []
  {
    if ps != [] {
      assert ps[0] in ps;
      assert forall p :: p in ps[1..] ==> p in ps;
      SelectNone(ps[1..], k);
    }
  }

  /** Selecting the kind every paragraph has gives them all. */
  lemma {:induction false} SelectAll(ps: seq<Paragraph>, k: Kind)
    requires forall p :: p in ps ==> KindOf(p) == k
    ensures Select(ps, k) == ps
  {
    if ps != [] {
      assert ps[0] in ps;
      assert forall p :: p in ps[1..] ==> p in ps;
      SelectAll(ps[1..], k);
      assert [ps[0]] + ps[1..] == ps;
    }
  }

  /** The title lines of a slide are its records' title lines, numbered
      start+1, start+2, ... in record order. */
  lemma {:induction false} PageTitles(items: seq<Record>, start: int)
    ensures Select(PageParagraphs(items, start), TitleKind) == TitleParagraphs(items, start)
  {
    if items != [] {
      var block := Block(items[0], start + 1, |items| == 1);
      var rest := PageParagraphs(items[1..], start + 1);
      BlockKinds(items[0], start + 1, |items| == 1);
      SelectConcat(block, rest, TitleKind);
      PageTitles(items[1..], start + 1);
    }
  }

  /** A slide has one indented detail line per record that has details. */
  lemma {:induction false} PageDetails(items: seq<Record>, start: int)
    ensures |Select(PageParagraphs(items, start), DetailKind)| == CountWithDetails(items)
  {
    if items != [] {
      var block := Block(items[0], start + 1, |items| == 1);
      var rest := PageParagraphs(items[1..], start + 1);
      BlockKinds(items[0], start + 1, |items| == 1);
      SelectConcat(block, rest, DetailKind);
      PageDetails(items[1..], start + 1);
    }
  }

  /** A slide with m records has m - 1 blank separators. */
  lemma {:induction false} PageBlanks(items: seq<Record>, start: int)
    requires items != []
    ensures |Select(PageParagraphs(items, start), BlankKind)| == |items| - 1
  {
    var block := Block(items[0], start + 1, |items| == 1);
    var rest := PageParagraphs(items[1..], start + 1);
    BlockKinds(items[0], start + 1, |items| == 1);
    SelectConcat(block, rest, BlankKind);
    if |items| > 1 {
      PageBlanks(items[1..], start + 1);
    }
  }

  /** The frame opens with the first record's title line and never ends
      with a separator. */
  lemma {:induction false} PageEnds(items: seq<Record>, start: int)
    requires items != []
    ensures PageParagraphs(items, start)[0] == TitleParagraph(items, start, 0)
    ensures KindOf(Last(PageParagraphs(items, start))) != BlankKind
  {
    var ps := PageParagraphs(items, start);
    var block := Block(items[0], start + 1, |items| == 1);
    var rest := PageParagraphs(items[1..], start + 1);
    BlockKinds(items[0], start + 1, |items| == 1);
    if |items| == 1 {
      assert ps == block;
    } else {
      PageEnds(items[1..], start + 1);
      assert Last(ps) == Last(rest);
    }
  }

  function Last(ps: seq<Paragraph>): Paragraph
    requires ps != []
  {
    ps[|ps| - 1]
  }

  /** The paragraph count of a slide with m records:
      m + (records with details) + (m - 1). */
  lemma ParagraphCount(items: seq<Record>, start: int)
    requires items != []
    ensures |PageParagraphs(items, start)| == |items| + CountWithDetails(items) + (|items| - 1)
  {
    PageTitles(items, start);
    PageDetails(items, start);
    PageBlanks(items, start);
    KindsPartition(PageParagraphs(items, start));
  }
}
