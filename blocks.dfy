/**
 * The layout of `My Clippings.txt` that the parser of converter.py:155-221
 * reads: one block per annotation, made of a title line, an info line
 * (`- Your Highlight on Location 123-124 | Added on <date>`), the content
 * lines and the `==========` delimiter, with blank lines anywhere. The lemmas say what the parser makes of a
 * file written in that layout: every block becomes one record of its kind,
 * the records of one title are gathered in one Book, and each kind keeps
 * the order of the file.
 */
module Blocks {

  import opened Wrappers
  import opened Text
  import opened Records
  import opened Seqs
  import opened Clippings
  import Report

  /** The kinds of annotation an info line names. */
  datatype Kind = HighlightKind | NoteKind | BookmarkKind

  /**
   * One annotation of the file. `span` is the text between the location and
   * `Added on ` (`-124 | ` for a range, ` | ` for a single location), and
   * `when` is the text after `Added on `.
   */
  datatype Block = Block(title: string, kind: Kind, location: nat, span: string, when: string, lines: seq<string>)

  /** The type the parser gives each kind (converter.py:209-214). */
  function TypeOf(kind: Kind): (t: HighlightType)
    ensures t != NONE
  {
    match kind
    case HighlightKind => HIGHLIGHT
    case NoteKind => NOTE
    case BookmarkKind => BOOKMARK
  }

  function PrefixOf(kind: Kind): string
  {
    match kind
    case HighlightKind => HighlightPrefix
    case NoteKind => NotePrefix
    case BookmarkKind => BookmarkPrefix
  }

  /** The kind's prefix and the space that follows it. */
  function Lead(kind: Kind): string
  {
    PrefixOf(kind) + " "
  }

  /** `- Your <Kind> on Location <n><span>Added on <when>`. */
  function InfoText(b: Block): string
  {
    Lead(b.kind) + LocationMarker + Decimal(b.location) + b.span + AddedOn + b.when
  }

  /**
   * A span the parser reads past: it does not extend the location's digits,
   * holds no `A` (so `Added on ` is found where the block puts it) and
   * nothing cleaning removes.
   */
  predicate SpanText(span: string)
  {
    && (span == [] || !IsDigit(span[0]))
    && 'A' !in span && ByteOrderMark !in span && '\n' !in span
  }

  /** The lines of one block. */
  function Render(b: Block): seq<string>
  {
    [b.title, InfoText(b)] + b.lines + [Delimiter]
  }

  /** The lines of a file made of `blocks`, one block after the other. */
  function FileLines(blocks: seq<Block>): seq<string>
  {
    Flatten(Render, blocks)
  }

  /** A line the parser keeps as it is and takes for neither a blank line nor a delimiter. */
  predicate PlainLine(line: string)
  {
    ByteOrderMark !in line && '\n' !in line && line != "" && line != Delimiter
  }

  /** A block whose lines parse as the block: plain title and content lines and a date `parseTime` accepts. */
  predicate Readable(b: Block, parseTime: TimeParser)
  {
    && PlainLine(b.title)
    && SpanText(b.span)
    && ByteOrderMark !in b.when && '\n' !in b.when
    && parseTime(b.when).Some?
    && forall i :: 0 <= i < |b.lines| ==> PlainLine(b.lines[i])
  }

  /** The record of a block, as the delimiter that ends it appends it to `book`. */
  function Record(book: BookValue, b: Block, parseTime: TimeParser): BookValue
    requires parseTime(b.when).Some?
  {
    Emit(book, TypeOf(b.kind), Join(b.lines, " "), parseTime(b.when).value, b.location)
  }

  // ---- The records of a title, by kind ----------------------------------

  predicate AllDated(blocks: seq<Block>, parseTime: TimeParser)
  {
    forall i :: 0 <= i < |blocks| ==> parseTime(blocks[i].when).Some?
  }

  /** The highlights of the blocks titled `title`, in file order. */
  function HighlightsOf(blocks: seq<Block>, title: string, parseTime: TimeParser): seq<Highlight>
    requires AllDated(blocks, parseTime)
  {
    if blocks == [] then []
    else
      var b := blocks[|blocks| - 1];
      HighlightsOf(blocks[..|blocks| - 1], title, parseTime)
        + if b.title == title && b.kind == HighlightKind
          then [Highlight(Join(b.lines, " "), parseTime(b.when).value, b.location)] else []
  }

  /** The notes of the blocks titled `title`, in file order. */
  function NotesOf(blocks: seq<Block>, title: string, parseTime: TimeParser): seq<Note>
    requires AllDated(blocks, parseTime)
  {
    if blocks == [] then []
    else
      var b := blocks[|blocks| - 1];
      NotesOf(blocks[..|blocks| - 1], title, parseTime)
        + if b.title == title && b.kind == NoteKind
          then [Note(Join(b.lines, " "), parseTime(b.when).value, b.location)] else []
  }

  /** The bookmarks of the blocks titled `title`, in file order. */
  function BookmarksOf(blocks: seq<Block>, title: string, parseTime: TimeParser): seq<Bookmark>
    requires AllDated(blocks, parseTime)
  {
    if blocks == [] then []
    else
      var b := blocks[|blocks| - 1];
      BookmarksOf(blocks[..|blocks| - 1], title, parseTime)
        + if b.title == title && b.kind == BookmarkKind
          then [Bookmark(b.location, parseTime(b.when).value)] else []
  }

  /** `base` with the records of the blocks under its title appended, each kind in file order. */
  function Grouped(base: BookValue, blocks: seq<Block>, parseTime: TimeParser): BookValue
    requires AllDated(blocks, parseTime)
  {
    BookValue(base.title,
      base.highlights + HighlightsOf(blocks, base.title, parseTime),
      base.bookmarks + BookmarksOf(blocks, base.title, parseTime),
      base.notes + NotesOf(blocks, base.title, parseTime))
  }

  /** The titles of the blocks, each once, in the order of first appearance. */
  function Titles(blocks: seq<Block>): seq<string>
  {
    AddTitles([], blocks)
  }

  /** `order` followed by the titles of the blocks it does not list yet, as `book_map` keys are added. */
  function AddTitles(order: seq<string>, blocks: seq<Block>): seq<string>
  {
    if blocks == [] then order
    else
      var o := AddTitles(order, blocks[..|blocks| - 1]);
      var title := blocks[|blocks| - 1].title;
      if title in o then o else o + [title]
  }

  /** Some block is titled `title`. */
  predicate Names(blocks: seq<Block>, title: string)
  {
    exists i :: 0 <= i < |blocks| && blocks[i].title == title
  }

  /** The blocks name a title if the last one does or the others do. */
  lemma NamesStep(blocks: seq<Block>, title: string)
    requires blocks != []
    ensures Names(blocks, title) <==> Names(blocks[..|blocks| - 1], title) || blocks[|blocks| - 1].title == title
  {
    var front := blocks[..|blocks| - 1];
    if Names(front, title) {
      var i :| 0 <= i < |front| && front[i].title == title;
      assert blocks[i].title == title;
    }
    if Names(blocks, title) && blocks[|blocks| - 1].title != title {
      var i :| 0 <= i < |blocks| && blocks[i].title == title;
      assert front[i].title == title;
    }
  }

  // ---- One block ----------------------------------------------------------

  /**
   * The shape of an info line built from six parts: it can be regrouped
   * around its last three parts, it starts with what its first part starts
   * with, its first character is that of its first part, and its characters
   * are those of the parts.
   */
  lemma InfoLineShape(l: string, m: string, d: string, sp: string, a: string, w: string, pre: string)
    requires StartsWith(l, pre)
    ensures var line := l + m + d + sp + a + w;
      && line == l + m + d + (sp + a + w)
      && StartsWith(line, pre)
      && (l != [] ==> line[0] == l[0])
      && (forall x :: x in line <==> x in l || x in m || x in d || x in sp || x in a || x in w)
  {
    var line := l + m + d + sp + a + w;
    assert line[..|pre|] == l[..|pre|];
    forall x ensures x in line <==> x in l || x in m || x in d || x in sp || x in a || x in w {
      assert x in l + m <==> x in l || x in m;
    }
  }

  /** The fixed parts of an info line hold no byte order mark and no line break; only `Added on ` holds an `A`, as its first character. */
  lemma FixedPartsChars()
    ensures ByteOrderMark !in LocationMarker && '\n' !in LocationMarker && 'A' !in LocationMarker
    ensures ByteOrderMark !in AddedOn && '\n' !in AddedOn && AddedOn != [] && AddedOn[0] == 'A'
  {
  }

  /** The characters of a lead that the info line's parse depends on. */
  lemma LeadChars(kind: Kind)
    ensures var l := Lead(kind);
      && 'n' !in l && 'A' !in l && ByteOrderMark !in l && '\n' !in l
      && l != [] && l[0] == '-' && StartsWith(l, PrefixOf(kind))
  {
    match kind
    case HighlightKind => PrefixChars(HighlightPrefix);
    case NoteKind => PrefixChars(NotePrefix);
    case BookmarkKind => PrefixChars(BookmarkPrefix);
  }

  /** A prefix `- Your ...` with the space after it. */
  lemma PrefixChars(p: string)
    requires p in {HighlightPrefix, NotePrefix, BookmarkPrefix}
    ensures var l := p + " ";
      && 'n' !in l && 'A' !in l && ByteOrderMark !in l && '\n' !in l
      && l[0] == '-' && l[..|p|] == p
  {
    PrefixesFree();
    assert p + " " == p + [' '];
  }

  /** None of the three prefixes holds an `n`, an `A`, a byte order mark or a line break; each starts with `-`. */
  lemma PrefixesFree()
    ensures forall p :: p in {HighlightPrefix, NotePrefix, BookmarkPrefix} ==>
      'n' !in p && 'A' !in p && ByteOrderMark !in p && '\n' !in p && p != [] && p[0] == '-'
  {
  }

  /** Decimal digits are neither a byte order mark, a line break nor an `A`. */
  lemma DigitChars(d: string)
    requires AllDigits(d)
    ensures ByteOrderMark !in d && '\n' !in d && 'A' !in d
  {
    forall x | x in d ensures IsDigit(x) {
      var i :| 0 <= i < |d| && d[i] == x;
    }
  }

  /** The info line of a block is plain and reads back as its location, its date and its type. */
  lemma InfoTextReads(b: Block, previous: HighlightType)
    requires SpanText(b.span) && ByteOrderMark !in b.when && '\n' !in b.when
    ensures PlainLine(InfoText(b))
    ensures ParseLocation(InfoText(b)) == Some(b.location)
    ensures PartitionTail(InfoText(b), AddedOn) == b.when
    ensures Classify(InfoText(b), previous) == TypeOf(b.kind)
  {
    var l, d := Lead(b.kind), Decimal(b.location);
    LeadChars(b.kind);
    FixedPartsChars();
    DigitChars(d);
    InfoLineShape(l, LocationMarker, d, b.span, AddedOn, b.when, PrefixOf(b.kind));
    assert Delimiter[0] == '=';
    assert (b.span + AddedOn + b.when)[0] == if b.span == [] then 'A' else b.span[0];
    LocationRoundTrip(l, b.location, b.span + AddedOn + b.when);
    PartitionTailAfter(l + LocationMarker + d + b.span, AddedOn, b.when);
    ClassifyByPrefix(InfoText(b), previous);
    match b.kind
    case HighlightKind =>
    case NoteKind =>
    case BookmarkKind =>
  }

  /** The content lines of a block are kept verbatim, in order. */
  lemma {:induction false} ContentRun(s: ParseState, lines: seq<string>, parseTime: TimeParser)
    requires s.position == CONTENT
    requires forall i :: 0 <= i < |lines| ==> PlainLine(lines[i])
    ensures Run(s, lines, parseTime) == Success(s.(contents := s.contents + lines))
    decreases |lines|
  {
    if lines == [] {
      assert s.contents + lines == s.contents;
    } else {
      var front := lines[..|lines| - 1];
      ContentRun(s, front, parseTime);
      var last := lines[|lines| - 1];
      ContentLine(s.(contents := s.contents + front), last, parseTime);
      assert s.contents + front + [last] == s.contents + lines;
    }
  }

  /** The Book stored under `title`, or a new one. */
  function Stored(bookMap: map<string, BookValue>, title: string): BookValue
  {
    if title in bookMap then bookMap[title] else EmptyBook(title)
  }

  /** The state after a block's title and info lines. */
  function Opened(s: ParseState, b: Block, parseTime: TimeParser): ParseState
    requires parseTime(b.when).Some?
  {
    s.(contents := [], book := Stored(s.bookMap, b.title), position := CONTENT,
       location := b.location, timestamp := parseTime(b.when).value, kind := TypeOf(b.kind))
  }

  /**
   * From a TITLE state, a readable block appends its one record to the Book
   * stored under its title (or to a new Book), stores that Book under the
   * title and leaves every other key as it was (converter.py:179-218).
   */
  lemma BlockStep(s: ParseState, b: Block, parseTime: TimeParser)
    requires WellFormed(s) && s.position == TITLE && Readable(b, parseTime)
    ensures var book := Record(Stored(s.bookMap, b.title), b, parseTime);
      Run(s, Render(b), parseTime) == Success(ParseState(TITLE, book, TypeOf(b.kind), b.lines,
        b.location, parseTime(b.when).value, Store(s.order, s.bookMap, book), s.bookMap[b.title := book]))
  {
    BlockRun(s, b, parseTime);
    assert Opened(s, b, parseTime).(contents := b.lines).book.title == b.title;
  }

  /** A block's lines run as its head, its content lines and its delimiter. */
  lemma BlockRun(s: ParseState, b: Block, parseTime: TimeParser)
    requires WellFormed(s) && s.position == TITLE && Readable(b, parseTime)
    ensures Run(s, Render(b), parseTime) == Success(DelimiterStep(Opened(s, b, parseTime).(contents := b.lines)))
  {
    var head, tail := [b.title, InfoText(b)], b.lines + [Delimiter];
    var u := Opened(s, b, parseTime);
    var v := DelimiterStep(u.(contents := b.lines));
    assert Run(s, head, parseTime) == Success(u) by {
      HeadStep(s, b, parseTime);
    }
    assert Run(u, tail, parseTime) == Success(v) by {
      TailStep(u, b.lines, parseTime);
    }
    RunThen(s, head, tail, parseTime, u, v);
    RenderSplit(b);
  }

  /** A block's lines are its two head lines followed by its content lines and the delimiter. */
  lemma RenderSplit(b: Block)
    ensures Render(b) == [b.title, InfoText(b)] + (b.lines + [Delimiter])
  {
  }

  /** Two runs that succeed one after the other are one run over both. */
  lemma RunThen(s: ParseState, a: seq<string>, b: seq<string>, parseTime: TimeParser, u: ParseState, v: ParseState)
    requires Run(s, a, parseTime) == Success(u) && Run(u, b, parseTime) == Success(v)
    ensures Run(s, a + b, parseTime) == Success(v)
  {
    RunAppend(s, a, b, parseTime);
  }

  /** The title and the info line of a block: the stored Book under the title, and the block's type, location and date. */
  lemma HeadStep(s: ParseState, b: Block, parseTime: TimeParser)
    requires WellFormed(s) && s.position == TITLE && Readable(b, parseTime)
    ensures Run(s, [b.title, InfoText(b)], parseTime) == Success(Opened(s, b, parseTime))
  {
    var info := InfoText(b);
    var t1 := s.(contents := [], book := Stored(s.bookMap, b.title), position := INFO);
    assert Step(s, b.title, parseTime) == Success(t1) by {
      TitleLine(s, b.title, parseTime);
    }
    assert Step(t1, info, parseTime) == Success(Opened(s, b, parseTime)) by {
      InfoTextReads(b, s.kind);
      InfoLine(t1, info, parseTime);
    }
    RunTwo(s, b.title, info, parseTime, t1, Opened(s, b, parseTime));
  }

  /** Two lines that step one after the other. */
  lemma RunTwo(s: ParseState, x: string, y: string, parseTime: TimeParser, u: ParseState, v: ParseState)
    requires Step(s, x, parseTime) == Success(u) && Step(u, y, parseTime) == Success(v)
    ensures Run(s, [x, y], parseTime) == Success(v)
  {
    assert Run(s, [x], parseTime) == Success(u) by {
      assert [x][..0] == [];
    }
    assert [x, y][..1] == [x];
  }

  /** The content lines and the delimiter of a block: the lines are collected, then the record is emitted. */
  lemma TailStep(t: ParseState, lines: seq<string>, parseTime: TimeParser)
    requires t.position == CONTENT && t.contents == []
    requires forall i :: 0 <= i < |lines| ==> PlainLine(lines[i])
    ensures Run(t, lines + [Delimiter], parseTime) == Success(DelimiterStep(t.(contents := lines)))
  {
    ContentRun(t, lines, parseTime);
    var u := t.(contents := lines);
    assert t.(contents := t.contents + lines) == u;
    DelimiterClean();
    DelimiterLine(u, Delimiter, parseTime);
    assert Run(u, [Delimiter], parseTime) == Step(u, Delimiter, parseTime) by {
      assert [Delimiter][..0] == [];
    }
    RunAppend(t, lines, [Delimiter], parseTime);
  }

  /** Cleaning leaves the delimiter as it is. */
  lemma DelimiterClean()
    ensures Clean(Delimiter) == Delimiter
  {
    assert ByteOrderMark !in Delimiter && '\n' !in Delimiter;
  }

  // ---- A whole file -------------------------------------------------------

  /** The records of one more block go to its own title only. */
  lemma GroupedStep(base: BookValue, blocks: seq<Block>, parseTime: TimeParser)
    requires blocks != [] && AllDated(blocks, parseTime)
    ensures var front, last := blocks[..|blocks| - 1], blocks[|blocks| - 1];
      Grouped(base, blocks, parseTime) ==
        if last.title == base.title then Record(Grouped(base, front, parseTime), last, parseTime)
        else Grouped(base, front, parseTime)
  {
    var front, last := blocks[..|blocks| - 1], blocks[|blocks| - 1];
    if last.title == base.title {
      var g := Grouped(base, front, parseTime);
      match last.kind
      case HighlightKind =>
        assert base.highlights + HighlightsOf(blocks, base.title, parseTime) == g.highlights + [Highlight(Join(last.lines, " "), parseTime(last.when).value, last.location)];
      case NoteKind =>
        assert base.notes + NotesOf(blocks, base.title, parseTime) == g.notes + [Note(Join(last.lines, " "), parseTime(last.when).value, last.location)];
      case BookmarkKind =>
        assert base.bookmarks + BookmarksOf(blocks, base.title, parseTime) == g.bookmarks + [Bookmark(last.location, parseTime(last.when).value)];
    }
  }

  /** No block under a title: nothing is added to it. */
  lemma {:induction false} GroupedNone(title: string, blocks: seq<Block>, parseTime: TimeParser)
    requires AllDated(blocks, parseTime)
    requires !Names(blocks, title)
    ensures Grouped(EmptyBook(title), blocks, parseTime) == EmptyBook(title)
  {
    if blocks != [] {
      var front := blocks[..|blocks| - 1];
      assert AllDated(front, parseTime) by {
        forall i | 0 <= i < |front| ensures parseTime(front[i].when).Some? {
          assert front[i] == blocks[i];
        }
      }
      NamesStep(blocks, title);
      GroupedNone(title, front, parseTime);
      GroupedStep(EmptyBook(title), blocks, parseTime);
    }
  }

  /** Readable blocks are dated, and so is every prefix of them. */
  lemma FrontReadable(blocks: seq<Block>, parseTime: TimeParser)
    requires blocks != [] && forall i :: 0 <= i < |blocks| ==> Readable(blocks[i], parseTime)
    ensures var front := blocks[..|blocks| - 1];
      && (forall i :: 0 <= i < |front| ==> Readable(front[i], parseTime))
      && AllDated(blocks, parseTime) && AllDated(front, parseTime)
  {
    var front := blocks[..|blocks| - 1];
    forall i | 0 <= i < |front| ensures Readable(front[i], parseTime) {
      assert front[i] == blocks[i];
    }
  }

  /** The state after a run over blocks, from a TITLE state `s`. */
  ghost predicate AfterBlocks(s: ParseState, blocks: seq<Block>, parseTime: TimeParser, t: ParseState)
    requires AllDated(blocks, parseTime)
  {
    && WellFormed(t) && t.position == TITLE
    && t.order == AddTitles(s.order, blocks)
    && (forall k :: k in t.bookMap <==> k in s.bookMap || Names(blocks, k))
    && (forall k :: k in t.bookMap ==>
          t.bookMap[k] == Grouped(Stored(s.bookMap, k), blocks, parseTime))
  }

  /**
   * A file of readable blocks always parses. After it, each title of the
   * file holds the Book it held before (or a new one) with the records of
   * that title's blocks appended, each kind in file order; titles that no
   * block names keep their Books, and new titles join the key order in the
   * order they first appear.
   */
  lemma {:induction false} RunBlocks(s: ParseState, blocks: seq<Block>, parseTime: TimeParser)
    requires WellFormed(s) && s.position == TITLE
    requires forall i :: 0 <= i < |blocks| ==> Readable(blocks[i], parseTime)
    ensures AllDated(blocks, parseTime)
    ensures Run(s, FileLines(blocks), parseTime).Success?
    ensures AfterBlocks(s, blocks, parseTime, Run(s, FileLines(blocks), parseTime).value)
    decreases |blocks|
  {
    if blocks == [] {
      assert FileLines(blocks) == [];
      forall k | k in s.bookMap ensures s.bookMap[k] == Grouped(s.bookMap[k], blocks, parseTime) {
      }
    } else {
      var front, last := blocks[..|blocks| - 1], blocks[|blocks| - 1];
      FrontReadable(blocks, parseTime);
      RunBlocks(s, front, parseTime);
      var u := Run(s, FileLines(front), parseTime).value;
      assert FileLines(blocks) == FileLines(front) + Render(last);
      RunAppend(s, FileLines(front), Render(last), parseTime);
      BlockStep(u, last, parseTime);
      var t := Run(s, FileLines(blocks), parseTime).value;
      RunKeepsWellFormed(s, FileLines(blocks), parseTime);
      AfterBlock(s, blocks, parseTime, u, t);
    }
  }

  /** The inductive step of `RunBlocks`, on the states before and after the last block. */
  lemma AfterBlock(s: ParseState, blocks: seq<Block>, parseTime: TimeParser, u: ParseState, t: ParseState)
    requires blocks != [] && AllDated(blocks, parseTime) && AllDated(blocks[..|blocks| - 1], parseTime)
    requires AfterBlocks(s, blocks[..|blocks| - 1], parseTime, u) && WellFormed(t)
    requires var last := blocks[|blocks| - 1];
      var book := Record(Stored(u.bookMap, last.title), last, parseTime);
      t == ParseState(TITLE, book, TypeOf(last.kind), last.lines,
        last.location, parseTime(last.when).value, Store(u.order, u.bookMap, book), u.bookMap[last.title := book])
    ensures AfterBlocks(s, blocks, parseTime, t)
  {
    var front, last := blocks[..|blocks| - 1], blocks[|blocks| - 1];
    assert t.order == AddTitles(s.order, blocks) by {
      assert t.book.title == last.title;
    }
    forall k ensures k in t.bookMap <==> k in s.bookMap || Names(blocks, k) {
      NamesStep(blocks, k);
    }
    assert forall k :: k in s.bookMap ==> s.bookMap[k].title == k;
    GroupedAfter(s.bookMap, blocks, parseTime, u.bookMap, t.bookMap);
  }

  /** The Books after one more block, from the Books after the blocks before it. */
  lemma GroupedAfter(before: map<string, BookValue>, blocks: seq<Block>, parseTime: TimeParser,
                     mid: map<string, BookValue>, after: map<string, BookValue>)
    requires blocks != [] && AllDated(blocks, parseTime) && AllDated(blocks[..|blocks| - 1], parseTime)
    requires forall k :: k in before ==> before[k].title == k
    requires forall k :: k in mid <==> k in before || Names(blocks[..|blocks| - 1], k)
    requires forall k :: k in mid ==> mid[k] == Grouped(Stored(before, k), blocks[..|blocks| - 1], parseTime)
    requires var last := blocks[|blocks| - 1];
      after == mid[last.title := Record(Stored(mid, last.title), last, parseTime)]
    ensures forall k :: k in after ==> after[k] == Grouped(Stored(before, k), blocks, parseTime)
  {
    var front, last := blocks[..|blocks| - 1], blocks[|blocks| - 1];
    forall k | k in after ensures after[k] == Grouped(Stored(before, k), blocks, parseTime) {
      GroupedStep(Stored(before, k), blocks, parseTime);
      if k == last.title && k !in mid {
        GroupedNone(k, front, parseTime);
      }
    }
  }

  /**
   * The whole-file property of the clippings parser: a file made of
   * readable blocks parses, and it gives one Book per title, in the order
   * the titles first appear, each holding exactly the records of the blocks
   * under its title, highlights, notes and bookmarks each in file order
   * (converter.py:166-221).
   */
  lemma ParseBlocks(start: BookValue, blocks: seq<Block>, parseTime: TimeParser)
    requires forall i :: 0 <= i < |blocks| ==> Readable(blocks[i], parseTime)
    ensures AllDated(blocks, parseTime)
    ensures Parse(start, FileLines(blocks), parseTime).Success?
    ensures var books := Parse(start, FileLines(blocks), parseTime).value;
      && |books| == |Titles(blocks)|
      && forall i :: 0 <= i < |books| ==>
           books[i] == Grouped(EmptyBook(Titles(blocks)[i]), blocks, parseTime)
  {
    var s := Initial(start);
    InitialIsWellFormed(start);
    RunBlocks(s, blocks, parseTime);
    var t := Run(s, FileLines(blocks), parseTime).value;
    var books := Parse(start, FileLines(blocks), parseTime).value;
    assert books == Collect(t.order, t.bookMap);
    forall i | 0 <= i < |books| ensures books[i] == Grouped(EmptyBook(Titles(blocks)[i]), blocks, parseTime) {
      assert t.order[i] in t.bookMap;
    }
  }

  /**
   * The lines as `readlines()` returns them: each may end in its line break
   * and carry byte order marks (the one at the head of a Kindle export), and
   * blank lines may sit anywhere, as the one after each info line of a
   * Kindle export does. A file whose non-blank lines clean to those of
   * readable blocks parses as the blocks alone do, one Book per title in
   * order of first appearance, holding exactly its blocks' records
   * (converter.py:165-178).
   */
  lemma ParseBlocksWithBlanks(start: BookValue, blocks: seq<Block>, lines: seq<string>, parseTime: TimeParser)
    requires forall i :: 0 <= i < |blocks| ==> Readable(blocks[i], parseTime)
    requires |NonBlank(lines)| == |FileLines(blocks)|
    requires forall i :: 0 <= i < |NonBlank(lines)| ==> Clean(NonBlank(lines)[i]) == Clean(FileLines(blocks)[i])
    ensures AllDated(blocks, parseTime)
    ensures Parse(start, lines, parseTime).Success?
    ensures var books := Parse(start, lines, parseTime).value;
      && |books| == |Titles(blocks)|
      && forall i :: 0 <= i < |books| ==>
           books[i] == Grouped(EmptyBook(Titles(blocks)[i]), blocks, parseTime)
  {
    var s := Initial(start);
    BlanksDropped(s, lines, parseTime);
    RunClean(s, NonBlank(lines), FileLines(blocks), parseTime);
    ParseBlocks(start, blocks, parseTime);
  }

  /** The range span `-<m> | ` of an info line such as `on Location 123-124 | Added on ...` is one the parser reads past. */
  lemma RangeSpan(m: nat)
    ensures SpanText("-" + Decimal(m) + " | ")
  {
    var d := Decimal(m);
    DigitChars(d);
    var span := "-" + d + " | ";
    forall x | x in span ensures x != 'A' && x != ByteOrderMark && x != '\n' {
      assert x in "-" + d || x in " | ";
    }
  }

  /** `k` is the index of the first block titled `title`. */
  predicate FirstAt(blocks: seq<Block>, title: string, k: int)
  {
    0 <= k < |blocks| && blocks[k].title == title && forall m :: 0 <= m < k ==> blocks[m].title != title
  }

  /**
   * The titles come in the order of their first blocks: of two titles, the
   * one listed first has its first block earlier in the file.
   */
  lemma {:induction false} TitlesInFileOrder(blocks: seq<Block>, i: nat, j: nat, ki: int, kj: int)
    requires i < j < |Titles(blocks)|
    requires FirstAt(blocks, Titles(blocks)[i], ki) && FirstAt(blocks, Titles(blocks)[j], kj)
    ensures ki < kj
    decreases |blocks|
  {
    var front, last := blocks[..|blocks| - 1], blocks[|blocks| - 1];
    var o := Titles(front);
    TitlesOnce([], front);
    FirstInFront(blocks, Titles(blocks)[i], ki);
    if last.title in o || j < |o| {
      assert Titles(blocks)[i] == o[i] && Titles(blocks)[j] == o[j];
      FirstInFront(blocks, o[j], kj);
      TitlesInFileOrder(front, i, j, ki, kj);
    } else {
      assert Titles(blocks)[j] == last.title;
      assert !Names(front, last.title);
    }
  }

  /** A title the earlier blocks name has its first block among them. */
  lemma FirstInFront(blocks: seq<Block>, title: string, k: int)
    requires blocks != [] && FirstAt(blocks, title, k)
    ensures var front := blocks[..|blocks| - 1];
      Names(front, title) ==> k < |front| && FirstAt(front, title, k)
  {
    var front := blocks[..|blocks| - 1];
    if Names(front, title) {
      var m :| 0 <= m < |front| && front[m].title == title;
      assert blocks[m].title == title;
    }
  }

  /** The order of first appearance lists each title of the blocks once, and nothing else. */
  lemma {:induction false} TitlesOnce(order: seq<string>, blocks: seq<Block>)
    requires NoDuplicates(order)
    ensures NoDuplicates(AddTitles(order, blocks))
    ensures forall k :: k in AddTitles(order, blocks) <==> k in order || Names(blocks, k)
    decreases |blocks|
  {
    if blocks != [] {
      var front, last := blocks[..|blocks| - 1], blocks[|blocks| - 1];
      TitlesOnce(order, front);
      forall k ensures k in AddTitles(order, blocks) <==> k in order || Names(blocks, k) {
        NamesStep(blocks, k);
      }
    }
  }

  /**
   * Two blocks under one title merge into one Book: a file of a highlight
   * and then a note on the same book, with another book's bookmark between
   * them, gives two Books, the first holding both records.
   */
  lemma MergeByTitle(start: BookValue, x: Block, y: Block, z: Block, parseTime: TimeParser)
    requires Readable(x, parseTime) && Readable(y, parseTime) && Readable(z, parseTime)
    requires x.kind == HighlightKind && y.kind == BookmarkKind && z.kind == NoteKind
    requires x.title == z.title && x.title != y.title
    ensures Parse(start, FileLines([x, y, z]), parseTime).Success?
    ensures var books := Parse(start, FileLines([x, y, z]), parseTime).value;
      books == [
        BookValue(x.title, [Highlight(Join(x.lines, " "), parseTime(x.when).value, x.location)], [],
          [Note(Join(z.lines, " "), parseTime(z.when).value, z.location)]),
        BookValue(y.title, [], [Bookmark(y.location, parseTime(y.when).value)], [])]
  {
    var blocks := [x, y, z];
    var r := Parse(start, FileLines(blocks), parseTime);
    ThreeTitles(x, y, z);
    assert r.Success? && |r.value| == 2 && AllDated(blocks, parseTime)
      && r.value[0] == Grouped(EmptyBook(x.title), blocks, parseTime)
      && r.value[1] == Grouped(EmptyBook(y.title), blocks, parseTime) by {
      ParseBlocks(start, blocks, parseTime);
    }
    var g0, g1 := Grouped(EmptyBook(x.title), blocks, parseTime), Grouped(EmptyBook(y.title), blocks, parseTime);
    TwoItems(r.value);
    ThreeGrouped(x, y, z, parseTime);
  }

  /** Part of the worked example `MergeByTitle`: its file's titles in order of first appearance. */
  lemma ThreeTitles(x: Block, y: Block, z: Block)
    requires x.title == z.title && x.title != y.title
    ensures Titles([x, y, z]) == [x.title, y.title]
  {
    assert [x, y, z][..2] == [x, y] && [x, y][..1] == [x] && [x][..0] == [];
    assert AddTitles([], [x]) == [x.title];
    assert AddTitles([], [x, y]) == [x.title, y.title];
  }

  /** Part of the worked example `MergeByTitle`: the Books its file gives under each of its two titles. */
  lemma ThreeGrouped(x: Block, y: Block, z: Block, parseTime: TimeParser)
    requires parseTime(x.when).Some? && parseTime(y.when).Some? && parseTime(z.when).Some?
    requires x.kind == HighlightKind && y.kind == BookmarkKind && z.kind == NoteKind
    requires x.title == z.title && x.title != y.title
    ensures AllDated([x, y, z], parseTime)
    ensures Grouped(EmptyBook(x.title), [x, y, z], parseTime) ==
      BookValue(x.title, [Highlight(Join(x.lines, " "), parseTime(x.when).value, x.location)], [],
        [Note(Join(z.lines, " "), parseTime(z.when).value, z.location)])
    ensures Grouped(EmptyBook(y.title), [x, y, z], parseTime) ==
      BookValue(y.title, [], [Bookmark(y.location, parseTime(y.when).value)], [])
  {
    var blocks := [x, y, z];
    assert blocks[..2] == [x, y] && [x, y][..1] == [x] && [x][..0] == [];
    assert AllDated(blocks, parseTime) && AllDated([x, y], parseTime) && AllDated([x], parseTime);
    var e, f := EmptyBook(x.title), EmptyBook(y.title);
    assert Grouped(e, blocks, parseTime) == Record(Record(e, x, parseTime), z, parseTime) by {
      GroupedStep(e, [x], parseTime);
      GroupedStep(e, [x, y], parseTime);
      GroupedStep(e, blocks, parseTime);
    }
    assert Grouped(f, blocks, parseTime) == Record(f, y, parseTime) by {
      GroupedStep(f, [x], parseTime);
      GroupedStep(f, [x, y], parseTime);
      GroupedStep(f, blocks, parseTime);
    }
  }

  /** A sequence of two elements is the display of its two elements. */
  lemma TwoItems<T>(xs: seq<T>)
    requires |xs| == 2
    ensures xs == [xs[0], xs[1]]
  {
  }

  /**
   * From a clippings file to CSV and back: for a file of readable blocks,
   * the data rows of the CSV file written for the i-th parsed Book read back
   * as exactly the highlights, notes and bookmarks of the blocks under the
   * i-th title, each kind in file order (converter.py:155-242).
   */
  lemma ParsedCsvRoundTrip(start: BookValue, blocks: seq<Block>, parseTime: TimeParser, i: nat)
    requires forall j :: 0 <= j < |blocks| ==> Readable(blocks[j], parseTime)
    requires i < |Titles(blocks)|
    ensures AllDated(blocks, parseTime)
    ensures Parse(start, FileLines(blocks), parseTime).Success?
    ensures |Parse(start, FileLines(blocks), parseTime).value| == |Titles(blocks)|
    ensures var book, title := Parse(start, FileLines(blocks), parseTime).value[i], Titles(blocks)[i];
      Report.ReadRows(Report.CsvRows(book)[1..]) == Report.ReadBack(HighlightsOf(blocks, title, parseTime),
        NotesOf(blocks, title, parseTime), BookmarksOf(blocks, title, parseTime))
  {
    ParseBlocks(start, blocks, parseTime);
    var book, title := Parse(start, FileLines(blocks), parseTime).value[i], Titles(blocks)[i];
    assert book == Grouped(EmptyBook(title), blocks, parseTime);
    Report.CsvRoundTrip(book);
    assert book.highlights == HighlightsOf(blocks, title, parseTime);
    assert book.notes == NotesOf(blocks, title, parseTime);
    assert book.bookmarks == BookmarksOf(blocks, title, parseTime);
  }
}
