/**
 * What `Converter.outputHighlight` (converter.py:223-255) writes for one
 * Book: the rows handed to `csv.writer` for `output/<title>.csv` and the
 * strings passed to `write` for `output/<title>.txt`. The files themselves,
 * and the quoting `csv.writer` applies, are not part of this model.
 */
module Report {

  import opened Text
  import opened Records
  import opened Seqs

  /** A CSV cell: `csv.writer` prints strings as they are and ints in decimal. */
  datatype Cell = Str(s: string) | Int(n: int)

  type Row = seq<Cell>

  /** `['Content', 'Type', 'Location', 'Time']` (converter.py:233). */
  const Header: Row := [Str("Content"), Str("Type"), Str("Location"), Str("Time")]

  const OutputDir := "output"

  function HighlightRow(h: Highlight): Row
  {
    [Str(h.content), Str("Highlight"), Int(h.location), Int(h.time)]
  }

  function NoteRow(n: Note): Row
  {
    [Str(n.content), Str("Note"), Int(n.location), Int(n.time)]
  }

  /** A bookmark row has an empty content cell (converter.py:241-242). */
  function BookmarkRow(b: Bookmark): Row
  {
    [Str(""), Str("Bookmark"), Int(b.location), Int(b.time)]
  }

  /** The rows of the CSV file: header, highlights, notes, bookmarks (converter.py:233-242). */
  function CsvRows(b: BookValue): seq<Row>
  {
    [Header] + Map(HighlightRow, b.highlights) + Map(NoteRow, b.notes) + Map(BookmarkRow, b.bookmarks)
  }

  function HighlightLine(h: Highlight): string
  {
    "- " + h.content + " (" + IntToString(h.location) + ")\n"
  }

  function NoteLine(n: Note): string
  {
    "- " + n.content + " (" + IntToString(n.location) + ")\n"
  }

  function BookmarkLine(b: Bookmark): string
  {
    "- Bookmark (" + IntToString(b.location) + ")\n"
  }

  const TitleHeading := "# Book highlights\n"
  const HighlightsHeading := "## Highlights\n"
  const NotesHeading := "## Notes\n"
  const BookmarksHeading := "## Bookmarks\n"

  /** The strings written to the text report, in order (converter.py:246-255). */
  function ReportLines(b: BookValue): seq<string>
  {
    [TitleHeading, HighlightsHeading] + Map(HighlightLine, b.highlights)
      + [NotesHeading] + Map(NoteLine, b.notes)
      + [BookmarksHeading] + Map(BookmarkLine, b.bookmarks)
  }

  datatype OutputFile = CsvFile(path: string, rows: seq<Row>) | TextFile(path: string, writes: seq<string>)

  /** The two files of one Book, the CSV file first (converter.py:231, 245). */
  function BookFiles(b: BookValue): seq<OutputFile>
  {
    [CsvFile(OutputDir + "/" + b.title + ".csv", CsvRows(b)),
     TextFile(OutputDir + "/" + b.title + ".txt", ReportLines(b))]
  }

  /** Everything `outputHighlight` writes for `books`, book by book. */
  function Outputs(books: seq<BookValue>): seq<OutputFile>
  {
    Flatten(BookFiles, books)
  }

  // ---- Properties of the rows and lines ----------------------------------

  /**
   * The CSV file has one header row and then one row per record: all
   * highlights, then all notes, then all bookmarks, each kind in stored
   * order; bookmark rows have empty content (converter.py:233-242).
   */
  lemma CsvRowsLayout(b: BookValue)
    ensures var rows := CsvRows(b);
      var h, n := |b.highlights|, |b.notes|;
      && |rows| == 1 + |b.highlights| + |b.notes| + |b.bookmarks|
      && rows[0] == Header
      && (forall i :: 0 <= i < h ==> rows[1 + i] == HighlightRow(b.highlights[i]))
      && (forall i :: 0 <= i < n ==> rows[1 + h + i] == NoteRow(b.notes[i]))
      && (forall i :: 0 <= i < |b.bookmarks| ==> rows[1 + h + n + i] == BookmarkRow(b.bookmarks[i]))
      && (forall i :: 0 <= i < |rows| ==> |rows[i]| == 4)
      && (forall i :: 1 + h + n <= i < |rows| ==> rows[i][0] == Str("") && rows[i][1] == Str("Bookmark"))
  {
    var h, n := |b.highlights|, |b.notes|;
    MappedRunsLayout(Header, HighlightRow, b.highlights, NoteRow, b.notes, BookmarkRow, b.bookmarks);
    var rows := CsvRows(b);
    forall i | 0 <= i < |rows|
      ensures |rows[i]| == 4
    {
      if i == 0 {
      } else if i < 1 + h {
        assert rows[i] == HighlightRow(b.highlights[i - 1]);
      } else if i < 1 + h + n {
        assert rows[i] == NoteRow(b.notes[i - 1 - h]);
      } else {
        assert rows[i] == BookmarkRow(b.bookmarks[i - 1 - h - n]);
      }
    }
    forall i | 1 + h + n <= i < |rows|
      ensures rows[i][0] == Str("") && rows[i][1] == Str("Bookmark")
    {
      assert rows[i] == BookmarkRow(b.bookmarks[i - 1 - h - n]);
    }
  }

  /** Positions in a sequence of the shape `[t] + Map(f, xs) + Map(g, ys) + Map(k, zs)`. */
  lemma MappedRunsLayout<A, B, C, T>(t: T, f: A -> T, xs: seq<A>, g: B -> T, ys: seq<B>, k: C -> T, zs: seq<C>)
    ensures var s := [t] + Map(f, xs) + Map(g, ys) + Map(k, zs);
      && |s| == 1 + |xs| + |ys| + |zs|
      && s[0] == t
      && (forall i :: 0 <= i < |xs| ==> s[1 + i] == f(xs[i]))
      && (forall i :: 0 <= i < |ys| ==> s[1 + |xs| + i] == g(ys[i]))
      && (forall i :: 0 <= i < |zs| ==> s[1 + |xs| + |ys| + i] == k(zs[i]))
  {
    var fx, gy, kz := Map(f, xs), Map(g, ys), Map(k, zs);
    MapLength(f, xs);
    MapLength(g, ys);
    MapLength(k, zs);
    var p1 := [t] + fx;
    var p2 := p1 + gy;
    var s := p2 + kz;
    forall i | 0 <= i < |xs|
      ensures s[1 + i] == f(xs[i])
    {
      MapIndex(f, xs, i);
      assert s[1 + i] == p2[1 + i] == p1[1 + i];
    }
    forall i | 0 <= i < |ys|
      ensures s[1 + |xs| + i] == g(ys[i])
    {
      MapIndex(g, ys, i);
      assert s[1 + |xs| + i] == p2[1 + |xs| + i];
    }
    forall i | 0 <= i < |zs|
      ensures s[1 + |xs| + |ys| + i] == k(zs[i])
    {
      MapIndex(k, zs, i);
    }
  }

  /** Reading a data row back by its Type cell. */
  datatype Record = HighlightRecord(h: Highlight) | NoteRecord(n: Note) | BookmarkRecord(b: Bookmark) | Unreadable

  function ReadRow(row: Row): Record
  {
    if |row| == 4 && row[0].Str? && row[2].Int? && row[3].Int? then
      if row[1] == Str("Highlight") then HighlightRecord(Highlight(row[0].s, row[3].n, row[2].n))
      else if row[1] == Str("Note") then NoteRecord(Note(row[0].s, row[3].n, row[2].n))
      else if row[1] == Str("Bookmark") then BookmarkRecord(Bookmark(row[2].n, row[3].n))
      else Unreadable
    else Unreadable
  }

  /** The three lists that a sequence of data rows reads back as. */
  datatype ReadBack = ReadBack(highlights: seq<Highlight>, notes: seq<Note>, bookmarks: seq<Bookmark>)

  function Concat(x: ReadBack, y: ReadBack): ReadBack
  {
    ReadBack(x.highlights + y.highlights, x.notes + y.notes, x.bookmarks + y.bookmarks)
  }

  /** Files one record into the list of its kind; an unreadable row is skipped. */
  function AddRecord(acc: ReadBack, r: Record): ReadBack
  {
    match r
    case HighlightRecord(h) => acc.(highlights := acc.highlights + [h])
    case NoteRecord(n) => acc.(notes := acc.notes + [n])
    case BookmarkRecord(b) => acc.(bookmarks := acc.bookmarks + [b])
    case Unreadable => acc
  }

  /** The records of a CSV file's data rows, sorted back into the three lists. */
  function ReadRows(rows: seq<Row>): ReadBack
  {
    if rows == [] then ReadBack([], [], [])
    else AddRecord(ReadRows(rows[..|rows| - 1]), ReadRow(rows[|rows| - 1]))
  }

  lemma {:induction false} ReadRowsAppend(a: seq<Row>, b: seq<Row>)
    ensures ReadRows(a + b) == Concat(ReadRows(a), ReadRows(b))
    decreases |b|
  {
    if b == [] {
      assert a + b == a;
    } else {
      assert (a + b)[..|a + b| - 1] == a + b[..|b| - 1];
      assert (a + b)[|a + b| - 1] == b[|b| - 1];
      ReadRowsAppend(a, b[..|b| - 1]);
      var x, y := ReadRows(a), ReadRows(b[..|b| - 1]);
      match ReadRow(b[|b| - 1])
      case HighlightRecord(h) =>
        assert x.highlights + (y.highlights + [h]) == x.highlights + y.highlights + [h];
      case NoteRecord(n) =>
        assert x.notes + (y.notes + [n]) == x.notes + y.notes + [n];
      case BookmarkRecord(r) =>
        assert x.bookmarks + (y.bookmarks + [r]) == x.bookmarks + y.bookmarks + [r];
      case Unreadable =>
    }
  }

  lemma {:induction false} ReadHighlightRows(hs: seq<Highlight>)
    ensures ReadRows(Map(HighlightRow, hs)) == ReadBack(hs, [], [])
  {
    if hs != [] {
      ReadHighlightRows(hs[..|hs| - 1]);
      ReadRowsAppend(Map(HighlightRow, hs[..|hs| - 1]), [HighlightRow(hs[|hs| - 1])]);
      assert [HighlightRow(hs[|hs| - 1])][..0] == [];
      assert hs[..|hs| - 1] + [hs[|hs| - 1]] == hs;
    }
  }

  lemma {:induction false} ReadNoteRows(ns: seq<Note>)
    ensures ReadRows(Map(NoteRow, ns)) == ReadBack([], ns, [])
  {
    if ns != [] {
      ReadNoteRows(ns[..|ns| - 1]);
      ReadRowsAppend(Map(NoteRow, ns[..|ns| - 1]), [NoteRow(ns[|ns| - 1])]);
      assert [NoteRow(ns[|ns| - 1])][..0] == [];
      assert ns[..|ns| - 1] + [ns[|ns| - 1]] == ns;
    }
  }

  lemma {:induction false} ReadBookmarkRows(bs: seq<Bookmark>)
    ensures ReadRows(Map(BookmarkRow, bs)) == ReadBack([], [], bs)
  {
    if bs != [] {
      ReadBookmarkRows(bs[..|bs| - 1]);
      ReadRowsAppend(Map(BookmarkRow, bs[..|bs| - 1]), [BookmarkRow(bs[|bs| - 1])]);
      assert [BookmarkRow(bs[|bs| - 1])][..0] == [];
      assert bs[..|bs| - 1] + [bs[|bs| - 1]] == bs;
    }
  }

  /** The CSV rows after the header give back exactly the Book's three lists: nothing is lost or reordered. */
  lemma CsvRoundTrip(b: BookValue)
    ensures CsvRows(b)[0] == Header
    ensures ReadRows(CsvRows(b)[1..]) == ReadBack(b.highlights, b.notes, b.bookmarks)
  {
    var hr, nr, br := Map(HighlightRow, b.highlights), Map(NoteRow, b.notes), Map(BookmarkRow, b.bookmarks);
    DropHead(Header, hr, nr, br);
    ReadHighlightRows(b.highlights);
    ReadNoteRows(b.notes);
    ReadBookmarkRows(b.bookmarks);
    ReadRowsAppend(hr, nr);
    ReadRowsAppend(hr + nr, br);
    assert ReadRows(hr + nr) == ReadBack(b.highlights, b.notes, []);
  }

  /** Positions in a sequence of the shape `[t, a] + xs + [b] + ys + [c] + zs`. */
  lemma SectionsLayout<T>(t: T, a: T, xs: seq<T>, b: T, ys: seq<T>, c: T, zs: seq<T>)
    ensures var s := [t, a] + xs + [b] + ys + [c] + zs;
      && |s| == 4 + |xs| + |ys| + |zs|
      && s[0] == t && s[1] == a && s[2 + |xs|] == b && s[3 + |xs| + |ys|] == c
      && (forall i :: 0 <= i < |xs| ==> s[2 + i] == xs[i])
      && (forall i :: 0 <= i < |ys| ==> s[3 + |xs| + i] == ys[i])
      && (forall i :: 0 <= i < |zs| ==> s[4 + |xs| + |ys| + i] == zs[i])
  {
  }

  /** The text report has the fixed `# Book highlights` heading and then the headings Highlights, Notes and Bookmarks, in that order. */
  lemma ReportHeadings(b: BookValue)
    ensures var lines := ReportLines(b);
      var h, n := |b.highlights|, |b.notes|;
      && |lines| == 4 + h + n + |b.bookmarks|
      && lines[0] == TitleHeading && lines[1] == HighlightsHeading
      && lines[2 + h] == NotesHeading && lines[3 + h + n] == BookmarksHeading
  {
    MapLength(HighlightLine, b.highlights);
    MapLength(NoteLine, b.notes);
    MapLength(BookmarkLine, b.bookmarks);
    SectionsLayout(TitleHeading, HighlightsHeading, Map(HighlightLine, b.highlights), NotesHeading,
      Map(NoteLine, b.notes), BookmarksHeading, Map(BookmarkLine, b.bookmarks));
  }

  /** The same positions when the three runs are the images of three lists. */
  lemma MappedSectionsLayout<A, B, C, T>(t: T, a: T, f: A -> T, xs: seq<A>, b: T, g: B -> T, ys: seq<B>, c: T, k: C -> T, zs: seq<C>)
    ensures var s := [t, a] + Map(f, xs) + [b] + Map(g, ys) + [c] + Map(k, zs);
      && |s| == 4 + |xs| + |ys| + |zs|
      && (forall i :: 0 <= i < |xs| ==> s[2 + i] == f(xs[i]))
      && (forall i :: 0 <= i < |ys| ==> s[3 + |xs| + i] == g(ys[i]))
      && (forall i :: 0 <= i < |zs| ==> s[4 + |xs| + |ys| + i] == k(zs[i]))
  {
    var fx, gy, kz := Map(f, xs), Map(g, ys), Map(k, zs);
    MapLength(f, xs);
    MapLength(g, ys);
    MapLength(k, zs);
    var p1 := [t, a] + fx;
    var p2 := p1 + [b] + gy;
    var p3 := p2 + [c];
    var s := p3 + kz;
    forall i | 0 <= i < |xs|
      ensures s[2 + i] == f(xs[i])
    {
      MapIndex(f, xs, i);
      assert s[2 + i] == p3[2 + i] == p2[2 + i] == p1[2 + i];
    }
    forall i | 0 <= i < |ys|
      ensures s[3 + |xs| + i] == g(ys[i])
    {
      MapIndex(g, ys, i);
      assert s[3 + |xs| + i] == p3[3 + |xs| + i] == p2[3 + |xs| + i];
    }
    forall i | 0 <= i < |zs|
      ensures s[4 + |xs| + |ys| + i] == k(zs[i])
    {
      MapIndex(k, zs, i);
    }
  }

  /** Under each heading, one bulleted line per record of that kind, in stored order. */
  lemma ReportEntries(b: BookValue)
    ensures var lines := ReportLines(b);
      var h, n := |b.highlights|, |b.notes|;
      && |lines| == 4 + h + n + |b.bookmarks|
      && (forall i :: 0 <= i < h ==> lines[2 + i] == HighlightLine(b.highlights[i]))
      && (forall i :: 0 <= i < n ==> lines[3 + h + i] == NoteLine(b.notes[i]))
      && (forall i :: 0 <= i < |b.bookmarks| ==> lines[4 + h + n + i] == BookmarkLine(b.bookmarks[i]))
  {
    MappedSectionsLayout(TitleHeading, HighlightsHeading, HighlightLine, b.highlights, NotesHeading,
      NoteLine, b.notes, BookmarksHeading, BookmarkLine, b.bookmarks);
  }

  /** Every record line is a bullet, so no record line can be taken for a section heading. */
  lemma RecordLinesAreBullets(h: Highlight, n: Note, b: Bookmark)
    ensures StartsWith(HighlightLine(h), "- ") && StartsWith(NoteLine(n), "- ") && StartsWith(BookmarkLine(b), "- ")
    ensures !StartsWith(HighlightsHeading, "- ") && !StartsWith(NotesHeading, "- ") && !StartsWith(BookmarksHeading, "- ")
  {
    assert HighlightLine(h)[..2] == "- ";
    assert NoteLine(n)[..2] == "- ";
    assert BookmarkLine(b)[..2] == "- ";
    assert HighlightsHeading[..2] == "##" && NotesHeading[..2] == "##" && BookmarksHeading[..2] == "##";
  }

  /** Each Book contributes its CSV file and its text file, in the order of the books. */
  lemma OutputsLayout(books: seq<BookValue>)
    ensures |Outputs(books)| == 2 * |books|
    ensures forall i :: 0 <= i < |books| ==>
      Outputs(books)[2 * i] == CsvFile(OutputDir + "/" + books[i].title + ".csv", CsvRows(books[i])) &&
      Outputs(books)[2 * i + 1] == TextFile(OutputDir + "/" + books[i].title + ".txt", ReportLines(books[i]))
  {
    FlattenPairs(BookFiles, books);
  }
}
